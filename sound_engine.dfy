/**
 * The footstep engine's driver (SoundEngine): the session it holds (the isolator
 * with everything loaded from the resource packs, and whether loading succeeded),
 * the guards that say whether it is running, the per-frame loop over the selected
 * targets, and the filter that tells the host which vanilla sounds to suppress.
 */
module Engine {
  import opened Wrappers
  import opened TargetSelection

  /** The host client state the engine asks about. */
  datatype Client = Client(paused: bool, singleplayer: bool)

  /** The vanilla sound events the engine inspects; every other event is `OtherSound`. */
  datatype SoundEvent = PlayerSwim | PlayerSplash | PlayerBigFall | PlayerSmallFall | OtherSound(name: string)

  /** A registry entry for a sound: a direct value, or a reference by registry key. */
  datatype SoundEntry = Direct(sound: SoundEvent) | Reference(key: string)

  /** The player sounds the engine replaces with its own while it is running. */
  const ReplacedSounds: set<SoundEvent> := {PlayerSwim, PlayerSplash, PlayerBigFall, PlayerSmallFall}

  /** What happens during one frame, in order. */
  datatype FrameEvent =
    | Generate(id: EntityId)  // the entity's step generator produced its footsteps
    | Think                   // the acoustics' delayed sounds were advanced

  /** A frame either completes or ends in the crash raised for the entity whose generator threw. */
  datatype FrameOutcome = Completed | Crashed(culprit: Entity)

  /**
   * The entity's step throws this frame: the cast to a step-sound source, the generator
   * lookup, or the generator itself. An entity without a generator can throw too.
   */
  predicate GenerationFails(e: Entity, failing: set<EntityId>) {
    e.id in failing
  }

  /** The generation events of a run over `ts` in which nothing throws. */
  function GenerationsOf(ts: seq<Entity>): (r: seq<FrameEvent>)
    ensures Think !in r
  {
    if ts == [] then []
    else
      var last := ts[|ts| - 1];
      GenerationsOf(ts[..|ts| - 1]) + (if last.hasStepGenerator then [Generate(last.id)] else [])
  }

  /** Every target that has a step generator gets its generation event, and only those do. */
  lemma {:induction false} GenerationsCover(ts: seq<Entity>)
    ensures forall e :: e in ts && e.hasStepGenerator ==> Generate(e.id) in GenerationsOf(ts)
    ensures forall id :: Generate(id) in GenerationsOf(ts) ==>
      exists e :: e in ts && e.hasStepGenerator && e.id == id
  {
    if ts != [] {
      var init := ts[..|ts| - 1];
      GenerationsCover(init);
      assert ts == init + [ts[|ts| - 1]];
      forall id | Generate(id) in GenerationsOf(ts)
        ensures exists e :: e in ts && e.hasStepGenerator && e.id == id
      {
        if Generate(id) in GenerationsOf(init) {
          var e :| e in init && e.hasStepGenerator && e.id == id;
          assert e in ts;
        } else {
          assert ts[|ts| - 1] in ts;
        }
      }
    }
  }

  /**
   * The session state the engine holds from the resource packs. Only the golem table
   * that target selection consults is modelled.
   */
  class Isolator {
    var golems: set<EntityType>

    constructor ()
      ensures golems == {}
    {
      golems := {};
    }

    /**
     * Loads the resource packs into this isolator. The loading itself is outside this
     * model: its success flag and the golem table it builds are supplied by the caller.
     */
    method Load(succeeded: bool, golemTable: set<EntityType>) returns (ok: bool)
      modifies this
      ensures ok == succeeded
      ensures golems == golemTable
    {
      golems := golemTable;
      ok := succeeded;
    }
  }

  class SoundEngine {
    var isolator: Isolator
    var hasConfigurations: bool

    constructor ()
      ensures fresh(isolator) && isolator.golems == {}
      ensures !hasConfigurations
    {
      isolator := new Isolator();
      hasConfigurations := false;
    }

    /** The session has data exactly when the last load succeeded and no shutdown followed. */
    predicate HasData()
      reads this
    {
      hasConfigurations
    }

    /** Generation runs only with loaded data, unpaused, enabled, and, in multiplayer, enabled there too. */
    predicate IsRunning(client: Client, cfg: Config)
      reads this
    {
      && HasData()
      && !client.paused
      && cfg.enabled
      && (client.singleplayer || cfg.enabledMP)
    }

    /** Without data the engine runs for no client and no configuration. */
    lemma NoDataNoRunning()
      requires !HasData()
      ensures forall client, cfg :: !IsRunning(client, cfg)
      ensures forall client, cfg, e :: !IsEnabledFor(e, client, cfg)
    {
    }

    /** An entity gets footsteps only while the engine runs and the entity selector accepts it. */
    predicate IsEnabledFor(e: Entity, client: Client, cfg: Config)
      reads this
      ensures IsEnabledFor(e, client, cfg) ==> IsRunning(client, cfg)
      ensures IsEnabledFor(e, client, cfg) <==> IsRunning(client, cfg) && cfg.selector(e)
    {
      HasData() && IsRunning(client, cfg) && cfg.selector(e)
    }

    /** Throws the session away: a fresh isolator and no data, so the engine stops running. */
    method Shutdown()
      modifies this
      ensures fresh(isolator) && isolator.golems == {}
      ensures !HasData()
      ensures forall client, cfg :: !IsRunning(client, cfg)
    {
      isolator := new Isolator();
      hasConfigurations := false;
    }

    /**
     * Resets the session, then loads into the fresh isolator; the engine has data exactly
     * when the load succeeded.
     */
    method ReloadEverything(loadSucceeds: bool, golemTable: set<EntityType>)
      modifies this
      ensures fresh(isolator) && isolator.golems == golemTable
      ensures HasData() == loadSucceeds
    {
      Shutdown();
      hasConfigurations := isolator.Load(loadSucceeds, golemTable);
    }

    /** Reloads when the configuration enables the engine, shuts down otherwise. */
    method Reload(cfg: Config, loadSucceeds: bool, golemTable: set<EntityType>)
      modifies this
      ensures fresh(isolator)
      ensures isolator.golems == if cfg.enabled then golemTable else {}
      ensures HasData() == (cfg.enabled && loadSucceeds)
      ensures forall client :: IsRunning(client, cfg) <==>
        cfg.enabled && loadSucceeds && !client.paused && (client.singleplayer || cfg.enabledMP)
    {
      if cfg.enabled {
        ReloadEverything(loadSucceeds, golemTable);
      } else {
        Shutdown();
      }
    }

    /**
     * The entities to generate footsteps for this frame, among the entities `nearby`
     * the world reports around the camera.
     */
    method GetTargets(camera: Entity, nearby: seq<Entity>, cfg: Config) returns (targets: seq<Entity>)
      ensures targets == Targets(camera, nearby, isolator.golems, cfg)
    {
      var entities := Eligibles(nearby, isolator.golems, cfg);
      var max := cfg.maxSteppingEntities;
      if |entities| < max {
        return entities;
      }
      var sorted := SortByDistance(entities);
      targets := KeepNearestDistinct(sorted, camera.id, max);
    }

    /**
     * The stream's final filter over the distance-sorted entities: the camera and players
     * pass; another entity passes while fewer than `max` keys have been visited and its
     * key is new, and its key is then visited.
     */
    method KeepNearestDistinct(sorted: seq<Entity>, cameraId: EntityId, max: int) returns (targets: seq<Entity>)
      ensures targets == Capped(sorted, cameraId, max)
    {
      var alreadyVisited: set<Key> := {};
      targets := [];
      var i := 0;
      while i < |sorted|
        invariant 0 <= i <= |sorted|
        invariant targets == CappedPrefix(sorted, cameraId, max, i)
        invariant |alreadyVisited| < max ==> alreadyVisited == KeysBefore(sorted, cameraId, i)
        invariant max <= |alreadyVisited| ==> max <= |KeysBefore(sorted, cameraId, i)|
      {
        var e := sorted[i];
        var keep := false;
        if e.id == cameraId || e.isPlayer {
          keep := true;
        } else if |alreadyVisited| < max {
          // HashSet.add: reports whether the key was new, and adds it
          keep := KeyOf(e) !in alreadyVisited;
          alreadyVisited := alreadyVisited + {KeyOf(e)};
        }
        KeysBeforeStep(sorted, cameraId, i);
        assert keep == Kept(sorted, cameraId, max, i);
        if keep {
          targets := targets + [e];
        }
        i := i + 1;
      }
    }

    /**
     * One frame: when running, generates footsteps for each target in order and then
     * advances the delayed sounds once. A target whose step throws ends the frame with a
     * crash for that entity, so no later target is processed and `Think` does not happen.
     * `failing` names the entities whose step throws in this frame, whether in the cast,
     * the generator lookup or the generator.
     */
    method OnFrame(client: Client, cfg: Config, camera: Entity, nearby: seq<Entity>, failing: set<EntityId>)
      returns (trace: seq<FrameEvent>, outcome: FrameOutcome)
      ensures !IsRunning(client, cfg) ==> trace == [] && outcome == Completed
      ensures IsRunning(client, cfg) ==>
        var ts := Targets(camera, nearby, isolator.golems, cfg);
        && (outcome.Completed? <==> forall e :: e in ts ==> !GenerationFails(e, failing))
        && (outcome.Completed? ==> trace == GenerationsOf(ts) + [Think])
        && (outcome.Crashed? ==> CrashedAt(ts, failing, outcome.culprit, trace))
      ensures Think in trace <==> IsRunning(client, cfg) && outcome.Completed?
      ensures Think in trace ==> trace[|trace| - 1] == Think && Think !in trace[..|trace| - 1]
    {
      trace, outcome := [], Completed;
      if !IsRunning(client, cfg) {
        return;
      }
      var ts := GetTargets(camera, nearby, cfg);
      trace, outcome := GenerateAll(ts, failing);
      if outcome.Completed? {
        ghost var generations := trace;
        trace := trace + [Think];
        assert trace[..|trace| - 1] == generations;
      }
    }

    /**
     * Whether the host should suppress a vanilla sound: only while running, and only the
     * four player sounds the engine replaces, given as direct registry values.
     */
    predicate OnSoundReceived(event: Option<SoundEntry>, client: Client, cfg: Config)
      reads this
      ensures event.None? ==> !OnSoundReceived(event, client, cfg)
      ensures OnSoundReceived(event, client, cfg) <==>
        && IsRunning(client, cfg)
        && event.Some? && event.value.Direct? && event.value.sound in ReplacedSounds
    {
      && event.Some?
      && IsRunning(client, cfg)
      && match event.value
         case Direct(sound) =>
           || sound == PlayerSwim
           || sound == PlayerSplash
           || sound == PlayerBigFall
           || sound == PlayerSmallFall
         case Reference(_) => false
    }
  }

  /**
   * The frame ended with the crash for `culprit`: the first target whose generation
   * throws, after the generation events of the targets before it.
   */
  ghost predicate CrashedAt(ts: seq<Entity>, failing: set<EntityId>, culprit: Entity, trace: seq<FrameEvent>) {
    exists k ::
      && 0 <= k < |ts|
      && ts[k] == culprit
      && GenerationFails(ts[k], failing)
      && (forall j :: 0 <= j < k ==> !GenerationFails(ts[j], failing))
      && trace == GenerationsOf(ts[..k])
  }

  /**
   * The `forEach` over the targets: runs each target's step generator in order; a
   * step that throws is reported as a crash and stops the iteration.
   */
  method GenerateAll(ts: seq<Entity>, failing: set<EntityId>) returns (trace: seq<FrameEvent>, outcome: FrameOutcome)
    ensures outcome.Completed? <==> forall e :: e in ts ==> !GenerationFails(e, failing)
    ensures outcome.Completed? ==> trace == GenerationsOf(ts)
    ensures outcome.Crashed? ==> CrashedAt(ts, failing, outcome.culprit, trace)
    ensures Think !in trace
  {
    trace, outcome := [], Completed;
    var i := 0;
    while i < |ts|
      invariant 0 <= i <= |ts|
      invariant trace == GenerationsOf(ts[..i])
      invariant forall j :: 0 <= j < i ==> !GenerationFails(ts[j], failing)
    {
      var e := ts[i];
      assert ts[..i + 1][..i] == ts[..i];
      if e.id in failing {
        // the crash report is rethrown: the frame ends here
        outcome := Crashed(e);
        assert e in ts;
        assert 0 <= i < |ts| && ts[i] == e && trace == GenerationsOf(ts[..i]);
        return;
      }
      if e.hasStepGenerator {
        trace := trace + [Generate(e.id)];
      }
      i := i + 1;
    }
    assert ts[..i] == ts;
  }
}
