/**
 * Which nearby entities the footstep engine generates sounds for in one frame
 * (SoundEngine.getTargets): an eligibility filter, and, once there are at least
 * `maxSteppingEntities` candidates, a distance-ordered selection that always keeps
 * the camera entity and the players and keeps at most `maxSteppingEntities` other
 * entities, one per distinct (entity type, block position).
 *
 * This module holds the specification; the loop that computes it lives in
 * Engine.SoundEngine.GetTargets.
 */
module TargetSelection {

  type EntityId = int
  type EntityType = string

  datatype BlockPos = BlockPos(x: int, y: int, z: int)

  /** An entity near the camera, reduced to what target selection and frame processing ask of it. */
  datatype Entity = Entity(
    id: EntityId,
    entityType: EntityType,
    blockPos: BlockPos,
    sqDistance: int,           // squared distance to the camera entity
    isLiving: bool,
    isPlayer: bool,
    isWaterCreature: bool,
    isFlying: bool,
    isShulker: bool,
    isArmorStand: bool,
    isBoat: bool,
    isMinecart: bool,
    hasVehicle: bool,
    isSleeping: bool,
    isSpectator: bool,
    hasStepGenerator: bool)

  /** The part of the user configuration the engine reads. */
  datatype Config = Config(
    enabled: bool,
    enabledMP: bool,
    maxSteppingEntities: int,
    selector: Entity -> bool)  // the configured entity selector

  /** Entities further away than this squared distance are never stepping targets. */
  const MaxSquaredDistance: int := 256

  /** The eligibility test the world query applies to every entity around the camera. */
  predicate Eligible(e: Entity, golems: set<EntityType>, cfg: Config) {
    && e.isLiving
    && !e.isWaterCreature
    && !e.isFlying
    && !(e.isShulker || e.isArmorStand || e.isBoat || e.isMinecart)
    && e.entityType !in golems
    && !e.hasVehicle
    && !e.isSleeping
    && (!e.isPlayer || !e.isSpectator)
    && e.sqDistance <= MaxSquaredDistance
    && cfg.selector(e)
  }

  /** `r` is `s` with some elements left out, the rest in their original order. */
  predicate IsSubsequence(r: seq<Entity>, s: seq<Entity>) {
    if r == [] then true
    else if s == [] then false
    else if r[0] == s[0] then IsSubsequence(r[1..], s[1..])
    else IsSubsequence(r, s[1..])
  }

  /** The entities of `nearby` that pass the eligibility test, in the world's order. */
  function Eligibles(nearby: seq<Entity>, golems: set<EntityType>, cfg: Config): (r: seq<Entity>)
    ensures forall e :: e in r ==> Eligible(e, golems, cfg)
    ensures forall e :: e in nearby && Eligible(e, golems, cfg) ==> e in r
    ensures IsSubsequence(r, nearby)
  {
    if nearby == [] then []
    else if Eligible(nearby[0], golems, cfg) then [nearby[0]] + Eligibles(nearby[1..], golems, cfg)
    else Eligibles(nearby[1..], golems, cfg)
  }

  predicate SortedByDistance(s: seq<Entity>) {
    forall i, j :: 0 <= i < j < |s| ==> s[i].sqDistance <= s[j].sqDistance
  }

  /** Inserts `e` into `s` before the first entity that is not nearer than `e`. */
  function InsertByDistance(e: Entity, s: seq<Entity>): (r: seq<Entity>)
    ensures multiset(r) == multiset(s) + multiset{e}
    ensures forall x :: x in r ==> x == e || x in s
  {
    if s == [] || e.sqDistance <= s[0].sqDistance then [e] + s
    else
      assert s == [s[0]] + s[1..];
      [s[0]] + InsertByDistance(e, s[1..])
  }

  /** A sorted sequence stays sorted when an entity no further than all of it goes in front. */
  lemma SortedCons(x: Entity, r: seq<Entity>)
    requires SortedByDistance(r)
    requires forall k :: 0 <= k < |r| ==> x.sqDistance <= r[k].sqDistance
    ensures SortedByDistance([x] + r)
  {
  }

  /** A sorted sequence stays sorted when an entity no nearer than all of it goes at the end. */
  lemma SortedSnoc(r: seq<Entity>, x: Entity)
    requires SortedByDistance(r)
    requires forall k :: 0 <= k < |r| ==> r[k].sqDistance <= x.sqDistance
    ensures SortedByDistance(r + [x])
  {
  }

  /** Inserting into a distance-sorted sequence keeps it sorted. */
  lemma {:induction false} InsertKeepsSorted(e: Entity, s: seq<Entity>)
    requires SortedByDistance(s)
    ensures SortedByDistance(InsertByDistance(e, s))
  {
    if s == [] || e.sqDistance <= s[0].sqDistance {
      SortedCons(e, s);
    } else {
      var rest := InsertByDistance(e, s[1..]);
      InsertKeepsSorted(e, s[1..]);
      forall k | 0 <= k < |rest| ensures s[0].sqDistance <= rest[k].sqDistance {
        assert rest[k] in rest;
        if rest[k] != e {
          var m :| 0 <= m < |s[1..]| && s[1..][m] == rest[k];
          assert s[m + 1] == rest[k];
        }
      }
      SortedCons(s[0], rest);
    }
  }

  /** The stream's `sorted(nearest)`: the same entities, nearest first. */
  function SortByDistance(s: seq<Entity>): (r: seq<Entity>)
    ensures SortedByDistance(r)
    ensures multiset(r) == multiset(s)
  {
    if s == [] then []
    else
      var rest := SortByDistance(s[1..]);
      assert s == [s[0]] + s[1..];
      InsertKeepsSorted(s[0], rest);
      InsertByDistance(s[0], rest)
  }

  /** The entities of `s` at squared distance `d`, in their order in `s`. */
  function AtDistance(s: seq<Entity>, d: int): seq<Entity> {
    if s == [] then []
    else (if s[0].sqDistance == d then [s[0]] else []) + AtDistance(s[1..], d)
  }

  lemma {:induction false} InsertAtDistance(e: Entity, s: seq<Entity>, d: int)
    ensures AtDistance(InsertByDistance(e, s), d) == (if e.sqDistance == d then [e] else []) + AtDistance(s, d)
  {
    if s == [] || e.sqDistance <= s[0].sqDistance {
      assert ([e] + s)[1..] == s;
    } else {
      InsertAtDistance(e, s[1..], d);
      var r := [s[0]] + InsertByDistance(e, s[1..]);
      assert r[1..] == InsertByDistance(e, s[1..]);
      assert AtDistance(s, d) == (if s[0].sqDistance == d then [s[0]] else []) + AtDistance(s[1..], d);
      if e.sqDistance == d {
        // s[0] is strictly nearer than e, so it is not at distance d
        assert s[0].sqDistance != d;
      }
    }
  }

  /** The sort is stable: entities at the same distance keep their input order. */
  lemma {:induction false} SortStable(s: seq<Entity>, d: int)
    ensures AtDistance(SortByDistance(s), d) == AtDistance(s, d)
  {
    if s != [] {
      SortStable(s[1..], d);
      InsertAtDistance(s[0], SortByDistance(s[1..]), d);
    }
  }

  /** The camera entity and players are kept regardless of the cap. */
  predicate IsSpecial(e: Entity, cameraId: EntityId) {
    e.id == cameraId || e.isPlayer
  }

  type Key = (EntityType, BlockPos)

  /** What the source hashes to tell entities apart: their type and block position. */
  function KeyOf(e: Entity): Key {
    (e.entityType, e.blockPos)
  }

  /** The keys of the entities among the first `n` of `s` that are neither the camera nor a player. */
  function KeysBefore(s: seq<Entity>, cameraId: EntityId, n: nat): set<Key>
    requires n <= |s|
  {
    if n == 0 then {}
    else KeysBefore(s, cameraId, n - 1) + (if IsSpecial(s[n - 1], cameraId) then {} else {KeyOf(s[n - 1])})
  }

  /** One more entity adds at most its own key to the keys seen so far. */
  lemma KeysBeforeStep(s: seq<Entity>, cameraId: EntityId, n: nat)
    requires n < |s|
    ensures KeysBefore(s, cameraId, n + 1) ==
      KeysBefore(s, cameraId, n) + (if IsSpecial(s[n], cameraId) then {} else {KeyOf(s[n])})
    ensures |KeysBefore(s, cameraId, n)| <= |KeysBefore(s, cameraId, n + 1)|
  {
    var before := KeysBefore(s, cameraId, n);
    if IsSpecial(s[n], cameraId) || KeyOf(s[n]) in before {
      assert KeysBefore(s, cameraId, n + 1) == before;
    } else {
      assert KeysBefore(s, cameraId, n + 1) == before + {KeyOf(s[n])};
      assert |before + {KeyOf(s[n])}| == |before| + 1;
    }
  }

  /**
   * Whether the capped selection keeps `s[i]`: always for the camera and players;
   * otherwise only the first entity of each key, and only among the first `max` distinct keys.
   */
  predicate Kept(s: seq<Entity>, cameraId: EntityId, max: int, i: nat)
    requires i < |s|
  {
    || IsSpecial(s[i], cameraId)
    || (KeyOf(s[i]) !in KeysBefore(s, cameraId, i) && |KeysBefore(s, cameraId, i)| < max)
  }

  /** The kept entities among the first `n` of `s`, in order. */
  function CappedPrefix(s: seq<Entity>, cameraId: EntityId, max: int, n: nat): seq<Entity>
    requires n <= |s|
  {
    if n == 0 then []
    else CappedPrefix(s, cameraId, max, n - 1) + (if Kept(s, cameraId, max, n - 1) then [s[n - 1]] else [])
  }

  function Capped(s: seq<Entity>, cameraId: EntityId, max: int): seq<Entity> {
    CappedPrefix(s, cameraId, max, |s|)
  }

  /** The entities of `r` that are neither the camera nor a player, in order. */
  function Ordinary(r: seq<Entity>, cameraId: EntityId): seq<Entity> {
    if r == [] then []
    else Ordinary(r[..|r| - 1], cameraId) + (if IsSpecial(r[|r| - 1], cameraId) then [] else [r[|r| - 1]])
  }

  lemma OrdinarySnoc(r: seq<Entity>, x: Entity, cameraId: EntityId)
    ensures Ordinary(r + [x], cameraId) == Ordinary(r, cameraId) + (if IsSpecial(x, cameraId) then [] else [x])
  {
  }

  /** The targets of one frame, as SoundEngine.getTargets selects them. */
  function Targets(camera: Entity, nearby: seq<Entity>, golems: set<EntityType>, cfg: Config): seq<Entity> {
    var entities := Eligibles(nearby, golems, cfg);
    if |entities| < cfg.maxSteppingEntities then entities
    else Capped(SortByDistance(entities), camera.id, cfg.maxSteppingEntities)
  }

  // ---------------------------------------------------------------------------
  // Properties of the capped selection

  lemma {:induction false} CappedPrefixFrom(s: seq<Entity>, cameraId: EntityId, max: int, n: nat)
    requires n <= |s|
    ensures forall x :: x in CappedPrefix(s, cameraId, max, n) ==> x in s[..n]
  {
    if n > 0 {
      CappedPrefixFrom(s, cameraId, max, n - 1);
      assert s[..n] == s[..n - 1] + [s[n - 1]];
    }
  }

  /** Of a sorted `s`, everything kept among the first `n` is no further than `s[m]` for `m >= n`. */
  lemma {:induction false} CappedPrefixNearer(s: seq<Entity>, cameraId: EntityId, max: int, n: nat, m: nat)
    requires n <= m < |s|
    requires SortedByDistance(s)
    ensures forall k :: 0 <= k < |CappedPrefix(s, cameraId, max, n)| ==>
      CappedPrefix(s, cameraId, max, n)[k].sqDistance <= s[m].sqDistance
  {
    if n > 0 {
      CappedPrefixNearer(s, cameraId, max, n - 1, m);
    }
  }

  lemma {:induction false} CappedPrefixSorted(s: seq<Entity>, cameraId: EntityId, max: int, n: nat)
    requires n <= |s|
    requires SortedByDistance(s)
    ensures SortedByDistance(CappedPrefix(s, cameraId, max, n))
  {
    if n > 0 {
      CappedPrefixSorted(s, cameraId, max, n - 1);
      var prev := CappedPrefix(s, cameraId, max, n - 1);
      if Kept(s, cameraId, max, n - 1) {
        assert CappedPrefix(s, cameraId, max, n) == prev + [s[n - 1]];
        CappedPrefixNearer(s, cameraId, max, n - 1, n - 1);
        SortedSnoc(prev, s[n - 1]);
      } else {
        assert CappedPrefix(s, cameraId, max, n) == prev;
      }
    }
  }

  /** In the capped branch the targets come nearest first. */
  lemma CappedSorted(s: seq<Entity>, cameraId: EntityId, max: int)
    requires SortedByDistance(s)
    ensures SortedByDistance(Capped(s, cameraId, max))
  {
    CappedPrefixSorted(s, cameraId, max, |s|);
  }

  lemma {:induction false} CappedPrefixKeepsSpecial(s: seq<Entity>, cameraId: EntityId, max: int, n: nat)
    requires n <= |s|
    ensures forall i :: 0 <= i < n && IsSpecial(s[i], cameraId) ==> s[i] in CappedPrefix(s, cameraId, max, n)
  {
    if n > 0 {
      CappedPrefixKeepsSpecial(s, cameraId, max, n - 1);
    }
  }

  /** The capped selection keeps the camera entity and every player. */
  lemma CappedKeepsSpecial(s: seq<Entity>, cameraId: EntityId, max: int)
    ensures forall e :: e in s && IsSpecial(e, cameraId) ==> e in Capped(s, cameraId, max)
  {
    CappedPrefixKeepsSpecial(s, cameraId, max, |s|);
  }

  predicate DistinctOrdinaryKeys(r: seq<Entity>, cameraId: EntityId) {
    forall i, j :: 0 <= i < j < |r| && !IsSpecial(r[i], cameraId) && !IsSpecial(r[j], cameraId) ==>
      KeyOf(r[i]) != KeyOf(r[j])
  }

  lemma {:induction false} CappedPrefixDistinct(s: seq<Entity>, cameraId: EntityId, max: int, n: nat)
    requires n <= |s|
    ensures DistinctOrdinaryKeys(CappedPrefix(s, cameraId, max, n), cameraId)
    ensures forall x :: x in CappedPrefix(s, cameraId, max, n) && !IsSpecial(x, cameraId) ==>
      KeyOf(x) in KeysBefore(s, cameraId, n)
  {
    if n > 0 {
      CappedPrefixDistinct(s, cameraId, max, n - 1);
    }
  }

  /** Of the entities that are neither the camera nor a player, no two kept ones share a key. */
  lemma CappedDistinctKeys(s: seq<Entity>, cameraId: EntityId, max: int)
    ensures DistinctOrdinaryKeys(Capped(s, cameraId, max), cameraId)
  {
    CappedPrefixDistinct(s, cameraId, max, |s|);
  }

  lemma {:induction false} CappedPrefixBound(s: seq<Entity>, cameraId: EntityId, max: int, n: nat)
    requires n <= |s|
    ensures |Ordinary(CappedPrefix(s, cameraId, max, n), cameraId)| <= |KeysBefore(s, cameraId, n)|
    ensures |Ordinary(CappedPrefix(s, cameraId, max, n), cameraId)| <= if max < 0 then 0 else max
  {
    if n > 0 {
      CappedPrefixBound(s, cameraId, max, n - 1);
      var prev := CappedPrefix(s, cameraId, max, n - 1);
      var next := CappedPrefix(s, cameraId, max, n);
      KeysBeforeStep(s, cameraId, n - 1);
      if Kept(s, cameraId, max, n - 1) {
        OrdinarySnoc(prev, s[n - 1], cameraId);
      } else {
        assert next == prev;
      }
    }
  }

  /** At most `max` entities besides the camera and the players are kept. */
  lemma CappedBound(s: seq<Entity>, cameraId: EntityId, max: int)
    ensures |Ordinary(Capped(s, cameraId, max), cameraId)| <= if max < 0 then 0 else max
  {
    CappedPrefixBound(s, cameraId, max, |s|);
  }

  // ---------------------------------------------------------------------------
  // Properties of the targets of a frame

  /** Every target passes the eligibility test. */
  lemma TargetsEligible(camera: Entity, nearby: seq<Entity>, golems: set<EntityType>, cfg: Config)
    ensures forall e :: e in Targets(camera, nearby, golems, cfg) ==> Eligible(e, golems, cfg)
    ensures forall e :: e in Targets(camera, nearby, golems, cfg) ==> e in nearby
  {
    var entities := Eligibles(nearby, golems, cfg);
    SubsequenceMembers(entities, nearby);
    if |entities| >= cfg.maxSteppingEntities {
      var sorted := SortByDistance(entities);
      CappedPrefixFrom(sorted, camera.id, cfg.maxSteppingEntities, |sorted|);
      assert sorted[..|sorted|] == sorted;
      forall e | e in Targets(camera, nearby, golems, cfg)
        ensures Eligible(e, golems, cfg) && e in nearby
      {
        assert e in multiset(sorted);
      }
    }
  }

  /** Every member of a subsequence is a member of the sequence. */
  lemma {:induction false} SubsequenceMembers(r: seq<Entity>, s: seq<Entity>)
    requires IsSubsequence(r, s)
    ensures forall e :: e in r ==> e in s
  {
    if r != [] && s != [] {
      if r[0] == s[0] {
        SubsequenceMembers(r[1..], s[1..]);
        assert forall e :: e in r ==> e == r[0] || e in r[1..];
      } else {
        SubsequenceMembers(r, s[1..]);
      }
      assert forall e :: e in s[1..] ==> e in s;
    }
  }

  /** Below the cap the targets are exactly the eligible entities, in the world's order. */
  lemma TargetsUncapped(camera: Entity, nearby: seq<Entity>, golems: set<EntityType>, cfg: Config)
    requires forall i, j :: 0 <= i < j < |nearby| ==> nearby[i].id != nearby[j].id
    requires |Eligibles(nearby, golems, cfg)| < cfg.maxSteppingEntities
    ensures var r := Targets(camera, nearby, golems, cfg);
      && IsSubsequence(r, nearby)
      && (forall e :: e in r <==> e in nearby && Eligible(e, golems, cfg))
  {
  }

  /**
   * At or above the cap the targets come nearest first, include every eligible player and
   * the camera entity when it is eligible, and hold at most `maxSteppingEntities` other
   * entities, no two of which share a type and block position.
   */
  lemma TargetsCapped(camera: Entity, nearby: seq<Entity>, golems: set<EntityType>, cfg: Config)
    requires |Eligibles(nearby, golems, cfg)| >= cfg.maxSteppingEntities
    ensures var r := Targets(camera, nearby, golems, cfg);
      && SortedByDistance(r)
      && (forall e :: e in nearby && Eligible(e, golems, cfg) && IsSpecial(e, camera.id) ==> e in r)
      && DistinctOrdinaryKeys(r, camera.id)
      && |Ordinary(r, camera.id)| <= if cfg.maxSteppingEntities < 0 then 0 else cfg.maxSteppingEntities
  {
    var max := cfg.maxSteppingEntities;
    var sorted := SortByDistance(Eligibles(nearby, golems, cfg));
    CappedSorted(sorted, camera.id, max);
    CappedKeepsSpecial(sorted, camera.id, max);
    CappedDistinctKeys(sorted, camera.id, max);
    CappedBound(sorted, camera.id, max);
    forall e | e in nearby && Eligible(e, golems, cfg) && IsSpecial(e, camera.id)
      ensures e in Capped(sorted, camera.id, max)
    {
      assert e in multiset(sorted);
    }
  }
}
