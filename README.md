# Presence Footsteps: engine session, target selection and delayed-acoustic options

A Dafny model of two pieces of the Presence Footsteps sound engine.

The first piece is the driver `SoundEngine`. It holds a session: the isolator, which keeps everything loaded from the resource packs, and the flag `hasConfigurations`, which says whether loading succeeded. `shutdown`, `reloadEverything` and `reload` replace that session. `isRunning` and `isEnabledFor` guard all sound generation. `getTargets` picks which nearby entities get footsteps in a frame. `onFrame` runs the step generators of those targets and then advances the delayed sounds. `onSoundRecieved` tells the host which vanilla player sounds to suppress. The model is split into two modules:
- `TargetSelection` (target_selection.dfy): an entity record, the eligibility test, the distance sort, and a specification of the capped selection with its lemmas.
- `Engine` (sound_engine.dfy): the `SoundEngine` class. Its `isolator` and `hasConfigurations` fields are reassigned by `Shutdown`, `ReloadEverything` and `Reload`. `GetTargets` is proved equal to `TargetSelection.Targets`. Its final stream filter is the loop `KeepNearestDistinct`, over a `set` of visited keys. `OnFrame` returns the ordered trace of what the frame does.

The second piece is `DelayedAcoustic` (module `Acoustics`, delayed_acoustic.dfy). Its constructor reads either one `delay` field or the `delay_min`/`delay_max` pair from the acoustic's definition. It exposes the two bounds as options under those two names. The `Period` it holds is a class whose `min` and `max` fields are changed in place. `getDelayRange` returns that `Period` itself: in the model it is the `const` field `delay`, handed out by reference and never replaced.

Modelling choices:
- The configuration (`PFConfig`) is read at each call, so it is a `Config` parameter of each operation. The entity selector is its function field `selector`.
- `MinecraftClient` is a `Client` parameter, holding the paused and singleplayer flags.
- The world query `getOtherEntities` is the sequence `nearby`: the entities in the box around the camera, in the world's order. The eligibility predicate is applied to it exactly.
- An entity is a record. Its `instanceof` tests and host queries are boolean fields. Its squared distance to the camera is an integer.
- The camera is identified by entity id, where the source compares references.
- The load itself is not modelled. Its success flag and the golem table it builds are parameters of `ReloadEverything` and `Reload`.
- `Isolator.load` is `Engine.Isolator.Load`, which records those two inputs. A new `Isolator` is assumed to start with an empty golem table.
- `Period` is not part of this model. Its behaviour is assumed: `set(d)` sets both bounds to `d`, `set(a, b)` sets `min := a` and `max := b`, and `new Period(0)` starts at 0.
- A sound registry entry is either a direct value or a reference by key. `getKeyOrValue().right()` is present only for a direct value, so `onSoundRecieved` returns false for a reference entry.
- `hasData` is the predicate `HasData()`, which reads the flag field. Its value after each session change is stated by `Shutdown`, `ReloadEverything` and `Reload`.
- A definition is a map from field names to Java `long` values (the newtype `Acoustics.Long`).
- The `NullPointerException` from reading a missing `delay_min` or `delay_max` is the `Failure(MissingField(key))` result. `delay_min` is read first, so it is the one reported when both are missing.

Two behaviours of the code worth noting:
- A target whose step throws during `onFrame` (in the cast to `StepSoundSource`, the generator lookup or the generator) does not just skip that entity. The crash report is rethrown, so the rest of the frame, including `think()`, does not run (SoundEngine.java:155-166).
- A failed load does not keep the previous session. `reloadEverything` shuts down first, so after a failed load the engine has a fresh isolator and no data (SoundEngine.java:198-201).

## Model

| member | source | states |
|---|---|---|
| `Engine.SoundEngine.constructor` | src/main/java/eu/ha3/presencefootsteps/sound/SoundEngine.java:49-59 | a new engine has a fresh isolator and no data |
| `Engine.SoundEngine.Shutdown` | src/main/java/eu/ha3/presencefootsteps/sound/SoundEngine.java:203-206 | the isolator is fresh and empty, `HasData()` is false, and the engine is not running for any client or configuration |
| `Engine.SoundEngine.ReloadEverything` | src/main/java/eu/ha3/presencefootsteps/sound/SoundEngine.java:198-201 | the load runs on a freshly reset isolator; afterwards `HasData()` is exactly the load's result |
| `Engine.Isolator.Load` | src/main/java/eu/ha3/presencefootsteps/sound/SoundEngine.java:200 | the load reports the host-supplied success flag and leaves the golem table it built in the isolator |
| `Engine.Isolator.constructor` | src/main/java/eu/ha3/presencefootsteps/sound/SoundEngine.java:204 | a new isolator has no golem types (an assumption) |
| `Engine.SoundEngine.Reload` | src/main/java/eu/ha3/presencefootsteps/sound/SoundEngine.java:95-101 | disabled acts as shutdown and enabled acts as reload-everything; running afterwards iff enabled, loaded, unpaused, and singleplayer or multiplayer-enabled |
| `Engine.SoundEngine.NoDataNoRunning` | src/main/java/eu/ha3/presencefootsteps/sound/SoundEngine.java:103-116 | `IsRunning` is the source's four-part conjunction with no contract of its own; without data it holds for no client and no configuration, and `IsEnabledFor` holds for no entity |
| `Engine.SoundEngine.IsEnabledFor` | src/main/java/eu/ha3/presencefootsteps/sound/SoundEngine.java:103-105 | enabled for an entity implies running; it holds iff running and the selector accepts the entity |
| `TargetSelection.Eligibles` | src/main/java/eu/ha3/presencefootsteps/sound/SoundEngine.java:119-133 | every result passes the eligibility test; every eligible nearby entity is in the result; the result keeps the world's order |
| `TargetSelection.SortByDistance` | src/main/java/eu/ha3/presencefootsteps/sound/SoundEngine.java:135-142 | the result is a permutation of the input, nearest first |
| `TargetSelection.SortStable` | src/main/java/eu/ha3/presencefootsteps/sound/SoundEngine.java:135-142 | the sort is stable: for every distance, the entities at that distance keep their input order |
| `Engine.SoundEngine.GetTargets` | src/main/java/eu/ha3/presencefootsteps/sound/SoundEngine.java:118-146 | the targets are exactly `Targets`: the eligible list below the cap, the capped selection of the distance-sorted list otherwise |
| `Engine.SoundEngine.KeepNearestDistinct` | src/main/java/eu/ha3/presencefootsteps/sound/SoundEngine.java:140-145 | the visited-set filter loop computes exactly `Capped`: camera and players always pass; another entity passes iff its (type, block) key is new and fewer than max keys have been seen before it |
| `TargetSelection.TargetsEligible` | src/main/java/eu/ha3/presencefootsteps/sound/SoundEngine.java:119-145 | every target passes the eligibility test and is one of the nearby entities, in both branches |
| `TargetSelection.TargetsUncapped` | src/main/java/eu/ha3/presencefootsteps/sound/SoundEngine.java:137-139 | when the world reports each entity once, below the cap the targets are exactly the eligible entities, in the world's order |
| `TargetSelection.TargetsCapped` | src/main/java/eu/ha3/presencefootsteps/sound/SoundEngine.java:140-145 | at or above the cap the targets are sorted by distance and contain every eligible player and the camera; the other kept entities have pairwise distinct keys, and there are at most max of them |
| `TargetSelection.CappedSorted` | src/main/java/eu/ha3/presencefootsteps/sound/SoundEngine.java:141-142 | filtering a distance-sorted list keeps it sorted |
| `TargetSelection.CappedKeepsSpecial` | src/main/java/eu/ha3/presencefootsteps/sound/SoundEngine.java:143-145 | the camera entity and every player survive the filter |
| `TargetSelection.CappedDistinctKeys` | src/main/java/eu/ha3/presencefootsteps/sound/SoundEngine.java:144-145 | no two kept entities other than the camera and players share a type and block position |
| `TargetSelection.CappedBound` | src/main/java/eu/ha3/presencefootsteps/sound/SoundEngine.java:145 | at most max entities other than the camera and players are kept (none when max is negative) |
| `Engine.SoundEngine.OnFrame` | src/main/java/eu/ha3/presencefootsteps/sound/SoundEngine.java:148-172 | when not running, nothing happens; when running, each target's generator runs in order, then `Think` occurs exactly once, last; a target whose step throws (cast, lookup or generator) ends the frame with a crash for the first such target, with no later generation and no `Think` |
| `Engine.GenerationsOf` | src/main/java/eu/ha3/presencefootsteps/sound/SoundEngine.java:150-154 | the generation events of the targets never include `Think` |
| `Engine.GenerationsCover` | src/main/java/eu/ha3/presencefootsteps/sound/SoundEngine.java:150-154 | every target with a step generator has its generation event, and every event belongs to such a target |
| `Engine.GenerateAll` | src/main/java/eu/ha3/presencefootsteps/sound/SoundEngine.java:150-168 | completes iff no target's step throws, with one generation event per target that has a generator, in order; otherwise crashes for the first throwing target, with or without a generator, with only the events before it |
| `Engine.SoundEngine.OnSoundReceived` | src/main/java/eu/ha3/presencefootsteps/sound/SoundEngine.java:174-181 | false for a null event or when not running; otherwise true iff the entry is a direct value among swim, splash, big fall and small fall |
| `Acoustics.ParseDelay` | src/main/java/eu/ha3/presencefootsteps/sound/acoustics/DelayedAcoustic.java:16-20 | `delay` sets both bounds and wins; without it, success iff both `delay_min` and `delay_max` are present; their values become the bounds; a failure names a missing bound field, and `delay_min` when both are missing |
| `Acoustics.SingleDelayOverridesPair` | src/main/java/eu/ha3/presencefootsteps/sound/acoustics/DelayedAcoustic.java:16-17 | when `delay` is present, adding, changing or removing `delay_min`/`delay_max` does not change the parsed range |
| `Acoustics.OptionsOf` | src/main/java/eu/ha3/presencefootsteps/sound/acoustics/DelayedAcoustic.java:28-36 | the options of a range are keyed by exactly the two bound names |
| `Acoustics.OptionsRoundTrip` | src/main/java/eu/ha3/presencefootsteps/sound/acoustics/DelayedAcoustic.java:19 | reading a range's options back with the pair form reproduces the range |
| `Acoustics.Period.constructor` | src/main/java/eu/ha3/presencefootsteps/sound/acoustics/DelayedAcoustic.java:10 | a new period has both bounds equal to the given value (assumed) |
| `Acoustics.Period.Set` | src/main/java/eu/ha3/presencefootsteps/sound/acoustics/DelayedAcoustic.java:17 | one value sets both bounds (assumed) |
| `Acoustics.Period.SetRange` | src/main/java/eu/ha3/presencefootsteps/sound/acoustics/DelayedAcoustic.java:19 | two values set the lower and the upper bound (assumed) |
| `Acoustics.DelayedAcoustic.constructor` | src/main/java/eu/ha3/presencefootsteps/sound/acoustics/DelayedAcoustic.java:10 | the delay period is a fresh object starting at 0 |
| `Acoustics.DelayedAcoustic.FromJson` | src/main/java/eu/ha3/presencefootsteps/sound/acoustics/DelayedAcoustic.java:12-21 | construction succeeds iff `ParseDelay` does, with the same error on failure; on success the period holds the parsed range, and `Get("delay_min")`/`Get("delay_max")` return the pair's values when `delay` is absent |
| `Acoustics.DelayedAcoustic.ContainsKey` | src/main/java/eu/ha3/presencefootsteps/sound/acoustics/DelayedAcoustic.java:28-30 | true iff the name is `delay_min` or `delay_max`; `delay` is not an option |
| `Acoustics.DelayedAcoustic.Get` | src/main/java/eu/ha3/presencefootsteps/sound/acoustics/DelayedAcoustic.java:34-36 | there is a value iff `ContainsKey`; it is the bound that name denotes; for any other name there is none |
| `Acoustics.DelayedAcoustic.WithOption` | src/main/java/eu/ha3/presencefootsteps/sound/acoustics/DelayedAcoustic.java:39-47 | returns the same object; the named bound becomes the value and the other is unchanged; afterwards `Get` gives the value for that name and the old answer for every other name; an unknown name changes nothing |

## Left out

- `getVolumeForSource` (SoundEngine.java:61-81) is not modelled: it is floating-point arithmetic over `PlayerUtil` and the motion tracker's speed ratio, which are not part of this model.
- The asynchronous resource-reload listener (`reload(Synchronizer, …)`, lines 188-196) and `getFabricId` are not modelled: they are executor, profiler and identifier plumbing around `reloadEverything`.
- `getIsolator`, `getSolver` and `getConfig` are plain accessors; the solver and the immediate sound player are not modelled.
- The crash report built in `onFrame` (lines 156-165) is reduced to `Crashed(culprit)`: only the fact that the error is rethrown and ends the frame is modelled.
- What a step generator and `acoustics().think()` do is not modelled. They appear as the trace events `Generate(id)` and `Think`. Whether an entity's step throws (the cast, the generator lookup or the generator) is the host-supplied set `failing`.
- `Isolator.load` is not modelled; its result is an input. Isolator state other than the golem table (acoustics, locomotions, the pending delayed sounds) is not modelled. A shutdown drops it all by replacing the isolator.
- Squared distances are integers; the source compares `double` values.
- `Objects.hash(type, blockPos)` is replaced by the exact pair. Two different pairs with the same hash, which the source would treat as one key, are not modelled.
- The bounding box of the world query (the camera's box expanded by 16 blocks) is not modelled: `nearby` is whatever the world returns for it.
- The `SoundCategory` argument of `onSoundRecieved` is unused by the source and is left out.
- The `VaryingAcoustic` superclass (volume and pitch options, inner acoustic), `AcousticsJsonParser` and the playing of the delayed acoustic are not modelled. Neither is `outputOptions = this`, beyond the acoustic exposing its own options.
- JSON values are already longs. `getAsLong` on a non-numeric or out-of-range value, and the `ClassCastException` of `withOption` with a value that is not a `Long`, are not modelled.
