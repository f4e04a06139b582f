# BuildingEscape gameplay core in Dafny

A model of the frame-driven gameplay logic of the BuildingEscape Unreal project:

- the first-person character's table of objects being rotated (`ObjectsToRotate`): a press on the rotatable channel fills, re-arms or extends a slot, and every frame lerps every rotating slot toward its target and snaps it there within 0.4 degrees;
- the interact toggle: a press while idle probes for rotatable objects and then tries a physics grab, a press while holding releases;
- the pressure-plate door (`UOpenDoor`), opening while the opener stands on the plate and closing once the close delay has passed;
- the win volume (`UWinGameComponent`), a one-shot latch that fades the screen and sets the timer that loads the win level.

Engine queries become inputs: a line trace is its hit actor and component (`Option` ids, `None` for a null pointer) together with the hit actor's rotation and whether it carries an audio component; a trigger-volume overlap is a `bool`; the game clock is `now: real`. Engine effects become state: the physics handle's attachment is a field, collision responses set to Ignore are a set of components, and camera fades, timers and level loads are appended to an effect log. All float arithmetic is `real`, with `Lerp(a, b, t) = a + t*(b - a)` and `RoundToFloat(x) = floor(x + 0.5)`.

Modules:

- `Engine`: ids, `Option`, `Rotator`, `Abs`, `Lerp`, `RoundToFloat`;
- `RotationSlots`: the `FObjectToRotate` record, and `Probed` and `Advance`, the pure meaning of one probe and one rotation frame, with their lemmas;
- `Character`: class `DefaultCharacter`, whose `objectsToRotate` array is updated in place by the same loops the character runs, proved equal to `Probed` and `Advance`;
- `Door`: class `OpenDoor` and its per-frame function `TickDoor`;
- `WinGame`: class `WinGameComponent` and the latch function `RunLatch`.

Class invariant of the character (`Valid`): no actor occupies two slots, every rotating slot names an actor, and a held component ignores pawns. The model's table starts with a given number of default slots, every operation preserves the invariant, and the probe's nested search is what keeps actors unique. In the program as written the table always has zero slots: nothing ever adds to it, so every probe and every rotation frame does nothing there (see "## Findings").

## Model

| member | source | states |
|---|---|---|
| Engine.Lerp | Source/BuildingEscape/DefaultCharacter.cpp:245 | The distance left to `b` is exactly `1 - t` times the original distance. `t = 0` gives `a` and `t = 1` gives `b`. For `t` in [0,1] the result lies between `a` and `b`. |
| Engine.Abs | Source/BuildingEscape/DefaultCharacter.cpp:257 | The result is non-negative and equals `x` or `-x`. |
| Engine.RoundToFloat | Source/BuildingEscape/DefaultCharacter.cpp:222 | The result is a whole number within half a unit of `x`: `x - 0.5 < r <= x + 0.5`. |
| RotationSlots.DefaultObjectToRotate | Source/BuildingEscape/DefaultCharacter.h:35-42 | A default record is a free slot: null actor, not rotating, no audio, every number -1. |
| RotationSlots.FirstFree | Source/BuildingEscape/DefaultCharacter.cpp:204 | Returns the index of the first slot with a null actor that is not rotating, or `None` when no such slot exists. |
| RotationSlots.IndexOf | Source/BuildingEscape/DefaultCharacter.cpp:177-190 | Returns the index of the first slot holding the actor, or `None` when no slot holds it. |
| RotationSlots.Probed | Source/BuildingEscape/DefaultCharacter.cpp:163-164 | The length is kept. A miss changes nothing. Every changed slot holds the hit actor. |
| RotationSlots.NewEntry | Source/BuildingEscape/DefaultCharacter.cpp:207-213 | A fresh entry holds the hit actor and its audio presence, and is armed from the actor's rotation: original yaw is the current yaw, target is that yaw plus the increment, rotating. |
| RotationSlots.HasTurned | Source/BuildingEscape/DefaultCharacter.cpp:222 | The guard of the extend branch: the rounded recorded yaw differs from the rounded original yaw. A predicate without a contract; `ProbeExtendsRotating` states what it decides. |
| RotationSlots.Poked | Source/BuildingEscape/DefaultCharacter.cpp:192-226 | The hit actor's own entry keeps its actor and audio and ends up rotating. A finished entry is re-armed from the actor's rotation. A rotating one keeps its rotation and original yaw, and its target grows by the increment exactly when it has turned. |
| RotationSlots.ProbeSafe | Source/BuildingEscape/DefaultCharacter.cpp:229 | The inputs on which the source does not dereference a null audio component: every entry of the hit actor that would be extended has audio. A predicate without a contract, used as a precondition. |
| RotationSlots.EmptyTableIgnoresProbe | Source/BuildingEscape/DefaultCharacter.cpp:169 | With zero slots, which is the table the program has, a press changes nothing. |
| RotationSlots.FreshTableTakesNewActor | Source/BuildingEscape/DefaultCharacter.cpp:204-214 | In a table of `n > 0` default slots, a press on any actor puts a fresh armed entry for it in slot 0 and keeps the other slots. |
| RotationSlots.ProbedAt | Source/BuildingEscape/DefaultCharacter.cpp:169-233 | Slot by slot, for a table without duplicates: the hit actor's slot is poked; the first free slot takes a fresh entry when the actor is new; every other slot is kept. |
| RotationSlots.ProbeSlot | Source/BuildingEscape/DefaultCharacter.cpp:192-226 | The if / else-if chain decides slot `i` as `Probed` does, for every value the must-create flag can have at that point. |
| RotationSlots.PartialProbeHolds | Source/BuildingEscape/DefaultCharacter.cpp:173-190 | Part way through the pass, the search finds the hit actor exactly when it was in the table already or has just been put into the first free slot. |
| RotationSlots.PartialProbeComplete | Source/BuildingEscape/DefaultCharacter.cpp:201 | Once the hit actor's slot is settled, stopping the pass early already yields the whole result. |
| RotationSlots.ProbeOverwritesOnlyFreeSlot | Source/BuildingEscape/DefaultCharacter.cpp:204-214 | A slot's actor changes only if the slot was free, the new actor is the hit actor, and the hit actor was in no slot before. |
| RotationSlots.ProbeChangesAtMostOneSlot | Source/BuildingEscape/DefaultCharacter.cpp:169-233 | Two slots changed by one press are the same slot. |
| RotationSlots.ProbePreservesNoDuplicates | Source/BuildingEscape/DefaultCharacter.cpp:167-190 | If no actor occupies two slots before a press, none does after it. |
| RotationSlots.ProbeKeepsRotatingActors | Source/BuildingEscape/DefaultCharacter.cpp:248 | After a press every rotating slot still names an actor, so setting the actor's rotation never meets a null actor. |
| RotationSlots.ProbeArmsFromCurrentYaw | Source/BuildingEscape/DefaultCharacter.cpp:192-213 | A created or re-armed entry records the actor's current rotation. Its original yaw is that yaw and its target is that yaw plus the increment. It is rotating. |
| RotationSlots.ProbeExtendsRotating | Source/BuildingEscape/DefaultCharacter.cpp:221-226 | Re-probing a rotating entry whose rounded yaw differs from its rounded original yaw adds exactly the increment to its target and changes nothing else in the table. Otherwise the table is unchanged. |
| RotationSlots.ProbeFillsFirstFree | Source/BuildingEscape/DefaultCharacter.cpp:204-214 | A new actor, when some slot is free, goes into the first free slot as a fresh entry. Every other slot is unchanged. |
| RotationSlots.Advance | Source/BuildingEscape/DefaultCharacter.cpp:242-261 | A non-rotating slot is unchanged, and the actor, audio, original yaw and target never change. A slot that stops ends exactly on its target. One still rotating is at least 0.4 from its target. With a lerp factor in [0,1] the yaw stays between the old yaw and the target, and the distance never grows. |
| RotationSlots.AdvanceN | Source/BuildingEscape/DefaultCharacter.cpp:240-261 | `n` frames of `Advance` with a fixed frame time. A function without a contract; `SettledStaysSettled`, `SnapsWithin`, `RotationTerminates` and `QuarterTurnSettles` state its meaning. |
| RotationSlots.SettledStaysSettled | Source/BuildingEscape/DefaultCharacter.cpp:242 | Any number of frames leaves a non-rotating slot unchanged. |
| RotationSlots.Approaches | Source/BuildingEscape/DefaultCharacter.cpp:245 | Each frame that does not snap brings the slot at least `0.4 * alpha` closer to its target. |
| RotationSlots.StepWithin | Source/BuildingEscape/DefaultCharacter.cpp:245-257 | A frame that does not snap uses up one frame of the `0.4 * (1 + n * alpha)` distance bound. |
| RotationSlots.SnapsWithin | Source/BuildingEscape/DefaultCharacter.cpp:257-261 | A slot closer to its target than `0.4 * (1 + n * alpha)` stops within `n + 1` frames, exactly on its target, with the target unchanged. |
| RotationSlots.RotationTerminates | Source/BuildingEscape/DefaultCharacter.cpp:240-261 | With a fixed frame time whose lerp factor is in (0,1], every rotation eventually stops exactly on its target. |
| RotationSlots.QuarterTurnSettles | Source/BuildingEscape/DefaultCharacter.h:109 | A default 90-degree turn from yaw 0, with 16 ms frames, ends exactly on 90 within 8790 frames. |
| Character.AfterPress | Source/BuildingEscape/DefaultCharacter.cpp:100-133 | A press while holding always lets go. A press while idle holds exactly when the hit actor, the physics handle and the hit component all exist, and what it then holds is the hit component. |
| Character.GrabThenReleaseIsIdle | Source/BuildingEscape/DefaultCharacter.cpp:102-110 | A press that grabs, followed by any press, leaves the handle empty. |
| Character.ScanSoFar | Source/BuildingEscape/DefaultCharacter.cpp:177-184 | `PartialProbeHolds`, stated for the array the character stores. |
| Character.ScanComplete | Source/BuildingEscape/DefaultCharacter.cpp:201 | `PartialProbeComplete`, stated for the array the character stores. |
| Character.DefaultCharacter.constructor | Source/BuildingEscape/DefaultCharacter.h:109-115 | The table holds `slots` default slots; the program itself always has zero. The increment is 90 and the reach is 200. The handle exists and holds nothing. The invariant holds. |
| Character.DefaultCharacter.Interact | Source/BuildingEscape/DefaultCharacter.cpp:100-111 | While holding: releases, leaves the table and the grab probe untouched, and restores the pawn collision response. While idle: the table becomes `Probed` of the old table, then the grab happens as `AfterPress` says. The invariant is kept. |
| Character.DefaultCharacter.Grab | Source/BuildingEscape/DefaultCharacter.cpp:113-135 | Records the hit actor. Holds the hit component exactly as `AfterPress` says, making it ignore pawns when it does. |
| Character.DefaultCharacter.ReleaseGrabbed | Source/BuildingEscape/DefaultCharacter.cpp:137-141 | The handle is emptied and the released component no longer ignores pawns. |
| Character.DefaultCharacter.CheckForObjectsToRotate | Source/BuildingEscape/DefaultCharacter.cpp:150-235 | The nested loop with its flag and early returns leaves exactly `Probed` of the old table and keeps the invariant. |
| Character.DefaultCharacter.VisitSlot | Source/BuildingEscape/DefaultCharacter.cpp:172-233 | One iteration of the outer loop settles slot `i` as `Probed` has it, keeps the later slots untouched, and keeps the must-create flag set while the actor is new and no free slot has been passed. On an early return the whole table is final. |
| Character.DefaultCharacter.HoldsActor | Source/BuildingEscape/DefaultCharacter.cpp:177-184 | The search answers true exactly when some slot holds the actor. |
| Character.DefaultCharacter.Tick | Source/BuildingEscape/DefaultCharacter.cpp:39-50 | Every slot advances by one `Advance` frame. The invariant is kept. |
| Character.DefaultCharacter.RotateObjects | Source/BuildingEscape/DefaultCharacter.cpp:237-271 | Slot by slot, the array becomes `Advance` of its old value. No actor changes, no slot starts rotating, and the invariant is kept. |
| Door.TickDoor | Source/BuildingEscape/OpenDoor.cpp:42-58 | The initial yaw and open angle never change. With the plate set and the opener overlapping, the yaw lerps toward the open angle and the time is stamped. Otherwise the stamp is untouched, and nothing changes when the door is closed or the delay has not elapsed. Once the delay has elapsed the yaw lerps back toward the initial yaw. With factors in [0,1] each lerp stays between its ends and the yaw stays within the swing. |
| Door.RunDoor | Source/BuildingEscape/OpenDoor.cpp:42-58 | The door after a sequence of frames, one `TickDoor` each. A function without a contract; `RunStaysWithinSwing` and `NoPlateNeverOpens` state its meaning. |
| Door.RunStaysWithinSwing | Source/BuildingEscape/OpenDoor.cpp:30-76 | Over any sequence of frames whose factors are in [0,1], the yaw stays between the initial yaw and the open angle. |
| Door.NoPlateNeverOpens | Source/BuildingEscape/OpenDoor.cpp:46 | Without a pressure plate, no sequence of frames ever stamps an opening time. The yaw only moves back toward the initial yaw. |
| Door.OpenDoor.constructor | Source/BuildingEscape/OpenDoor.h:48-82 | The editor settings are as given, the last-opened stamp is 0, no opener is set, and the yaws and the rotation start at zero. |
| Door.OpenDoor.Default | Source/BuildingEscape/OpenDoor.h:67-82 | The header's defaults: no plate assigned, open angle 90, close delay 0.3 s, open speed 0.5, close speed 1.5, last-opened stamp 0, no opener, zero yaws and rotation. |
| Door.OpenDoor.BeginPlay | Source/BuildingEscape/OpenDoor.cpp:22-38 | The owner's rotation becomes the door rotation, and the initial and current yaw become its yaw. The open angle becomes absolute. The opener becomes the player pawn. The door is within its swing and in sync with its rotation. |
| Door.OpenDoor.TickComponent | Source/BuildingEscape/OpenDoor.cpp:42-58 | The door's pose becomes `TickDoor` of the old pose. On a frame that swings the door the rotation's yaw becomes the new yaw and pitch and roll are kept; on any other frame the rotation is unchanged. The settings and opener are kept, sync is kept, and, with factors in [0,1], the swing bound is kept. |
| Door.OpenDoor.OpenDoor | Source/BuildingEscape/OpenDoor.cpp:60-69 | The rotation's yaw becomes the lerp from the current yaw toward the open angle, and the current yaw follows it. |
| Door.OpenDoor.CloseDoor | Source/BuildingEscape/OpenDoor.cpp:71-80 | The rotation's yaw becomes the lerp from the current yaw toward the initial yaw, and the current yaw follows it. |
| WinGame.LatchStep | Source/BuildingEscape/WinGameComponent.cpp:59-61 | It fires exactly when armed and overlapping; firing leaves the latch spent, and any other frame keeps the armed flag. |
| WinGame.RunLatch | Source/BuildingEscape/WinGameComponent.cpp:59-63 | The effects issued over a sequence of frames. A function without a contract; its meaning rests on `FiresAtMostOnce`. |
| WinGame.FiresAtMostOnce | Source/BuildingEscape/WinGameComponent.cpp:59-63 | Over any sequence of frames, even with continuous overlap, the fade and timer are issued exactly once if the latch starts armed and some frame overlaps. Otherwise they are never issued. |
| WinGame.FadeCountAppend | Source/BuildingEscape/WinGameComponent.cpp:62 | Counting fades distributes over concatenated effect logs. |
| WinGame.WinGameComponent.constructor | Source/BuildingEscape/WinGameComponent.h:35 | The latch starts armed with an empty effect log. |
| WinGame.WinGameComponent.BeginPlay | Source/BuildingEscape/WinGameComponent.cpp:22-35 | The winner becomes the player pawn only when it was unset. |
| WinGame.WinGameComponent.TickComponent | Source/BuildingEscape/WinGameComponent.cpp:55-65 | Fires exactly when armed and overlapping. Firing disarms the latch and appends a 0-to-1 fade over 2 s and a one-shot 2 s timer. Any other frame changes nothing. The log holds one fade once the latch is spent and none while it is armed. |
| WinGame.WinGameComponent.LoadWinLevel | Source/BuildingEscape/WinGameComponent.cpp:67-70 | Appends an open of "WinScreenLevel", not absolute. |

## Left out

- Line traces, the player view point and `GetLineTraceEnd`: trace results are parameters.
- Physics-handle targeting in `Tick` (DefaultCharacter.cpp:44-47), bone names, and setting rotations on the grabbed component: the hold is the `grabbedComponent` field.
- `SetActorRotation` (DefaultCharacter.cpp:248, 260; OpenDoor.cpp:68, 79): the rotation is kept in the slot record and the door's `doorRotation` field.
- Audio: `Play`, `FadeOut` and `Stop` are not modelled. The 15-degree fade threshold is left out with them. Only whether a slot has an audio component is kept, because a missing one ends the probe early.
- Character.DefaultCharacter.CheckForObjectsToRotate: requires `ProbeSafe`, because DefaultCharacter.cpp:229 dereferences the audio component before testing it for null. An actor without audio that is pressed again mid-rotation, once it has turned, would crash the source.
- Character.DefaultCharacter.Interact: requires the physics handle to exist, because DefaultCharacter.cpp:102 dereferences it. Like `CheckForObjectsToRotate`, it also requires `ProbeSafe` when idle.
- `FObjectToRotate` in DefaultCharacter.h declares no `AudioComp` field, though the .cpp uses one. The model adds `hasAudio`, false by default.
- The .cpp adds `AmountToRotateActor`, which the header does not declare. It is taken to be the header's `AmountToRotateObject`, the `inc` parameter.
- Character.DefaultCharacter.constructor: in the program the slot count is always 0, because `ObjectsToRotate` (DefaultCharacter.h:77) starts empty and nothing calls `Add`, `SetNum` or `Init` on it. The `slots` parameter generalises this to a table of fixed size that the program never reaches; `EmptyTableIgnoresProbe` covers the table as written.
- The test `ObjectsToRotate.Num() != -1` (DefaultCharacter.cpp:242) is always true and is dropped.
- `VisitSlot` and `HoldsActor` are the body of the outer loop and its inner search, factored out of `CheckForObjectsToRotate`. They keep the source's branches and its `break`.
- An early return's effect on the loop is kept. With no duplicates it changes no slot, which `PartialProbeComplete` proves.
- IEEE float rounding and single precision: all arithmetic is `real`. Lerp overshoot for large frame times is excluded by range preconditions on the lerp factor where a bound is stated.
- Pitch and roll of rotators are carried along but never changed.
- The HUD, player movement and input bindings, and the Grabber component are not part of this model.
- OpenDoor members declared in OpenDoor.h:32-41 have no bodies in OpenDoor.cpp and are not part of this model:
  - the mass threshold;
  - the rotatable-actor checks;
  - material blending;
  - door sounds.
- `DoorOpenDelay`, `DoorLastClosed` and `bUsePressurePlate` are never used by the door logic.
- The missing-plate log in `OpenDoor::BeginPlay` and every `UE_LOG` are left out.
- WinGame.WinGameComponent.TickComponent: requires the trigger volume to be set, because WinGameComponent.cpp:59 dereferences it. A missing volume is only logged at :39-42.
- Clearing the flag before issuing the fade and timer is not modelled as an order: nothing can observe the flag between those calls, and the method states the resulting flag and log.
- The fade colour and the camera-manager lookup are not modelled. The timer's handle, and its call of `LoadWinLevel` after 2 s, are left to the caller: `LoadWinLevel` is a method of its own.
- The win-screen widget check and `FirstPlayerController` are not modelled.
- Fields of engine-created objects start zero-initialised, as the door constructor states.

## Findings

| source | as written | input that shows it | evidently intended | confidence | as-written member | corrected member |
|---|---|---|---|---|---|---|
| Source/BuildingEscape/DefaultCharacter.h:77 | `ObjectsToRotate` starts empty and no code adds to it, so the probe loop at DefaultCharacter.cpp:169 and the rotation loop at :240 never run | any press on a rotatable actor: `Probed([], Some(x), ...) == []` | the table has free slots, so a pressed actor starts rotating | medium, not executed | RotationSlots.EmptyTableIgnoresProbe | RotationSlots.FreshTableTakesNewActor |
