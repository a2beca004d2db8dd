# cli-tamagotchi: the pet's state engine and its tick

This project models the core of a terminal virtual pet. The pet is a `Tamagotchi`. It holds three
`i8` attributes (`hunger`, `health`, `poisoning`), a `u8` status byte and an 8x8 face buffer. In
the status byte, bit 7 is dead, bit 6 is sick (health low), bit 5 is hungry and bit 4 is poisoned
(the "unpoison" level is low). The model also covers one pass of the main loop. That pass applies
the passive decay, then one update per character of the line typed in that tick, then the death
check that ends the loop.

Files:

- `tamagotchi.dfy`, module `Tamagotchi`. It holds the status masks and the pure specification of
  one update. `Raw` applies the deltas. `Checked` runs the three checks and clamps. `DeathRule` is
  `update_death`, and `Step` composes them. `DrawnCell` gives the buffer after `draw`. `Inv` is the
  engine's invariant. The class `Tamagotchi` has the source's fields: `display` is an
  `array2<nat>`, the attributes are `I8` and `state` is a `bv8` with the source's exact masks. Its
  methods `Update`, `ApplyDeltas`, `CheckAttributes`, `AddPoison`, `UpdateDeath` and `Draw` (with
  one method per face region: `DrawEyes`, `DrawMouth`, `DrawTongue`) change those fields in
  place. Each one is proved to match its specification function.
- `main.dfy`, module `TickLoop`. It holds the character commands, the CR/LF stripping
  (`Sanitize`), the list of updates one tick issues (`TickUpdates`) and their left-to-right fold
  (`Run`), and `Painting`, which gives what one buffer cell holds after a sequence of updates. The method `Tick` applies the decay, and `RunCommands` loops over the line's
  characters, calling `Update` on the shared engine for each one. There are also lemmas about
  sequences of updates.

Where the code differs from what one might expect, the model follows the code:

- An attribute at or below 0 sets only the dead bit. No separate "critical" flag exists, and that
  attribute's low bit keeps its old value (`Classify`, `StepClassifies`).
- `new()` leaves the buffer all zeros. The face appears only after the first `draw()`, which main
  runs right after construction (`Hatch`).
- `draw` does not rewrite its regions in full. With the mouth closed, `display[5][2..5]` keeps
  whatever an earlier hungry face left there (`ClosedMouthKeepsRowFive`). The tongue also
  overwrites two mouth cells (`TongueOverMouth`).
- Pure decay does not wait for an attribute to reach 0. The sixth idle tick leaves hunger and
  health at 4, and the two-low-flags rule kills the pet then (`IdleLife`).

## Model

| member | source | states |
|---|---|---|
| `Tamagotchi.Clamp` | src/tamagotchi.rs:43-47 | the result lies in [lo, hi] and is the point of that range nearest to the input |
| `Tamagotchi.SatAdd` | src/tamagotchi.rs:28-33 | `i8` saturating addition: the exact sum when it fits in `i8`, else 127 or -128 |
| `Tamagotchi.Bound` | src/tamagotchi.rs:43-47 | an attribute's clamp: result in [0, 10], unchanged when already in range, nearest point of [0, 10] |
| `Tamagotchi.Classify` | src/tamagotchi.rs:36-42 | one attribute check: dead is set iff it was set or the value is at most 0; the low bit is set iff the value is in 1..4, or keeps its old value when the value is at most 0; the other two low bits and a clear low nibble are untouched |
| `Tamagotchi.DeathRule` | src/tamagotchi.rs:81-89 | dead after the rule iff dead before or at least two of sick, hungry and poisoned are set; no other bit changes |
| `Tamagotchi.NewbornInv` | src/tamagotchi.rs:14-21 | the new pet (10, 10, 10, status 0) satisfies the invariant, is alive and has no low flag |
| `Tamagotchi.StepOnDead` | src/tamagotchi.rs:23-26 | an update on a dead pet changes neither attributes nor status |
| `Tamagotchi.StepKeepsDead` | src/tamagotchi.rs:23-89 | the dead bit is never cleared by an update |
| `Tamagotchi.StepKeepsInv` | src/tamagotchi.rs:23-89 | every update keeps the invariant: attributes in [0, 10], low nibble clear, and a live pet has attributes in [1, 10], at most one low flag, and each low flag set iff its attribute is below 5 |
| `Tamagotchi.StepDeltas` | src/tamagotchi.rs:28-33 | the deltas are added with `i8` saturation, and a positive health delta takes 3 off poisoning before the poison delta; from attributes in [0, 10], hunger and health can saturate only at 127 and the healing never saturates; the status is untouched |
| `Tamagotchi.StepClassifies` | src/tamagotchi.rs:35-75 | per attribute, on its pre-clamp value: at most 0 sets dead and leaves the low bit as it was, 1..4 sets the low bit, 5 or more clears it |
| `Tamagotchi.StepClamps` | src/tamagotchi.rs:43-75 | after an update that runs, each attribute is its pre-clamp value clamped into [0, 10] |
| `Tamagotchi.StepDeath` | src/tamagotchi.rs:35-89 | a live pet dies in an update iff some pre-clamp value is at most 0 or at least two low flags are set afterwards |
| `Tamagotchi.NeutralUpdate` | src/tamagotchi.rs:23-79 | `update(0, 0, 0)` on a new pet leaves it at (10, 10, 10), status 0 |
| `Tamagotchi.CureNewborn` | src/tamagotchi.rs:30-33 | `update(0, 7, 0)` on a new pet gives (10, 10, 7) and leaves it alive with no flag |
| `Tamagotchi.DrawOnlyPaints` | src/tamagotchi.rs:95-151 | `draw` leaves every cell outside rows 2, 3, 5, 6 and 7 and outside the listed columns unchanged |
| `Tamagotchi.DrawReadsLowFlags` | src/tamagotchi.rs:99-140 | what `draw` writes depends only on bits 6, 5 and 4 of the status |
| `Tamagotchi.DrawIdempotent` | src/tamagotchi.rs:95-151 | drawing twice gives the same buffer as drawing once |
| `Tamagotchi.TongueOverMouth` | src/tamagotchi.rs:128-143 | when poisoned, cells [6][3] and [6][4] end at 1 even where the hungry mouth wrote 0 |
| `Tamagotchi.ClosedMouthKeepsRowFive` | src/tamagotchi.rs:131-137 | with the mouth closed, cells [5][2..5] keep their previous value |
| `Tamagotchi.DrawBinary` | src/tamagotchi.rs:95-151 | drawing keeps every cell of a 0/1 buffer in {0, 1} |
| `Tamagotchi.HealthyFace` | src/tamagotchi.rs:178-188 | on a blank buffer with no low flag, `draw` sets exactly the cells of the face in the diagram |
| `Tamagotchi.Tamagotchi.constructor` | src/tamagotchi.rs:14-21 | attributes 10, 10, 10, status 0, a fresh 8x8 buffer of zeros, and the invariant holds |
| `Tamagotchi.Tamagotchi.IsDead` | src/tamagotchi.rs:153-155 | true iff the dead bit is set; when true, every update leaves the pet as it is; when false (under the invariant), every attribute is at least 1 |
| `Tamagotchi.Tamagotchi.AddPoison` | src/tamagotchi.rs:91-93 | poisoning becomes its saturating sum with -3; no other field changes |
| `Tamagotchi.Tamagotchi.UpdateDeath` | src/tamagotchi.rs:81-89 | the status becomes `DeathRule` of the old status; no other field changes |
| `Tamagotchi.Tamagotchi.Draw` | src/tamagotchi.rs:95-151 | every cell becomes `DrawnCell` of the status and its old value (eyes, then mouth, then tongue); attributes and status do not change |
| `Tamagotchi.Tamagotchi.DrawEyes` | src/tamagotchi.rs:99-120 | every cell becomes `EyesCell` of the status and its old value: the eye cells of rows 2 and 3, with row 2 off when sick |
| `Tamagotchi.Tamagotchi.DrawMouth` | src/tamagotchi.rs:122-138 | every cell becomes `MouthCell` of the status and its old value: row 5 columns 1..6 on and row 6 columns 2..5 off when hungry, else row 5 columns 1 and 6 and row 6 columns 2..5 on |
| `Tamagotchi.Tamagotchi.DrawTongue` | src/tamagotchi.rs:140-150 | every cell becomes `TongueCell` of the status and its old value: cells [6][3], [6][4], [7][3], [7][4] on when poisoned, else [7][3] and [7][4] off |
| `Tamagotchi.Tamagotchi.ApplyDeltas` | src/tamagotchi.rs:28-33 | the attributes become the pre-check values `Raw` of the old ones; status and buffer do not change |
| `Tamagotchi.Tamagotchi.CheckAttributes` | src/tamagotchi.rs:35-75 | attributes and status become `Checked` of the old ones: three checks in order, each followed by its clamp |
| `Tamagotchi.Tamagotchi.Update` | src/tamagotchi.rs:23-79 | the new attributes and status are `Step` of the old ones; a dead pet's buffer is unchanged; a live pet's buffer is redrawn from the new status; the invariant is kept and the buffer shows the flags afterwards |
| `TickLoop.Command` | src/main.rs:28-41 | `'f'` asks for (5, 0, 0), `'c'` for (0, 7, 0), any other character for (0, 0, 0); the poison delta is always 0 |
| `TickLoop.RemoveChar` | src/main.rs:24 | the result has no occurrence of the character and otherwise the same characters with the same counts |
| `TickLoop.RemoveCharAppend` | src/main.rs:24 | removal distributes over concatenation, so the other characters keep their order |
| `TickLoop.RemoveCharAbsent` | src/main.rs:24 | a string without the character is returned unchanged |
| `TickLoop.Sanitize` | src/main.rs:24 | the sanitised line holds no LF and no CR, and otherwise the same characters with the same counts |
| `TickLoop.SanitizeClean` | src/main.rs:24 | a line without CR or LF passes through sanitising unchanged |
| `TickLoop.TickUpdates` | src/main.rs:19-44 | a tick issues the decay `(-1, -1, 2)` first; with no line that is all; with a line, one command update per sanitised character, in order, each with poison delta 0 |
| `TickLoop.RunKeepsInv` | src/main.rs:16-53 | every sequence of updates keeps the engine's invariant |
| `TickLoop.RunOnDead` | src/tamagotchi.rs:23-26 | a dead pet is unchanged by any sequence of updates |
| `TickLoop.DeathIsFinal` | src/tamagotchi.rs:24-26 | once a prefix of the updates has killed the pet, the whole sequence leaves it dead |
| `TickLoop.TickOnDead` | src/main.rs:48-50 | after the loop stops on a dead pet, no further tick could change it |
| `TickLoop.Commands` | src/main.rs:27-42 | one update per character of the sanitised line, in order, each the character's command |
| `TickLoop.TicksUpdates` | src/main.rs:16-53 | a run of ticks issues at least one update per tick, and the first is the decay |
| `TickLoop.RunTicks` | src/main.rs:16-53 | running the updates of several ticks is running the ticks one after another |
| `TickLoop.IdleTicksAreDecay` | src/main.rs:16-44 | n ticks with no line waiting issue exactly n decay updates and nothing else |
| `TickLoop.IdleDecay` | src/main.rs:19 | from a new pet, n <= 5 decay updates leave (10-n, 10-n, 10) with no flag; from the sixth on the pet is dead at (4, 4, 10), sick and hungry |
| `TickLoop.IdleLife` | src/main.rs:16-50 | from a new pet, idle tick n <= 5 leaves (10-n, 10-n, 10) with no flag; from tick 6 on the pet is dead at (4, 4, 10), sick and hungry |
| `TickLoop.FirstIdleTick` | src/main.rs:19-44 | the first tick of a new pet with no line waiting leaves (9, 9, 10) and no flag |
| `TickLoop.Hatch` | src/main.rs:12-14 | a new pet after its first `draw`: the invariant holds, its vitals are the newborn's, and the buffer holds the healthy face |
| `TickLoop.PaintingKeepsBackground` | src/tamagotchi.rs:95-151 | through any sequence of updates, a cell outside the face keeps its value |
| `TickLoop.PaintingOnDead` | src/tamagotchi.rs:23-26 | a dead pet's buffer is never drawn on again |
| `TickLoop.PaintingShowsFace` | src/tamagotchi.rs:23-79 | after any sequence that finds a live pet, the buffer shows the final flags: one more `draw` would change no cell |
| `TickLoop.PaintingAppend` | src/main.rs:19-42 | painting through the decay and then the commands is painting through their concatenation |
| `TickLoop.RunCommands` | src/main.rs:27-42 | the vitals become the fold of the line's command updates, one per character in order; every cell becomes its `Painting` through those updates; a dead pet and its buffer are untouched; a buffer showing the flags keeps showing them |
| `TickLoop.RunAppend` | src/main.rs:19-42 | running the decay and then the command updates is running their concatenation |
| `TickLoop.Tick` | src/main.rs:19-50 | the new vitals are the fold of the tick's updates over the old ones; every cell becomes its `Painting` through those updates, so cells outside the face keep their value; a dead pet and its buffer are untouched; the buffer keeps showing the flags; the loop stops iff the pet is dead after the tick |

## Left out

- `print` (src/tamagotchi.rs:157-176) and every `println!` in `main`: formatting to standard output only.
- `spawn_stdin_channel` (src/main.rs:56-64): a reader thread and an mpsc channel. The model receives the line of a tick as an `Option<string>` parameter of `Tick`.
- The `TryRecvError::Disconnected` panic (src/main.rs:45): a process abort when input closes, not engine logic.
- `sleep` and the 5000 ms wait (src/main.rs:51, 66-69), and the `u128` frame counter (src/main.rs:13, 52): timing and cosmetics only.
- The derived `Debug`, `Clone` and `Default` impls. `Default` shows up only as the zero buffer and zero status of the constructor.
- The unbounded `loop` itself: `Tick` models one pass and returns whether the loop breaks. Running ticks in sequence is modelled by `Run` over their updates.
