# Withersweeper active phase — a Dafny model

Withersweeper is a Minesweeper minigame played on a grid of blocks. This project
models the running game (the "active phase") and its configuration:

- the configuration record, its getters, and the defaults filled in for
  `flag_stack`, `max_mistakes` (1) and `uncover_neighbors` (false);
- the tick counter (a Java `int` that wraps) and the whole seconds reported on completion
  (`timeElapsed / 20`, rounded toward zero as Java's `/` does);
- the mistake check, which closes the game once `mistakes >= maxMistakes`;
- the click handler: four guards (game started, main hand, block in layer y = 0,
  coordinate on the board), lazy mine placement at the clicked coordinate, the
  flag/uncover transition of the clicked field, and the mistake and completion
  checks after a successful move.

The board and field classes are not part of this model. The module `Minefield`
gives them the abstract behaviour the phase relies on. The board is a map from
in-bounds `(x, z)` to a field with a visibility (`Covered`, `Flagged`, `Uncovered`)
and a mine flag, plus a one-shot `placed` latch. Mine placement takes the
random source's pick as a parameter (`draw`) and never mines the clicked
coordinate. Uncovering sets one field to `Uncovered` and reports whether it held
a mine. Completion means every mine-free field is uncovered.

Closing the game world is modelled as a `closed` flag on the phase. The chat
announcements become `Event`s returned with each click.

Modules: `JavaInt` (the 32-bit `int` range and its wrap-around), `WithersweeperConfig`, `Minefield`,
`ActivePhase` (the phase state and its operations) and `PhaseProperties`
(lemmas relating several clicks, and the phase invariant).

## Model

| member | source | states |
|---|---|---|
| `JavaInt.Inc` | src/main/java/io/github/haykam821/withersweeper/game/phase/WithersweeperActivePhase.java:95 | `+= 1` on an `int` adds one below the maximum and wraps the maximum to the minimum |
| `WithersweeperConfig.New` | src/main/java/io/github/haykam821/withersweeper/game/WithersweeperConfig.java:28-54 | the constructor stores each argument, and every getter returns exactly the value passed in |
| `WithersweeperConfig.NewFromGetters` | src/main/java/io/github/haykam821/withersweeper/game/WithersweeperConfig.java:22-54 | a configuration holds no state beyond its five getters: rebuilding it from them gives it back |
| `WithersweeperConfig.Decode` | src/main/java/io/github/haykam821/withersweeper/game/WithersweeperConfig.java:12-20 | `board` and `players` are required and a missing one is named in the error; an absent `flag_stack` is a red banner, an absent `max_mistakes` is 1, an absent `uncover_neighbors` is false; a present key is taken as written |
| `WithersweeperConfig.Encode` | src/main/java/io/github/haykam821/withersweeper/game/WithersweeperConfig.java:14-18 | encoding reads every key through its getter and writes all five |
| `WithersweeperConfig.DecodeEncode` | src/main/java/io/github/haykam821/withersweeper/game/WithersweeperConfig.java:12-20 | decoding an encoded configuration gives the same configuration |
| `WithersweeperConfig.EncodeDecode` | src/main/java/io/github/haykam821/withersweeper/game/WithersweeperConfig.java:12-20 | for this model's encoder, which writes every key, a document with every key present survives decode then encode |
| `WithersweeperConfig.AbsentKeysMeanDefaults` | src/main/java/io/github/haykam821/withersweeper/game/WithersweeperConfig.java:17-18 | leaving out `max_mistakes` decodes exactly as writing 1, and leaving out `uncover_neighbors` exactly as writing false |
| `Minefield.ValidPosHasField` | src/main/java/io/github/haykam821/withersweeper/game/phase/WithersweeperActivePhase.java:197-201 | on a well-formed board a coordinate passes the bounds check exactly when the board has a field there, so the field lookup after the check succeeds |
| `Minefield.IsValidPos` | src/main/java/io/github/haykam821/withersweeper/game/phase/WithersweeperActivePhase.java:197 | the bounds check accepts a coordinate exactly when it is one of the grid's cells |
| `Minefield.NewBoard` | src/main/java/io/github/haykam821/withersweeper/game/phase/WithersweeperActivePhase.java:64 | a new board has one covered, mine-free field per coordinate and no mines placed |
| `Minefield.PlaceMines` | src/main/java/io/github/haykam821/withersweeper/game/phase/WithersweeperActivePhase.java:199 | placement sets the latch, is a no-op once the latch is set, never changes a visibility, and never mines the clicked coordinate |
| `Minefield.SetVisibility` | src/main/java/io/github/haykam821/withersweeper/game/phase/WithersweeperActivePhase.java:173-176 | setting a field's visibility changes that field's visibility only: other fields and all mines are untouched |
| `Minefield.Uncover` | src/main/java/io/github/haykam821/withersweeper/game/phase/WithersweeperActivePhase.java:182 | uncovering makes the field uncovered, keeps its mine, touches no other field, and reports whether it was a mine |
| `Minefield.HiddenOnlyMines` | src/main/java/io/github/haykam821/withersweeper/game/phase/WithersweeperActivePhase.java:209 | every mine-free field is uncovered exactly when every field still covered or flagged holds a mine |
| `Minefield.IsCompleted` | src/main/java/io/github/haykam821/withersweeper/game/phase/WithersweeperActivePhase.java:209 | the board counts as completed exactly when the fields still hidden are all mines, so flags play no part |
| `Minefield.UncoveredMinesKeptBySafeChange` | src/main/java/io/github/haykam821/withersweeper/game/phase/WithersweeperActivePhase.java:171-180 | a visibility change that neither reveals a mine nor hides a revealed one leaves the set of revealed mines unchanged |
| `Minefield.UncoveredMinesGrowByOne` | src/main/java/io/github/haykam821/withersweeper/game/phase/WithersweeperActivePhase.java:181-182 | uncovering a covered mine adds exactly one revealed mine |
| `Minefield.PlaceMinesRevealsNothing` | src/main/java/io/github/haykam821/withersweeper/game/phase/WithersweeperActivePhase.java:199 | placing mines on an all-covered board reveals no mine |
| `ActivePhase.NewPhase` | src/main/java/io/github/haykam821/withersweeper/game/phase/WithersweeperActivePhase.java:51-60 | a new phase keeps the given configuration and board, with zero ticks, zero mistakes, not started and not closed |
| `ActivePhase.NewPhaseInv` | src/main/java/io/github/haykam821/withersweeper/game/phase/WithersweeperActivePhase.java:51-64 | a new phase over a new board satisfies the phase invariant (mistakes equal revealed mines, nothing placed or uncovered) |
| `ActivePhase.Start` | src/main/java/io/github/haykam821/withersweeper/game/phase/WithersweeperActivePhase.java:144 | starting sets `started` and changes nothing else |
| `ActivePhase.Tick` | src/main/java/io/github/haykam821/withersweeper/game/phase/WithersweeperActivePhase.java:94-96 | a tick adds exactly one to `timeElapsed`, wrapping at the top of the `int` range, and changes nothing else |
| `ActivePhase.TicksAddUp` | src/main/java/io/github/haykam821/withersweeper/game/phase/WithersweeperActivePhase.java:94-96 | `n` ticks that stay inside the `int` range add exactly `n` and change nothing else |
| `ActivePhase.CompletionSeconds` | src/main/java/io/github/haykam821/withersweeper/game/phase/WithersweeperActivePhase.java:210 | the reported seconds are the whole number of 20-tick seconds in `timeElapsed`, rounded toward zero as Java's `/` does (a negative count gives a non-positive quotient no lower than the exact one) |
| `ActivePhase.SecondsAfterTicks` | src/main/java/io/github/haykam821/withersweeper/game/phase/WithersweeperActivePhase.java:94-96 | `n` ticks after a fresh start the reported seconds are `n / 20` |
| `ActivePhase.IsModifyingFlags` | src/main/java/io/github/haykam821/withersweeper/game/phase/WithersweeperActivePhase.java:149-151 | a click is a flag action exactly when hotbar slot 8 is selected |
| `ActivePhase.CheckMistakes` | src/main/java/io/github/haykam821/withersweeper/game/phase/WithersweeperActivePhase.java:108-117 | the game is closed and the mistake announcement made exactly when `mistakes >= maxMistakes`; otherwise nothing changes |
| `ActivePhase.ModifyField` | src/main/java/io/github/haykam821/withersweeper/game/phase/WithersweeperActivePhase.java:170-189 | in flag mode flagged becomes covered and covered becomes flagged (SUCCESS); otherwise covered is uncovered (SUCCESS, a mistake counted on a mine); an uncovered field, or a flagged one outside flag mode, gives PASS and no change; SUCCESS holds exactly when the field changed; no other field and no mine changes |
| `ActivePhase.PassesGuards` | src/main/java/io/github/haykam821/withersweeper/game/phase/WithersweeperActivePhase.java:192-197 | a click gets past the guards exactly when the game has started, the main hand was used, y is 0 and (x, z) is a grid cell; on a well-formed board such a cell has a field |
| `ActivePhase.UseBlock` | src/main/java/io/github/haykam821/withersweeper/game/phase/WithersweeperActivePhase.java:191-220 | a click that fails a guard passes with no change at all; one that passes sets the placement latch, takes its mines from placement at the clicked coordinate, and applies the flag/uncover table to the clicked field (flag mode: flagged to covered, covered to flagged, SUCCESS; otherwise covered to uncovered, SUCCESS; an uncovered field, or a flagged one outside flag mode, PASS), counting a mistake exactly when a covered mine is uncovered; only the clicked field's visibility can change and never out of uncovered; PASS makes no announcement and closes nothing; after SUCCESS the game is closed exactly when it was already closed, the mistake limit is reached or the board is completed, and the announcements are exactly the mistake one (if the limit is reached) followed by the completion one (if the board is completed) |
| `PhaseProperties.ModifyFieldKeepsMistakeCount` | src/main/java/io/github/haykam821/withersweeper/game/phase/WithersweeperActivePhase.java:170-189 | modifying a field keeps the mistake counter equal to the number of revealed mines |
| `PhaseProperties.UseBlockPreservesInv` | src/main/java/io/github/haykam821/withersweeper/game/phase/WithersweeperActivePhase.java:191-220 | every click keeps the phase invariant: one field per coordinate, an untouched board before placement, mistakes equal to revealed mines |
| `PhaseProperties.FirstUncoverIsSafe` | src/main/java/io/github/haykam821/withersweeper/game/phase/WithersweeperActivePhase.java:199-202 | the first uncovering click succeeds on a mine-free field and costs no mistake; this rests on mine placement never mining the clicked coordinate |
| `PhaseProperties.FlagClickPlacesMines` | src/main/java/io/github/haykam821/withersweeper/game/phase/WithersweeperActivePhase.java:199-202 | a first click in flag mode also places the mines, and flags the clicked field, which stays mine-free |
| `PhaseProperties.FlagToggleUndoes` | src/main/java/io/github/haykam821/withersweeper/game/phase/WithersweeperActivePhase.java:171-180 | two flag-mode modifications of a field that is not uncovered give back the original state |
| `PhaseProperties.DoubleFlagClickRestoresBoard` | src/main/java/io/github/haykam821/withersweeper/game/phase/WithersweeperActivePhase.java:191-220 | after placement, two flag-mode clicks on the same non-uncovered field both succeed and leave the board as it was |
| `PhaseProperties.FlagModeIsSlotEight` | src/main/java/io/github/haykam821/withersweeper/game/phase/WithersweeperActivePhase.java:149-151 | a covered field is flagged exactly when slot 8 is selected and uncovered exactly when it is not |
| `PhaseProperties.DefaultConfigEndsOnFirstMine` | src/main/java/io/github/haykam821/withersweeper/game/WithersweeperConfig.java:17 | with `max_mistakes` absent, the first revealed mine closes the game with the mistake announcement |
| `PhaseProperties.LastSafeFieldWins` | src/main/java/io/github/haykam821/withersweeper/game/phase/WithersweeperActivePhase.java:209-216 | uncovering the last mine-free covered field closes the game and announces the completion time in whole seconds |

## Left out

- World creation, the waiting lobby and game-rule registration (`open`, the rule setup in `requestStart`): host-framework plumbing. Only the `started` flag that `requestStart` sets is modelled (`ActivePhase.Start`).
- Sounds, chat text and mistake-text formatting: presentation only. Announcements are reduced to the `Event` values `MistakeLimitReached` and `BoardCompleted(seconds)`.
- `updateFlagCount`, `spawn`, `addPlayer`, `onPlayerDeath`, `offerPlayer` and `isFull`: player, inventory and teleport handling.
- `Board.build` and `buildMap`: rendering into the world; a click's board redraw has no effect on the model state.
- The internals of the board and field classes, which are not part of this model. Mine placement keeps only its latch, its exclusion of the clicked coordinate and the RNG's pick as the `draw` parameter. The number of mines drawn is not constrained.
- Minefield.Uncover: uncovers only the clicked field, and requires it to be covered, the only case the click handler uses; what it does on an already uncovered field is not modelled. The neighbour flood fill that `uncover_neighbors` switches on lives in the field class, which is not part of this model, so the configured value is decoded but not read by the phase.
- The random source: replaced by the `draw` parameter of `UseBlock`.
- PhaseProperties.FirstUncoverIsSafe: first-click safety rests on the assumption that mine placement never mines the clicked coordinate, since the placement code is not part of this model. Because placement touches only mines and the move touches only visibility, the order of the two steps is not observable in this model; the model keeps the source's order.
- The codec library and the flag item's appearance: the model keeps only the keys, which of them are required, and the defaults. `Encode` always writes every key; whether the library omits values equal to the default does not change what decoding gives back.
- ActivePhase.Phase: `mistakes` is an unbounded natural rather than a Java `int`. The invariant ties it to the number of revealed mines, which cannot exceed the number of fields.
- ActivePhase.UseBlock: requires a well-formed board (one field per in-bounds coordinate), the board's own construction guarantee; the bounds check then makes the field lookup total.
