# Block-mining toy and car radio, modelled in Dafny

This project models the two components of the front-end demo that hold logic rather than layout.

- **The block-mining toy** (`MinecraftGame.tsx`) keeps a 12 × 16 world of optional block types, an inventory of eight counted slots, a selected block, a cursor, health and hunger, a survival/creative mode and a craft-panel flag. Mining clears a cell and credits its slot. Placing writes the selected block, and in survival it costs one from that slot. The cursor moves with clamping. A survival timer wears hunger down and then health.
- **The car radio** (`CarRadio.tsx`) steps through a fixed table of five stations. It also has a play/pause flag and a volume.

Modules:

- `Wrappers` (`wrappers.dfy`): the `Option` type. It stands for the source's `null` and for a failed `find`.
- `CarRadio` (`car_radio.dfy`): the radio as a datatype. Each handler is a transition function, with lemmas about them.
- `MinecraftSpec` (`minecraft_spec.dfy`): the game's whole state as a value (`GameState`), one pure transition per handler, the invariant `WellFormed`, and the lemmas.
- `MinecraftGame` (`minecraft_game.dfy`): the component as a class `Game`. The world is an `array2<Block>` whose cells mine and place overwrite in place. The inventory is an `array<Slot>` whose counts they bump in place. Every instance method is proved to move the object's abstract state `State()` exactly as the matching `MinecraftSpec` transition does, and to keep `Valid()`. So the lemmas proved about the transitions hold for the object too. The four static helpers are proved against the spec functions directly:
  - `DrawBlock` equals `DrawCell`;
  - `FillRow` fills one row of `Generate`;
  - `CreditSlot` and `DebitSlot` leave the array equal to `Credit` and `Debit` of its old contents.

Modelling choices:

- `Math.random()` in world generation becomes a parameter `draws: nat -> bool`: an endless stream whose `k`-th entry says whether the `k`-th draw exceeded the threshold it was compared with. Rows 3–5 take one draw per cell. Rows 6–9 take a second draw only when the first one failed. So iron and diamond need a failed first draw and then a successful second one, as the source's `else if` chains are written. Rows 0–2 and 10–11 take no draw. Probabilities are not stated.
- Before the mount effect runs, the world is empty; the constructor allocates a 0 × 0 array. `GenerateWorld` then installs a fresh 12 × 16 array. Mine and place bounds-check against the array's own size, the way `world[y]?.[x]` does. So both are no-ops on the empty world too.
- The survival tick reads hunger as it was *before* the tick: health drops only on a tick that starts with hunger already 0. This is how the source behaves, because its effect re-subscribes on every hunger change and its closure holds the pre-tick value (`TicksClosedForm` states the resulting one-tick lag). A tick in creative mode changes nothing, because no interval runs there.
- The survival guard of `placeBlock` tests `count === 0`, not `<= 0`. The decrement happens only while the count is positive. Both are modelled exactly as written.
- JavaScript's `%` truncates toward zero. `CarRadio.JsRem` models it explicitly. On every reachable station index it agrees with Dafny's `%`.
- Cursor clamping uses the literals 15 and 11, not the world's size, as the source does.

## Model

| member | source | states |
|---|---|---|
| `CarRadio.Initial` | src/components/CarRadio.tsx:25-27 | the first render: station 0, volume 50, playing; its contract is `InitialValid` |
| `CarRadio.JsRem` | src/components/CarRadio.tsx:32-36 | JavaScript's `%` by the table length: strictly inside ±5, congruent to the dividend, and with the dividend's sign |
| `CarRadio.CurrentStation` | src/components/CarRadio.tsx:29 | for a valid index, `stations[currentStation]` is a table entry whose id is the index plus one |
| `CarRadio.NextStation` | src/components/CarRadio.tsx:31-33 | keeps the index in [0, 5), moves one on and wraps from the last station to the first, leaving volume and play state alone |
| `CarRadio.PrevStation` | src/components/CarRadio.tsx:35-37 | keeps the index in [0, 5), moves one back and wraps from the first station to the last, leaving volume and play state alone |
| `CarRadio.TogglePlay` | src/components/CarRadio.tsx:67 | flips the play flag and leaves station and volume unchanged |
| `CarRadio.SetVolume` | src/components/CarRadio.tsx:39-42 | sets the volume to exactly the given value and leaves station and play state unchanged |
| `CarRadio.PrevUndoesNext` | src/components/CarRadio.tsx:31-37 | from any valid index, back after forward returns the starting state |
| `CarRadio.NextUndoesPrev` | src/components/CarRadio.tsx:31-37 | from any valid index, forward after back returns the starting state |
| `CarRadio.TogglePlayInvolution` | src/components/CarRadio.tsx:67 | pressing play/pause twice returns the starting state |
| `CarRadio.SetVolumeLastWins` | src/components/CarRadio.tsx:39-40 | two volume changes leave the state the last one alone would |
| `CarRadio.NextTimesAdvances` | src/components/CarRadio.tsx:32 | `k` forward presses move the index to `(start + k) mod 5`, keep it valid and touch nothing else |
| `CarRadio.NextTimesWholeTurns` | src/components/CarRadio.tsx:32 | any multiple of five forward presses returns the starting state |
| `CarRadio.FullCycle` | src/components/CarRadio.tsx:12-33 | as many forward presses as the table has stations return the starting state |
| `CarRadio.RunKeepsStationDefined` | src/components/CarRadio.tsx:25-42 | after any sequence of presses and volume changes from a valid state, the index is valid and the station shown is a table entry |
| `CarRadio.Step` | src/components/CarRadio.tsx:60-86 | the four bound controls (back, play/pause, forward, slider) mapped to their handlers; what any sequence of them keeps is `RunKeepsStationDefined` |
| `CarRadio.InitialValid` | src/components/CarRadio.tsx:25-29 | the initial index 0 is valid and shows "Hit FM" |
| `MinecraftSpec.InitialInventory` | src/components/MinecraftGame.tsx:59-68 | eight slots, in the fixed order grass, dirt, stone, wood, coal, iron, gold, diamond, all at count 0 |
| `MinecraftSpec.Initial` | src/components/MinecraftGame.tsx:58-74 | the first-render state; its contract is `InitialWellFormed` |
| `MinecraftSpec.InitialWellFormed` | src/components/MinecraftGame.tsx:58-73 | the first-render state (empty world, cursor (5,5), vitals 20, survival, grass selected) satisfies the invariant |
| `MinecraftSpec.FindSlot` | src/components/MinecraftGame.tsx:144 | the lookup returns the first slot of the requested kind, or nothing exactly when no slot has that kind |
| `MinecraftSpec.SlotKindsDistinct` | src/components/MinecraftGame.tsx:59-68 | no two inventory slots share a block type |
| `MinecraftSpec.FindStockedSlot` | src/components/MinecraftGame.tsx:59-68 | in a well-formed inventory every stocked type has a slot, and it is the only slot of that type |
| `MinecraftSpec.FindSlotSeesKindsOnly` | src/components/MinecraftGame.tsx:129 | two inventories with the same kinds in the same order give the same lookup result, whatever their counts |
| `MinecraftSpec.Credit` | src/components/MinecraftGame.tsx:127-134 | the mine updater keeps the slots and their order and never lowers a count |
| `MinecraftSpec.CreditAt` | src/components/MinecraftGame.tsx:127-134 | the mine updater raises the found slot's count by one and changes nothing else |
| `MinecraftSpec.Debit` | src/components/MinecraftGame.tsx:153-160 | the place updater keeps the slots and their order, never raises a count and never drives a non-negative count below zero |
| `MinecraftSpec.DebitAt` | src/components/MinecraftGame.tsx:153-160 | with a positive count, the place updater lowers the found slot's count by one and changes nothing else |
| `MinecraftSpec.CreditThenDebit` | src/components/MinecraftGame.tsx:127-160 | taking back the block just credited restores the inventory exactly |
| `MinecraftSpec.SetKind` | src/components/MinecraftGame.tsx:124 | a cell write changes only the block type of the target cell, keeping its coordinates, and no other cell |
| `MinecraftSpec.SetKindRestores` | src/components/MinecraftGame.tsx:149 | writing a cell's old type back over any interim type restores the grid |
| `MinecraftSpec.Hungrier` | src/components/MinecraftGame.tsx:137 | the hunger updater never goes below 0; it takes one off a positive value and gives 0 otherwise |
| `MinecraftSpec.MineBlock` | src/components/MinecraftGame.tsx:118-139 | mining changes only world, inventory and hunger, keeps the number of rows, and leaves hunger alone in creative; its full behaviour is in `MineNoOp`, `MineEffect`, `MinePreserves`, `MineThenPlaceSurvival` and `MineThenPlaceCreative` |
| `MinecraftSpec.MineNoOp` | src/components/MinecraftGame.tsx:119-120 | mining leaves the whole state unchanged if and only if the target is off the grid or already empty |
| `MinecraftSpec.MineEffect` | src/components/MinecraftGame.tsx:122-138 | mining a cell of type T empties it, raises T's slot by exactly one in both modes, costs one hunger (floored at 0) only in survival, and leaves every other cell, slot and field unchanged |
| `MinecraftSpec.PlaceAllowed` | src/components/MinecraftGame.tsx:142-148 | the three guards `placeBlock` passes before writing; `PlaceNoOp` and `PlaceEffect` state what failing and passing them means |
| `MinecraftSpec.PlaceBlock` | src/components/MinecraftGame.tsx:141-163 | placing changes only world and inventory, changes nothing at all when the guard fails, and never touches the inventory in creative; its full behaviour is in `PlaceNoOp`, `PlaceEffect`, `PlacePreserves` and the two mine-then-place lemmas |
| `MinecraftSpec.PlaceNoOp` | src/components/MinecraftGame.tsx:142-148 | with nothing selected, or in survival with no stock of the selected type, or off the grid, placing changes nothing |
| `MinecraftSpec.PlaceEffect` | src/components/MinecraftGame.tsx:147-161 | a successful place sets the target, even if it was occupied, to the selected type; it lowers that slot by one in survival and leaves inventory alone in creative; counts stay non-negative and the eight slots keep their order; nothing else changes |
| `MinecraftSpec.MineThenPlaceSurvival` | src/components/MinecraftGame.tsx:118-163 | in survival, with type T selected, mining a T cell and placing back at it restores world and inventory exactly, at the cost of one hunger (floored at 0) |
| `MinecraftSpec.MineThenPlaceCreative` | src/components/MinecraftGame.tsx:118-163 | in creative the same pair restores the world and leaves the mined block in the inventory |
| `MinecraftSpec.MinePreserves` | src/components/MinecraftGame.tsx:118-139 | mining keeps the invariant: world shape and coordinates, every block type stocked, eight ordered non-negative slots, cursor on the grid, vitals in [0, 20] |
| `MinecraftSpec.PlacePreserves` | src/components/MinecraftGame.tsx:141-163 | placing keeps the same invariant |
| `MinecraftSpec.Clamp` | src/components/MinecraftGame.tsx:167-168 | the clamp lands in [0, hi], is the identity inside it, and gives the edge for values past either side |
| `MinecraftSpec.MovePlayer` | src/components/MinecraftGame.tsx:165-170 | for any delta the cursor ends in 0..15 × 0..11, each axis clamped on its own |
| `MinecraftSpec.MoveBack` | src/components/MinecraftGame.tsx:165-170 | a move that hits no edge is undone by the opposite move |
| `MinecraftSpec.VitalsTick` | src/components/MinecraftGame.tsx:106-116 | only vitals change and never upward; nothing changes in creative; in survival hunger drops exactly when positive, and health drops exactly when hunger was already 0 before the tick and health is positive; non-negative vitals stay non-negative |
| `MinecraftSpec.TicksClosedForm` | src/components/MinecraftGame.tsx:106-116 | after n survival ticks hunger is max(0, hunger − n) and health is max(0, health − max(0, n − hunger)), so health starts to fall one tick after hunger reaches 0 |
| `MinecraftSpec.ToggleMode` | src/components/MinecraftGame.tsx:197 | the mode badge switches between survival and creative and changes nothing else |
| `MinecraftSpec.SelectSlot` | src/components/MinecraftGame.tsx:272 | clicking a slot selects its block type, changes nothing else and keeps the invariant |
| `MinecraftSpec.ToggleCraft` | src/components/MinecraftGame.tsx:180 | the `c` key flips the craft-panel flag and changes nothing else |
| `MinecraftSpec.KeyAction` | src/components/MinecraftGame.tsx:173-181 | a key is ignored if and only if it is none of the eleven the handler tests; movement keys move one step on one axis |
| `MinecraftSpec.HandleKey` | src/components/MinecraftGame.tsx:173-181 | a key press never changes selection, health or mode, and keeps a cursor that starts on the grid on it; `UnrecognisedKeyIgnored` and `StepPreserves` state the rest |
| `MinecraftSpec.UnrecognisedKeyIgnored` | src/components/MinecraftGame.tsx:173-181 | any other key leaves the state unchanged |
| `MinecraftSpec.DrawCell` | src/components/MinecraftGame.tsx:81-97 | the cell if-chain over the draw stream; its contract is `DrawCellBand` and `DrawCellConsumes` |
| `MinecraftSpec.DrawCellConsumes` | src/components/MinecraftGame.tsx:83-97 | a cell takes no draw in rows 0–2 and 10–11 and one in rows 3–5; in rows 6–9 it takes one when the first ore test hits and two when it misses |
| `MinecraftSpec.DrawCellBand` | src/components/MinecraftGame.tsx:83-97 | a cell of row y gets a type of its depth band (0–2 grass; 3–5 dirt or stone; 6–7 coal, iron or stone; 8–9 gold, diamond or stone; 10–11 stone); that type has an inventory slot; a cell uses at most two draws |
| `MinecraftSpec.DrawsBeforeStep` | src/components/MinecraftGame.tsx:78-100 | drawing cell x of row y moves the random stream on to exactly where the next cell in row-major order starts |
| `MinecraftSpec.Generate` | src/components/MinecraftGame.tsx:77-103 | the generated world has 12 rows of 16 cells; every cell records its own column and row, holds a block, and is in its depth band |
| `MinecraftSpec.Start` | src/components/MinecraftGame.tsx:76-104 | the first-render state with the generated world installed; its contract is `StartWellFormed` |
| `MinecraftSpec.StartWellFormed` | src/components/MinecraftGame.tsx:76-104 | the state right after generation satisfies the invariant with a 12-row world |
| `MinecraftSpec.Step` | src/components/MinecraftGame.tsx:106-272 | each event bound in the component (timer, keydown, cell click and right-click, mode badge, slot click) mapped to its handler; its contract is `StepPreserves` and `RunPreserves` |
| `MinecraftSpec.StepPreserves` | src/components/MinecraftGame.tsx:106-197 | every event (key, click, right-click, slot click, mode badge, timer) keeps the invariant and never raises health or hunger |
| `MinecraftSpec.RunPreserves` | src/components/MinecraftGame.tsx:58-197 | over any session the cursor stays in range, counts stay non-negative, the slots keep their order, vitals stay in [0, 20], and neither vital ever rises |
| `MinecraftGame.Game.constructor` | src/components/MinecraftGame.tsx:58-74 | the new object holds the first-render state and satisfies its invariant |
| `MinecraftGame.Game.GenerateWorld` | src/components/MinecraftGame.tsx:77-103 | the nested loops install a fresh 12 × 16 world equal to the generated world and change nothing else |
| `MinecraftGame.Game.DrawBlock` | src/components/MinecraftGame.tsx:81-97 | the inner loop's if-chain picks the block and consumes draws exactly as the cell-draw function |
| `MinecraftGame.Game.FillRow` | src/components/MinecraftGame.tsx:79-100 | one row's inner loop fills that row with the generated cells, leaves other rows alone and advances the stream to the next row's start |
| `MinecraftGame.Game.CreditSlot` | src/components/MinecraftGame.tsx:127-134 | the in-place `item.count++` leaves the inventory array equal to the mine updater's result |
| `MinecraftGame.Game.DebitSlot` | src/components/MinecraftGame.tsx:153-160 | the in-place `invItem.count--` leaves the inventory array equal to the place updater's result |
| `MinecraftGame.Game.Mine` | src/components/MinecraftGame.tsx:118-139 | the in-place mine makes exactly the spec's mining transition and keeps the invariant |
| `MinecraftGame.Game.Place` | src/components/MinecraftGame.tsx:141-163 | the in-place place makes exactly the spec's placing transition and keeps the invariant |
| `MinecraftGame.Game.Move` | src/components/MinecraftGame.tsx:165-170 | the cursor becomes the clamped move and nothing else changes |
| `MinecraftGame.Game.Tick` | src/components/MinecraftGame.tsx:108-113 | one interval firing makes exactly the spec's tick, reading the hunger captured before the decrement |
| `MinecraftGame.Game.ToggleMode` | src/components/MinecraftGame.tsx:197 | the mode flips and the invariant holds |
| `MinecraftGame.Game.Select` | src/components/MinecraftGame.tsx:272 | the selected type becomes the clicked slot's type |
| `MinecraftGame.Game.ToggleCraft` | src/components/MinecraftGame.tsx:180 | the craft-panel flag flips |
| `MinecraftGame.Game.KeyDown` | src/components/MinecraftGame.tsx:173-181 | a key press makes exactly the spec's key transition, acting at the cursor |

## Left out

- Rendering, CSS and SVG: the grid, inventory, health and hunger bars and radio markup are presentation only. This covers the random equaliser bar heights of the radio and the whole of `CarDashboard.tsx`, `OnlinePlayers.tsx` and `Index.tsx`, which hold display maths, timers and randomness only.
- Timer scheduling (`setInterval`/`clearInterval`, the 5-second period): only the body of the survival interval is modelled, as an explicit tick step.
- Event listener registration is not modelled. The keydown handler is re-registered only when the cursor, selection, inventory or mode changes, and until then its closure holds an older `world`. Before the first such change after mount, that `world` is still the empty one, so Space and `e` do nothing there. The model applies every key to the current state; for example, `HandleKey(Start(d), " ")` mines the cell under the cursor, while the source's first Space press does nothing. After the first re-registration the two agree again. `mineBlock` and `placeBlock` copy only the outer array and write `newWorld[y][x]` into rows shared with the old array (lines 122-124 and 147-149). So every array `world` takes after mount holds the same twelve row objects, and even an older `world` reads the current cells.
- Probabilities of the world-generation draws: the draws are an abstract stream and nothing is said about their distribution.
- Craft recipes: they are display data only; no crafting operation exists in the source.
- The radio's `onVolumeChange` callback: it is a foreign callback and does not affect the radio's state.
- Numbers are unbounded integers. The source never reaches JavaScript's float limits or non-integer values on these paths: counts and vitals move by one, and cursor deltas are ±1.
- React's state batching and updater double invocation are not modelled; each handler is one atomic step.
