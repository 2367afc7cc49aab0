# Balancerio lever: a verified model of the balance engine

Balancerio is a lever puzzle. A beam rests on a fulcrum at position 0, with cells
at the integer positions either side of it and pieces stacked in those cells. Each
level pins one or more static objects to the beam. The player drags pieces from a
small inventory into the cells the level leaves open, until the moment on the left
(weight times distance, summed over the negative positions) equals the moment on the
right. The whole engine and session state live in one React component,
`src/src/App.jsx`. This project models its non-visual part:

- **the five levels** (`Levels`);
- **the keys under which pieces are counted** (`Pieces`);
- **the moment calculation** (`Balance`). Its loop runs over the board's cells and is proved against a specification function `BalanceOf`, a sum over the board. That sum is defined in `Sums`.
- **the beam tilt and the balance indicator** (`Display`);
- **the pure board and usage operations, with the invariants they keep** (`Placement`);
- **the game session** itself, `Game.Session`. This class holds the component's state: `currentLevel`, `cells`, `inventoryUsed` and `solved`. Its methods are `initLevel`, `addToCell`, `removeFromCell`, the solved check, `getRotation`, `getBalanceState`, `nextLevel`, `resetLevel` and restart.

`Play` holds client walk-throughs. Its methods each drive a `Session` through a level
and prove the outcome that the level is designed to produce. Two of its lemmas are
about pure boards: `OneDrop` gives the moments of any one-static-object board after one
drop on the left, and `FirstLevelDrop` applies it to the first level.

The session invariant `Valid()` has three parts:

- the level index is in range;
- the board matches the level's layout: no empty cell; each cell is open to the player or holds the level's static object; each static object is first in its cell; no other piece is static;
- the usage counter equals, for every key, the number of player pieces with that key on the board, and never exceeds an inventory entry's count.

Every state-changing method keeps `Valid()`. Two consequences follow:

- the usage never exceeds the count;
- the floor at 0 in `removeFromCell`'s decrement never fires.

All weights in the game are whole numbers, so the moment difference is an integer.
The model keeps it exact. `|difference| < 0.01` becomes `100 * |d| < 1` (that is,
`d == 0`). The tilt is kept in half-degrees: `3 * d` clamped to ±24 is exactly
`1.5 * d` clamped to ±12 degrees.

## Model

| member | source | states |
|---|---|---|
| Pieces.Instantiate | src/src/App.jsx:188 | a dropped copy of an inventory item is non-static, keeps the item's weight, shape and size, and is counted under the item's own key |
| Pieces.ItemKey | src/src/App.jsx:179 | an item with an id is counted under that id, and no key is ever empty |
| Pieces.FallbackKeyInjective | src/src/App.jsx:179 | without an id, the `type_size` key names the (type, size) pair: two id-less kinds share a key exactly when their type and size agree |
| Pieces.Pin | src/src/App.jsx:120 | a level's static object becomes a static piece with the object's weight, shape and size |
| Levels.AllLevels | src/src/App.jsx:3-70 | there are five levels; in each, position 0 is not open to the player, no static object sits on 0, and no two inventory entries share a key |
| Levels.FindTemplate | src/src/App.jsx:181 | the lookup finds nothing exactly when no entry has the key; otherwise it returns the first entry with that key |
| Levels.FindOwnKey | src/src/App.jsx:181 | with distinct keys, looking up an entry's own key returns that entry |
| Balance.CellWeight | src/src/App.jsx:141 | definition: the sum of the weights of a cell's pieces, folded from the left |
| Balance.HasUser | src/src/App.jsx:143 | definition: some piece of the cell is not static |
| Balance.CellWeightConcat | src/src/App.jsx:141 | a cell's total weight is additive over splitting the cell's pieces |
| Balance.BalanceOf | src/src/App.jsx:139-148 | difference is left minus right, and hasUserPieces holds exactly when some cell holds a non-static piece |
| Balance.CalculateMoment | src/src/App.jsx:133-149 | no board gives all zeros and no user pieces; otherwise the loop's result equals the per-cell sums of weight times distance, split at the fulcrum |
| Balance.EmptyBoardBalance | src/src/App.jsx:135-148 | a board with no cells has zero moments and no user pieces |
| Balance.FulcrumIgnored | src/src/App.jsx:144-145 | whatever lies at position 0 changes neither the left nor the right moment |
| Display.RotationHalfDegrees | src/src/App.jsx:162-166 | the tilt is within ±12 degrees, equals 1.5 degrees per unit of difference from -8 to 8, and saturates beyond |
| Display.RotationMonotone | src/src/App.jsx:165 | a larger difference never gives a smaller tilt |
| Display.RotationOdd | src/src/App.jsx:165 | mirroring the difference mirrors the tilt, and the beam is level exactly when balanced |
| Display.BalanceState | src/src/App.jsx:168-174 | balanced exactly when the difference is 0, close exactly when it is ±1, far exactly when its size is at least 2 |
| Display.BalanceStateMonotone | src/src/App.jsx:170-173 | a larger absolute difference never gives a better indicator |
| Placement.Used | src/src/App.jsx:180 | definition: the counter under a key, an absent key reading as 0 |
| Placement.Admits | src/src/App.jsx:177-182 | definition of the drop guard: the cell is open to the player, and, when the item's key names an inventory entry, fewer than that entry's count are in use; a key naming no entry is never limited |
| Placement.Bump | src/src/App.jsx:191 | the dropped item's key counts one more; every other key is unchanged |
| Placement.Release | src/src/App.jsx:201 | the removed piece's key counts one fewer, floored at 0; every other key is unchanged |
| Placement.StaticBoard | src/src/App.jsx:118-121 | definition: each static object, in order, pinned alone into the cell at its position, a later object at the same position replacing an earlier one |
| Placement.StaticBoardShape | src/src/App.jsx:118-121 | every cell of a starting board holds exactly one static piece, pinned from a static object at that position, and every static object's position is occupied |
| Placement.PlaceOn | src/src/App.jsx:184-190 | a drop appends the piece at the end of its cell and leaves every other cell as it was |
| Placement.Removable | src/src/App.jsx:197-198 | definition of the removal guard: the cell exists, the index lies within it, and the piece there is not static |
| Placement.Without | src/src/App.jsx:202 | removal deletes exactly the given index; the pieces before it and after it keep their order |
| Placement.TakeFrom | src/src/App.jsx:202-205 | a removal leaves other cells as they were; the cell keeps its other pieces in order, and disappears if it would be left empty |
| Placement.StartingState | src/src/App.jsx:117-129 | a level's starting board with an empty counter meets both invariants, holds no user piece, and leaves the fulcrum empty |
| Placement.FulcrumNeverOccupied | src/src/App.jsx:177 | a board that keeps the layout invariant never has a cell at position 0 |
| Placement.UsageWithinCount | src/src/App.jsx:182 | under the usage invariant, no inventory entry is used more often than its count |
| Placement.Remaining | src/src/App.jsx:480-482 | definition: an inventory entry's count minus what is in use under its key |
| Placement.RemainingAgreesWithGuard | src/src/App.jsx:480-488 | the inventory offers an entry for dragging (something remains) exactly when a drop of it into an open cell passes the guard |
| Placement.PlacedCountAfterPlace | src/src/App.jsx:188-191 | after a drop, the number of player pieces under a key grows by one for the dropped key and is unchanged for the others |
| Placement.LayoutAfterPlace | src/src/App.jsx:177-188 | dropping a non-static piece into an open cell keeps the board layout |
| Placement.PlacePreserves | src/src/App.jsx:176-191 | a drop that passes the guard keeps the layout and usage invariants, with the counter bumped |
| Placement.LayoutAfterTake | src/src/App.jsx:198-205 | removing a non-static piece keeps the board layout: static pieces stay put |
| Placement.TakePreserves | src/src/App.jsx:194-207 | a removal keeps both invariants, and the counter for the removed key was positive, so the floor at 0 is never needed |
| Placement.PlaceTakeRoundTrip | src/src/App.jsx:184-206 | dropping a piece and then removing the last piece of that cell restores the board exactly, and restores the counter with absent keys read as 0 |
| Placement.UserPiecesAfterPlace | src/src/App.jsx:143 | after a drop, some player piece is on the board exactly when one was before or the dropped piece is not static |
| Placement.MomentsAfterPlace | src/src/App.jsx:141-145 | a drop adds distance times weight to the moment on the piece's side, nothing to the other side, and marks user pieces when the piece is not static |
| Placement.MomentsAfterTake | src/src/App.jsx:141-145 | a removal takes exactly distance times weight off the moment on the piece's side |
| Game.Session.constructor | src/src/App.jsx:104-131 | the game opens on the first level, laid out with only its static objects, nothing used, not solved |
| Game.Session.InitLevel | src/src/App.jsx:117-129 | the loop lays out exactly the level's static objects, clears the counter and the solved flag, and leaves the level index as it was; the state is valid and has no user pieces |
| Game.Session.AddToCell | src/src/App.jsx:176-192 | a closed cell or a used-up entry leaves board and counter unchanged; otherwise one non-static copy goes onto the end of the cell and only that key counts one more; the invariant is kept |
| Game.Session.RemoveFromCell | src/src/App.jsx:194-208 | a missing cell, a bad index or a static piece leaves everything unchanged; otherwise exactly that piece goes, an emptied cell is deleted, and its key counts one fewer; the invariant is kept |
| Game.Session.DetectSolved | src/src/App.jsx:151-160 | the level becomes solved exactly when user pieces are present and the moments are equal, and once solved stays solved |
| Game.Session.GetRotation | src/src/App.jsx:162-166 | the tilt is that of the current board's moment difference |
| Game.Session.GetBalanceState | src/src/App.jsx:168-174 | the indicator is that of the current board's moment difference |
| Game.Session.NextLevel | src/src/App.jsx:252-254 | before the last level, it moves to the next level freshly laid out; on the last level nothing changes |
| Game.Session.ResetLevel | src/src/App.jsx:256 | the current level is laid out afresh, with nothing used and not solved |
| Game.Session.Restart | src/src/App.jsx:552 | from any later level, it returns to the first level freshly laid out; on the first level nothing changes |
| Play.OneDrop | src/src/App.jsx:133-148 | with one static object on the right and one player piece on the left, the moments are the two products and user pieces are present |
| Play.FirstLevelDrop | src/src/App.jsx:8-15 | on level 1, a small or medium circle dropped on the left is accepted and weighs against a right moment of 4 |
| Play.SolveFirstLevel | src/src/App.jsx:3-16 | the medium circle at -2 solves level 1, with the beam level and the indicator balanced |
| Play.NearMissFirstLevel | src/src/App.jsx:3-16 | the small circle at -3 leaves level 1 unsolved, close, with rotation -1.5 degrees (-3 half-degrees) |
| Play.ExhaustInventory | src/src/App.jsx:51 | on level 4, the sixth small circle is refused and leaves the lever unchanged; the counter holds at five, and exactly five small circles lie on the lever |
| Play.ResetClears | src/src/App.jsx:256 | after a drop and a reset, the board is exactly level 1's starting board with its static object, the usage counter is empty, and no user piece remains |

## Left out

- Rendering, the `Shape` component and all styling (lines 72-101 and 258-569): presentation only.
- The moment-bar indicator position `50 - d * 4` clamped to [5, 95] (line 325): presentation only.
- Drag, drop and touch handlers with their hit-testing (lines 210-250): input plumbing. Their only effect on the game is a call of `addToCell(pos, item)`, which is modelled.
- The celebration timer, the hint toggle, and the dragged-item state: UI flags with no effect on the game's logic.
- The solved check as an effect: the code re-runs it by itself after every change of the board. In the model it is a separate step, `Game.Session.DetectSolved`, which the caller runs after each change. `AddToCell` and `RemoveFromCell` leave `solved` as it was.
- React scheduling: hook dependencies, stale closures, and the counter update made inside the board updater (line 201). Each operation is modelled as one atomic step.
- The state in which `cells` is still `null` (before the first effect runs): nothing is shown then. The session constructor lays out the first level straight away; the null case of `calculateMoment` itself is modelled.
- Real-number arithmetic. Every weight in the game is a whole number, so differences are integers, and the thresholds and the tilt are computed exactly in integers. Fractional weights are not modelled. `Display.RotationHalfDegrees` is stated in half-degrees.
- The on-screen direction of the tilt. The model states the rotation angle only. The beam is drawn rotated by that many degrees (line 359), with position -3 at its left end (line 364). A negative angle turns the beam counter-clockwise, so the left end dips when the right side is heavier: the beam tips toward the lighter side. This is a reading of the source only, not executed, and the model does not capture it.
- Display-only fields (`color`, `unknown`, `title`, `description`, `hint`): carried by no model entity.
- `Game.Session.Restart`: the code sets the level index to 0, and the level is re-initialised only because the index changed. So on level 0 itself this does nothing, and the model follows the code here. The button appears only after the last level is solved, where the index is never 0.
- An item whose key names no inventory entry: the model follows the code. The lookup finds nothing, so no count limits the drop. This holds for an item without an id and equally for one whose id matches no entry. Such items do not occur, since only inventory entries can be dragged.
- A missing `id` is modelled as the empty string, which takes the same `type_size` fallback as the code.
- Key collisions between an explicit id and a fallback key: an item whose id is, say, `circle_small` would be counted under the same key as an id-less small circle. The model follows the code here. No level's data has such an id.
