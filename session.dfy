/** The game session: which level is being played, the pieces on the lever, how
    much of the inventory is in use, and whether the level has been solved. Each
    user action is one atomic step on this state. */
module Game {
  import opened Pieces
  import opened Levels
  import opened Balance
  import opened Display
  import opened Placement

  class Session {
    var currentLevel: nat
    var cells: Board
    var inventoryUsed: Usage
    var solved: bool

    /** The level being played. */
    function Current(): Level
      reads this
      requires currentLevel < |AllLevels()|
    {
      AllLevels()[currentLevel]
    }

    /** The session invariant: a real level, the lever laid out as that level allows,
        and a usage counter that matches the lever and respects every count. */
    ghost predicate Valid()
      reads this
    {
      && currentLevel < |AllLevels()|
      && BoardInvariant(Current(), cells)
      && UsageInvariant(Current(), cells, inventoryUsed)
    }

    /** A fresh level: only its static objects on the lever, nothing used, not solved. */
    ghost predicate Fresh()
      reads this
      requires currentLevel < |AllLevels()|
    {
      && cells == StaticBoard(Current().staticObjects)
      && inventoryUsed == map[]
      && !solved
    }

    /** The game starts on the first level, freshly laid out. */
    constructor ()
      ensures Valid() && currentLevel == 0 && Fresh()
    {
      currentLevel := 0;
      cells := map[];
      inventoryUsed := map[];
      solved := false;
      new;
      InitLevel();
    }

    /** Lays out the current level: each static object, pinned, in its cell. */
    method InitLevel()
      requires currentLevel < |AllLevels()|
      modifies this
      ensures Valid() && Fresh()
      ensures currentLevel == old(currentLevel)
      ensures !HasUserPieces(cells)
    {
      var objs := AllLevels()[currentLevel].staticObjects;
      var newCells: Board := map[];
      var i := 0;
      while i < |objs|
        invariant 0 <= i <= |objs|
        invariant newCells == StaticBoard(objs[..i])
      {
        assert objs[..i + 1][..i] == objs[..i];
        newCells := newCells[objs[i].position := [Pin(objs[i])]];
        i := i + 1;
      }
      assert objs[..i] == objs;
      cells := newCells;
      solved := false;
      inventoryUsed := map[];
      StartingState(Current());
    }

    /** Drops a copy of `item` at `position`, unless the cell is closed to the player
        or the item's inventory entry is used up; then nothing changes. */
    method AddToCell(position: int, item: Template)
      requires Valid()
      modifies this
      ensures Valid()
      ensures currentLevel == old(currentLevel) && solved == old(solved)
      ensures Admits(Current(), old(inventoryUsed), position, item) ==>
                && cells == PlaceOn(old(cells), position, Instantiate(item))
                && inventoryUsed == Bump(old(inventoryUsed), TemplateKey(item))
      ensures !Admits(Current(), old(inventoryUsed), position, item) ==>
                cells == old(cells) && inventoryUsed == old(inventoryUsed)
    {
      var level := AllLevels()[currentLevel];
      if position !in level.availableCells {
        return;
      }
      var itemKey := TemplateKey(item);
      var used := Used(inventoryUsed, itemKey);
      var invItem := FindTemplate(level.inventory, itemKey);
      if invItem.Some? && used >= invItem.value.count {
        return;
      }
      PlacePreserves(level, cells, inventoryUsed, position, item);
      cells := PlaceOn(cells, position, Instantiate(item));
      inventoryUsed := Bump(inventoryUsed, itemKey);
    }

    /** Takes out the piece at `index` of cell `position`, unless there is no such
        piece or it is static; then nothing changes. */
    method RemoveFromCell(position: int, index: int)
      requires Valid()
      modifies this
      ensures Valid()
      ensures currentLevel == old(currentLevel) && solved == old(solved)
      ensures Removable(old(cells), position, index) ==>
                && cells == TakeFrom(old(cells), position, index)
                && inventoryUsed == Release(old(inventoryUsed), PieceKey(old(cells)[position][index]))
      ensures !Removable(old(cells), position, index) ==>
                cells == old(cells) && inventoryUsed == old(inventoryUsed)
    {
      if position !in cells {
        return;
      }
      var arr := cells[position];
      if !(0 <= index < |arr|) || arr[index].isStatic {
        return;
      }
      TakePreserves(Current(), cells, inventoryUsed, position, index);
      var removed := arr[index];
      inventoryUsed := Release(inventoryUsed, PieceKey(removed));
      cells := TakeFrom(cells, position, index);
    }

    /** The solved check run after every change of the lever: the level becomes solved
        once the player has placed a piece and the moments are equal, and stays solved. */
    method DetectSolved()
      requires Valid()
      modifies this`solved
      ensures Valid()
      ensures solved == (old(solved) || (BalanceOf(cells).hasUserPieces && BalanceOf(cells).difference == 0))
    {
      var m := CalculateMoment(Some(cells));
      if m.hasUserPieces && Abs(m.difference) * 100 < 1 && !solved {
        solved := true;
      }
    }

    /** The beam's tilt for the current lever, in half-degrees. */
    method GetRotation() returns (r: int)
      ensures r == RotationHalfDegrees(BalanceOf(cells).difference)
    {
      var m := CalculateMoment(Some(cells));
      r := RotationHalfDegrees(m.difference);
    }

    /** The balance indicator for the current lever. */
    method GetBalanceState() returns (s: Indicator)
      ensures s == BalanceState(BalanceOf(cells).difference)
    {
      var m := CalculateMoment(Some(cells));
      s := BalanceState(m.difference);
    }

    /** Moves on to the next level, freshly laid out; on the last level nothing changes. */
    method NextLevel()
      requires Valid()
      modifies this
      ensures Valid()
      ensures old(currentLevel) < |AllLevels()| - 1 ==> currentLevel == old(currentLevel) + 1 && Fresh()
      ensures old(currentLevel) == |AllLevels()| - 1 ==> unchanged(this)
    {
      if currentLevel < |AllLevels()| - 1 {
        currentLevel := currentLevel + 1;
        InitLevel();
      }
    }

    /** Lays the current level out afresh. */
    method ResetLevel()
      requires Valid()
      modifies this
      ensures Valid() && Fresh()
      ensures currentLevel == old(currentLevel)
    {
      InitLevel();
    }

    /** Play again from the first level. The level is laid out afresh when the level
        changes, so on the first level itself nothing happens. */
    method Restart()
      requires Valid()
      modifies this
      ensures Valid()
      ensures old(currentLevel) != 0 ==> currentLevel == 0 && Fresh()
      ensures old(currentLevel) == 0 ==> unchanged(this)
    {
      if currentLevel != 0 {
        currentLevel := 0;
        InitLevel();
      }
    }
  }
}
