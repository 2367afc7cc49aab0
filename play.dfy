/** Play-throughs of the built-in levels against the session, each checked against
    the numbers the level designs are built around. */
module Play {
  import opened Pieces
  import opened Levels
  import opened Balance
  import opened Display
  import opened Placement
  import opened Game

  /** The moments of a starting board holding one static object on the right, with
      one player piece dropped on the left. */
  lemma OneDrop(o: StaticObject, pos: int, x: Piece)
    requires o.position > 0 && pos < 0 && !x.isStatic
    ensures BalanceOf(PlaceOn(StaticBoard([o]), pos, x)).leftMoment == Abs(pos) * x.weight
    ensures BalanceOf(PlaceOn(StaticBoard([o]), pos, x)).rightMoment == o.position * o.weight
    ensures BalanceOf(PlaceOn(StaticBoard([o]), pos, x)).hasUserPieces
  {
    var b0 := StaticBoard([o]);
    assert [o][..0] == [];
    assert b0 == StaticBoard([])[o.position := [Pin(o)]];
    assert Cell(map[], o.position) + [Pin(o)] == [Pin(o)];
    assert b0 == PlaceOn(map[], o.position, Pin(o));
    EmptyBoardBalance();
    MomentsAfterPlace(map[], o.position, Pin(o));
    MomentsAfterPlace(b0, pos, x);
  }

  /** On the first level, a small or medium circle dropped on the left of a fresh
      board is accepted, and balances against the static circle's moment of 4. */
  lemma FirstLevelDrop(pos: int, item: Template)
    requires pos in [-3, -2, -1] && item in [SmallCircle(5), MediumCircle(3)]
    ensures Admits(AllLevels()[0], map[], pos, item)
    ensures BalanceOf(PlaceOn(StaticBoard(AllLevels()[0].staticObjects), pos, Instantiate(item))).leftMoment
         == Abs(pos) * item.weight
    ensures BalanceOf(PlaceOn(StaticBoard(AllLevels()[0].staticObjects), pos, Instantiate(item))).rightMoment == 4
    ensures BalanceOf(PlaceOn(StaticBoard(AllLevels()[0].staticObjects), pos, Instantiate(item))).hasUserPieces
  {
    var lv := AllLevels()[0];
    assert FindTemplate(lv.inventory, TemplateKey(item)) == Some(item);
    OneDrop(lv.staticObjects[0], pos, Instantiate(item));
    assert lv.staticObjects == [lv.staticObjects[0]];
  }

  /** Level 1: the medium circle at -2 balances the medium circle at +2 (4 against 4),
      which solves the level; the beam is level and the indicator says balanced. */
  method SolveFirstLevel() returns (solved: bool, state: Indicator, rotation: int)
    ensures solved && state == Balanced && rotation == 0
  {
    var s := new Session();
    FirstLevelDrop(-2, MediumCircle(3));
    s.AddToCell(-2, MediumCircle(3));
    s.DetectSolved();
    solved := s.solved;
    var m := CalculateMoment(Some(s.cells));
    state, rotation := BalanceState(m.difference), RotationHalfDegrees(m.difference);
  }

  /** Level 1 again: the small circle at -3 gives 3 against 4, one off; the rotation
      is -1.5 degrees (-3 half-degrees), the indicator says close and the level is not solved. */
  method NearMissFirstLevel() returns (solved: bool, state: Indicator, rotation: int)
    ensures !solved && state == Close && rotation == -3
  {
    var s := new Session();
    FirstLevelDrop(-3, SmallCircle(5));
    s.AddToCell(-3, SmallCircle(5));
    s.DetectSolved();
    solved := s.solved;
    var m := CalculateMoment(Some(s.cells));
    state, rotation := BalanceState(m.difference), RotationHalfDegrees(m.difference);
  }

  /** Level 4 offers five small circles: of six drops the sixth is refused, leaving
      the lever as it was; the counter stands at five and exactly five small circles
      lie on the lever. */
  method ExhaustInventory() returns (used: nat, lastRefused: bool, ghost placed: nat)
    ensures used == 5 && lastRefused && placed == 5
  {
    var s := new Session();
    s.NextLevel();
    s.NextLevel();
    s.NextLevel();
    assert s.currentLevel == 3;
    var i := 0;
    while i < 5
      invariant 0 <= i <= 5
      invariant s.Valid() && s.currentLevel == 3 && !s.solved
      invariant Used(s.inventoryUsed, "c1") == i
    {
      s.AddToCell(-3, SmallCircle(5));
      i := i + 1;
    }
    var before := s.cells;
    s.AddToCell(-3, SmallCircle(5));
    used := Used(s.inventoryUsed, "c1");
    lastRefused := s.cells == before;
    placed := PlacedCount(s.cells, "c1");
  }

  /** Resetting after a drop restores the level's starting board, static objects
      and all, empties the usage counter, and leaves no player piece on the lever. */
  method ResetClears() returns (userPieces: bool, board: Board, usage: Usage)
    ensures !userPieces
    ensures board == StaticBoard(AllLevels()[0].staticObjects) && usage == map[]
  {
    var s := new Session();
    s.AddToCell(-2, MediumCircle(3));
    s.ResetLevel();
    StartingState(AllLevels()[0]);
    var m := CalculateMoment(Some(s.cells));
    userPieces := m.hasUserPieces;
    board, usage := s.cells, s.inventoryUsed;
  }
}
