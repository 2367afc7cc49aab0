/** The balance engine: moments of the pieces on each side of the fulcrum, the
    beam's rotation and the balance indicator. */
module Balance {
  import opened Pieces
  import opened Levels
  import opened Sums

  /** Cell position -> the pieces in that cell, in drop order. */
  type Board = map<int, seq<Piece>>

  function Abs(x: int): nat
  {
    if x < 0 then -x else x
  }

  /** The pieces in a cell; an absent cell holds none. */
  function Cell(b: Board, p: int): seq<Piece>
  {
    if p in b then b[p] else []
  }

  /** Sum of the weights in a cell, folded from the left. */
  function CellWeight(ps: seq<Piece>): nat
  {
    if ps == [] then 0 else CellWeight(ps[..|ps| - 1]) + ps[|ps| - 1].weight
  }

  /** Number of player-placed pieces in a cell counted under `key`. */
  function CountPlaced(ps: seq<Piece>, key: string): nat
  {
    if ps == [] then 0
    else CountPlaced(ps[..|ps| - 1], key) + (if !ps[|ps| - 1].isStatic && PieceKey(ps[|ps| - 1]) == key then 1 else 0)
  }

  /** Some piece in the cell was placed by the player. */
  predicate HasUser(ps: seq<Piece>)
  {
    exists i :: 0 <= i < |ps| && !ps[i].isStatic
  }

  lemma {:induction false} CellWeightConcat(a: seq<Piece>, c: seq<Piece>)
    ensures CellWeight(a + c) == CellWeight(a) + CellWeight(c)
    decreases |c|
  {
    if c == [] {
      assert a + c == a;
    } else {
      var c' := c[..|c| - 1];
      assert (a + c)[..|a + c| - 1] == a + c';
      CellWeightConcat(a, c');
    }
  }

  lemma {:induction false} CountPlacedConcat(a: seq<Piece>, c: seq<Piece>, key: string)
    ensures CountPlaced(a + c, key) == CountPlaced(a, key) + CountPlaced(c, key)
    decreases |c|
  {
    if c == [] {
      assert a + c == a;
    } else {
      var c' := c[..|c| - 1];
      assert (a + c)[..|a + c| - 1] == a + c';
      CountPlacedConcat(a, c', key);
    }
  }

  /** What a cell contributes to a quantity summed over the whole board. */
  datatype Measure = LeftSide | RightSide | PlacedKey(key: string)

  function Part(m: Measure, p: int, ps: seq<Piece>): nat
  {
    match m
    case LeftSide => if p < 0 then Abs(p) * CellWeight(ps) else 0
    case RightSide => if p > 0 then Abs(p) * CellWeight(ps) else 0
    case PlacedKey(k) => CountPlaced(ps, k)
  }

  /** A cell's contribution is additive over the pieces in it. */
  lemma PartConcat(m: Measure, p: int, a: seq<Piece>, c: seq<Piece>)
    ensures Part(m, p, a + c) == Part(m, p, a) + Part(m, p, c)
  {
    match m
    case PlacedKey(k) => CountPlacedConcat(a, c, k);
    case _ =>
      CellWeightConcat(a, c);
      assert Abs(p) * CellWeight(a + c) == Abs(p) * CellWeight(a) + Abs(p) * CellWeight(c);
  }

  /** Each cell's contribution to a measure. */
  function Contributions(b: Board, m: Measure): (c: map<int, nat>)
    ensures c.Keys == b.Keys
  {
    map p | p in b :: Part(m, p, b[p])
  }

  /** A measure summed over the whole board. */
  ghost function Total(b: Board, m: Measure): nat
  {
    Sum(Contributions(b, m), b.Keys)
  }

  /** Replacing one cell changes the board total by exactly that cell's change. */
  lemma TotalUpdate(b: Board, pos: int, v: seq<Piece>, m: Measure)
    ensures Total(b[pos := v], m) + Part(m, pos, Cell(b, pos)) == Total(b, m) + Part(m, pos, v)
  {
    var b' := b[pos := v];
    var c, c' := Contributions(b, m), Contributions(b', m);
    SumPick(c', b'.Keys, pos);
    assert b'.Keys - {pos} == b.Keys - {pos};
    SumAgree(c', c, b.Keys - {pos});
    if pos in b {
      SumPick(c, b.Keys, pos);
    } else {
      assert b.Keys - {pos} == b.Keys;
    }
  }

  /** Deleting a cell takes exactly that cell's contribution off the board total. */
  lemma TotalDelete(b: Board, pos: int, m: Measure)
    requires pos in b
    ensures Total(b - {pos}, m) + Part(m, pos, b[pos]) == Total(b, m)
  {
    var b' := b - {pos};
    var c, c' := Contributions(b, m), Contributions(b', m);
    assert b'.Keys == b.Keys - {pos};
    SumPick(c, b.Keys, pos);
    SumAgree(c', c, b.Keys - {pos});
  }

  /** A board where every cell contributes nothing totals zero. */
  lemma TotalZero(b: Board, m: Measure)
    requires forall p :: p in b ==> Part(m, p, b[p]) == 0
    ensures Total(b, m) == 0
  {
    SumZero(Contributions(b, m), b.Keys);
  }

  /** The result of the moment calculation. */
  datatype Moments = Moments(leftMoment: nat, rightMoment: nat, difference: int, hasUserPieces: bool)

  /** Some cell of the board holds a player-placed piece. */
  ghost predicate HasUserPieces(b: Board)
  {
    exists p :: p in b && HasUser(b[p])
  }

  /** The moments of a board: per cell, total weight times distance from the fulcrum,
      summed on the left (negative positions) and on the right (positive positions). */
  ghost function BalanceOf(b: Board): (r: Moments)
    ensures r.difference == r.leftMoment - r.rightMoment
    ensures r.hasUserPieces <==> exists p, i :: p in b && 0 <= i < |b[p]| && !b[p][i].isStatic
  {
    var left := Total(b, LeftSide);
    var right := Total(b, RightSide);
    Moments(left, right, left - right, HasUserPieces(b))
  }

  /** Moment calculation over an optional board: no board yields all zeros. */
  method CalculateMoment(cellData: Option<Board>) returns (m: Moments)
    ensures cellData.None? ==> m == Moments(0, 0, 0, false)
    ensures cellData.Some? ==> m == BalanceOf(cellData.value)
  {
    if cellData.None? {
      return Moments(0, 0, 0, false);
    }
    var b := cellData.value;
    var leftMoment: nat, rightMoment: nat := 0, 0;
    var hasUserPieces := false;
    ghost var left, right := Contributions(b, LeftSide), Contributions(b, RightSide);
    var rest := b.Keys;
    while rest != {}
      invariant rest <= b.Keys
      invariant leftMoment == Sum(left, b.Keys - rest)
      invariant rightMoment == Sum(right, b.Keys - rest)
      invariant hasUserPieces <==> exists p :: p in b.Keys - rest && HasUser(b[p])
      decreases rest
    {
      EmptyOrMember(rest);
      var pos :| pos in rest;
      var objects := b[pos];
      var totalWeight := CellWeight(objects);
      var moment := Abs(pos) * totalWeight;
      if HasUser(objects) {
        hasUserPieces := true;
      }
      if pos < 0 {
        leftMoment := leftMoment + moment;
      } else if pos > 0 {
        rightMoment := rightMoment + moment;
      }
      var done := b.Keys - rest;
      assert (done + {pos}) - {pos} == done;
      SumPick(left, done + {pos}, pos);
      SumPick(right, done + {pos}, pos);
      rest := rest - {pos};
      assert b.Keys - rest == done + {pos};
    }
    assert b.Keys - rest == b.Keys;
    m := Moments(leftMoment, rightMoment, leftMoment - rightMoment, hasUserPieces);
  }

  /** A board with no cells is perfectly balanced and has no player pieces. */
  lemma EmptyBoardBalance()
    ensures BalanceOf(map[]) == Moments(0, 0, 0, false)
  {
  }

  /** Pieces on the fulcrum (position 0) count on neither side. */
  lemma FulcrumIgnored(b: Board, ps: seq<Piece>)
    ensures BalanceOf(b[0 := ps]).leftMoment == BalanceOf(b - {0}).leftMoment
    ensures BalanceOf(b[0 := ps]).rightMoment == BalanceOf(b - {0}).rightMoment
  {
    var b0 := b - {0};
    assert b0[0 := ps] == b[0 := ps];
    assert Cell(b0, 0) == [];
    TotalUpdate(b0, 0, ps, LeftSide);
    TotalUpdate(b0, 0, ps, RightSide);
  }
}
