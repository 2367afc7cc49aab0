/** The placement controller as pure transitions: the board a level starts from,
    dropping a piece into a cell, taking one out, and the inventory usage counter.
    The session methods are specified by these functions. */
module Placement {
  import opened Pieces
  import opened Levels
  import opened Balance

  /** Inventory key -> number of pieces currently counted as used. */
  type Usage = map<string, nat>

  /** Usage under a key; an absent key counts as 0. */
  function Used(u: Usage, k: string): nat
  {
    if k in u then u[k] else 0
  }

  /** Count one more piece under `k`. */
  function Bump(u: Usage, k: string): (u': Usage)
    ensures Used(u', k) == Used(u, k) + 1
    ensures forall j :: j != k ==> Used(u', j) == Used(u, j)
  {
    u[k := Used(u, k) + 1]
  }

  /** Count one fewer piece under `k`, never going below 0. */
  function Release(u: Usage, k: string): (u': Usage)
    ensures Used(u', k) == if Used(u, k) == 0 then 0 else Used(u, k) - 1
    ensures forall j :: j != k ==> Used(u', j) == Used(u, j)
  {
    var lowered: int := Used(u, k) - 1;
    u[k := if lowered < 0 then 0 else lowered]
  }

  /** The board a level starts from: each static object, pinned, alone in its cell.
      A later object at the same position replaces an earlier one. */
  function StaticBoard(objs: seq<StaticObject>): Board
  {
    if objs == [] then map[]
    else
      var last := objs[|objs| - 1];
      StaticBoard(objs[..|objs| - 1])[last.position := [Pin(last)]]
  }

  /** Every cell of a level's starting board holds exactly one pinned static object of
      that level, and every static object's position is occupied. */
  lemma {:induction false} StaticBoardShape(objs: seq<StaticObject>)
    ensures forall p :: p in StaticBoard(objs) ==> |StaticBoard(objs)[p]| == 1 && StaticBoard(objs)[p][0].isStatic
    ensures forall j :: 0 <= j < |objs| ==> objs[j].position in StaticBoard(objs)
    ensures forall p :: p in StaticBoard(objs) ==>
              exists j :: 0 <= j < |objs| && objs[j].position == p && StaticBoard(objs)[p] == [Pin(objs[j])]
    decreases |objs|
  {
    if objs != [] {
      var init := objs[..|objs| - 1];
      StaticBoardShape(init);
      var sb := StaticBoard(objs);
      forall p | p in sb
        ensures exists j :: 0 <= j < |objs| && objs[j].position == p && sb[p] == [Pin(objs[j])]
      {
        if p != objs[|objs| - 1].position {
          var j :| 0 <= j < |init| && init[j].position == p && StaticBoard(init)[p] == [Pin(init[j])];
          assert objs[j] == init[j];
        }
      }
      forall j | 0 <= j < |objs| ensures objs[j].position in sb {
        if j < |init| {
          assert init[j] == objs[j];
        }
      }
    }
  }

  /** The drop guard: the cell is open to the player and, when the item's key names
      an inventory entry, that entry is not used up. Items outside the inventory
      have no limit. */
  predicate Admits(lv: Level, u: Usage, pos: int, item: Template)
  {
    && pos in lv.availableCells
    && match FindTemplate(lv.inventory, TemplateKey(item))
       case None => true
       case Some(t) => Used(u, TemplateKey(item)) < t.count
  }

  /** The board after dropping `x` at the end of cell `pos`. */
  function PlaceOn(b: Board, pos: int, x: Piece): (b': Board)
    ensures b'.Keys == b.Keys + {pos}
    ensures b'[pos] == Cell(b, pos) + [x]
    ensures forall q :: q in b && q != pos ==> b'[q] == b[q]
  {
    b[pos := Cell(b, pos) + [x]]
  }

  /** Removal is allowed only for a player piece at an existing index. */
  predicate Removable(b: Board, pos: int, index: int)
  {
    pos in b && 0 <= index < |b[pos]| && !b[pos][index].isStatic
  }

  /** The pieces of a cell without the one at `i`, the others keeping their order. */
  function Without(s: seq<Piece>, i: int): (r: seq<Piece>)
    requires 0 <= i < |s|
    ensures |r| == |s| - 1
    ensures forall j :: 0 <= j < i ==> r[j] == s[j]
    ensures forall j :: i <= j < |r| ==> r[j] == s[j + 1]
  {
    s[..i] + s[i + 1..]
  }

  /** The board after taking out the piece at `index` of cell `pos`; a cell left
      empty disappears. */
  function TakeFrom(b: Board, pos: int, index: int): (b': Board)
    requires Removable(b, pos, index)
    ensures forall q :: q != pos ==> (q in b' <==> q in b)
    ensures forall q :: q in b && q != pos ==> b'[q] == b[q]
    ensures pos in b' <==> |b[pos]| > 1
    ensures pos in b' ==> b'[pos] == Without(b[pos], index)
  {
    var rest := Without(b[pos], index);
    if |rest| == 0 then b - {pos} else b[pos := rest]
  }

  // ---------------------------------------------------------------------------
  // Invariants of a session's board and usage counter

  /** How the cells of a board relate to its level: no cell is empty; a cell is open
      to the player or holds a static object; each static object stays first in its
      cell; and exactly those first pieces are static. */
  ghost predicate Layout(avail: seq<int>, sb: Board, b: Board)
  {
    && (forall p :: p in b ==> b[p] != [])
    && (forall p :: p in b ==> p in avail || p in sb)
    && (forall p :: p in sb ==> sb[p] != [] && p in b && b[p][0] == sb[p][0])
    && (forall p, i :: p in b && 0 <= i < |b[p]| ==> (b[p][i].isStatic <==> p in sb && i == 0))
  }

  ghost predicate BoardInvariant(lv: Level, b: Board)
  {
    Layout(lv.availableCells, StaticBoard(lv.staticObjects), b)
  }

  /** Number of player pieces on the board counted under key `k`. */
  ghost function PlacedCount(b: Board, k: string): nat
  {
    Total(b, PlacedKey(k))
  }

  /** The counter agrees with the board under every key, and no inventory entry is
      used more often than its count allows. */
  ghost predicate UsageInvariant(lv: Level, b: Board, u: Usage)
  {
    && (forall k {:trigger PlacedCount(b, k)} :: Used(u, k) == PlacedCount(b, k))
    && (forall k :: FindTemplate(lv.inventory, k).Some? ==> Used(u, k) <= FindTemplate(lv.inventory, k).value.count)
  }

  /** A level's starting board satisfies both invariants with an empty counter, has
      no player pieces and nothing on the fulcrum. */
  lemma StartingState(lv: Level)
    requires WellFormed(lv)
    ensures BoardInvariant(lv, StaticBoard(lv.staticObjects))
    ensures UsageInvariant(lv, StaticBoard(lv.staticObjects), map[])
    ensures !HasUserPieces(StaticBoard(lv.staticObjects))
    ensures 0 !in StaticBoard(lv.staticObjects)
  {
    var objs := lv.staticObjects;
    var sb := StaticBoard(objs);
    StaticBoardShape(objs);
    forall k ensures PlacedCount(sb, k) == 0 {
      forall p | p in sb ensures Part(PlacedKey(k), p, sb[p]) == 0 {
        assert sb[p][..0] == [];
        assert CountPlaced(sb[p], k) == CountPlaced(sb[p][..0], k);
      }
      TotalZero(sb, PlacedKey(k));
    }
  }

  /** The fulcrum never holds a piece. */
  lemma FulcrumNeverOccupied(lv: Level, b: Board)
    requires WellFormed(lv) && BoardInvariant(lv, b)
    ensures 0 !in b
  {
    StartingState(lv);
  }

  /** No inventory entry is ever used more often than its count. */
  lemma UsageWithinCount(lv: Level, b: Board, u: Usage, i: nat)
    requires WellFormed(lv) && UsageInvariant(lv, b, u) && i < |lv.inventory|
    ensures Used(u, TemplateKey(lv.inventory[i])) <= lv.inventory[i].count
  {
    FindOwnKey(lv.inventory, i);
  }

  /** How many more of an inventory entry the player may still drop. */
  function Remaining(t: Template, u: Usage): int
  {
    t.count - Used(u, TemplateKey(t))
  }

  /** The inventory offers an entry for dragging (something remains) exactly when a
      drop of it into an open cell passes the guard. */
  lemma RemainingAgreesWithGuard(lv: Level, u: Usage, i: nat, pos: int)
    requires WellFormed(lv) && i < |lv.inventory|
    requires pos in lv.availableCells
    ensures Remaining(lv.inventory[i], u) > 0 <==> Admits(lv, u, pos, lv.inventory[i])
  {
    FindOwnKey(lv.inventory, i);
  }

  /** A drop adds exactly the new piece's contribution to any board total. */
  lemma TotalAfterPlace(b: Board, pos: int, x: Piece, m: Measure)
    ensures Total(PlaceOn(b, pos, x), m) == Total(b, m) + Part(m, pos, [x])
  {
    TotalUpdate(b, pos, Cell(b, pos) + [x], m);
    PartConcat(m, pos, Cell(b, pos), [x]);
  }

  /** A removal takes exactly the removed piece's contribution off any board total. */
  lemma TotalAfterTake(b: Board, pos: int, index: int, m: Measure)
    requires Removable(b, pos, index)
    ensures Total(TakeFrom(b, pos, index), m) + Part(m, pos, [b[pos][index]]) == Total(b, m)
  {
    var s := b[pos];
    var rest := Without(s, index);
    assert s == s[..index] + [s[index]] + s[index + 1..];
    PartConcat(m, pos, s[..index] + [s[index]], s[index + 1..]);
    PartConcat(m, pos, s[..index], [s[index]]);
    PartConcat(m, pos, s[..index], s[index + 1..]);
    if |rest| == 0 {
      TotalDelete(b, pos, m);
    } else {
      TotalUpdate(b, pos, rest, m);
    }
  }

  /** What a single piece contributes on each side and to the count under `k`. */
  lemma PartOfOne(pos: int, x: Piece, k: string)
    ensures Part(LeftSide, pos, [x]) == if pos < 0 then Abs(pos) * x.weight else 0
    ensures Part(RightSide, pos, [x]) == if pos > 0 then Abs(pos) * x.weight else 0
    ensures Part(PlacedKey(k), pos, [x]) == if !x.isStatic && PieceKey(x) == k then 1 else 0
  {
    assert [x][..0] == [];
    assert CellWeight([x]) == CellWeight([]) + x.weight;
    assert CountPlaced([x], k) == CountPlaced([], k) + (if !x.isStatic && PieceKey(x) == k then 1 else 0);
  }

  /** The player-piece count under `k` after a drop. */
  lemma PlacedCountAfterPlace(b: Board, pos: int, x: Piece, k: string)
    ensures PlacedCount(PlaceOn(b, pos, x), k)
         == PlacedCount(b, k) + (if !x.isStatic && PieceKey(x) == k then 1 else 0)
  {
    TotalAfterPlace(b, pos, x, PlacedKey(k));
    PartOfOne(pos, x, k);
  }

  /** The player-piece count under `k` after a removal. */
  lemma PlacedCountAfterTake(b: Board, pos: int, index: int, k: string)
    requires Removable(b, pos, index)
    ensures PlacedCount(TakeFrom(b, pos, index), k) + (if PieceKey(b[pos][index]) == k then 1 else 0)
         == PlacedCount(b, k)
  {
    TotalAfterTake(b, pos, index, PlacedKey(k));
    PartOfOne(pos, b[pos][index], k);
  }

  /** A drop into a cell open to the player keeps the layout. */
  lemma LayoutAfterPlace(avail: seq<int>, sb: Board, b: Board, pos: int, x: Piece)
    requires Layout(avail, sb, b) && pos in avail && !x.isStatic
    ensures Layout(avail, sb, PlaceOn(b, pos, x))
  {
    var b': Board := PlaceOn(b, pos, x);
    forall p, i | p in b' && 0 <= i < |b'[p]| ensures (b'[p][i].isStatic <==> p in sb && i == 0) {
      if p == pos && i == |Cell(b, pos)| {
        assert b'[p][i] == x;
      } else if p == pos {
        assert b'[p][i] == b[p][i];
      }
    }
  }

  /** A drop the guard admits keeps both invariants, with the item's key bumped. */
  lemma PlacePreserves(lv: Level, b: Board, u: Usage, pos: int, item: Template)
    requires BoardInvariant(lv, b) && UsageInvariant(lv, b, u)
    requires Admits(lv, u, pos, item)
    ensures BoardInvariant(lv, PlaceOn(b, pos, Instantiate(item)))
    ensures UsageInvariant(lv, PlaceOn(b, pos, Instantiate(item)), Bump(u, TemplateKey(item)))
  {
    var x := Instantiate(item);
    var b': Board, u': Usage := PlaceOn(b, pos, x), Bump(u, TemplateKey(item));
    LayoutAfterPlace(lv.availableCells, StaticBoard(lv.staticObjects), b, pos, x);
    forall k ensures Used(u', k) == PlacedCount(b', k) {
      PlacedCountAfterPlace(b, pos, x, k);
    }
  }

  /** Taking out a player piece keeps the layout. */
  lemma LayoutAfterTake(avail: seq<int>, sb: Board, b: Board, pos: int, index: int)
    requires Layout(avail, sb, b) && Removable(b, pos, index)
    ensures Layout(avail, sb, TakeFrom(b, pos, index))
  {
    var b': Board := TakeFrom(b, pos, index);
    assert index != 0 || pos !in sb;
    forall p | p in sb ensures p in b' && b'[p][0] == sb[p][0] {
      if p == pos {
        assert b'[p][0] == b[p][0];
      }
    }
  }

  /** A removal keeps both invariants, and the counter goes down by exactly one:
      the floor at 0 is never needed. */
  lemma TakePreserves(lv: Level, b: Board, u: Usage, pos: int, index: int)
    requires BoardInvariant(lv, b) && UsageInvariant(lv, b, u)
    requires Removable(b, pos, index)
    ensures BoardInvariant(lv, TakeFrom(b, pos, index))
    ensures UsageInvariant(lv, TakeFrom(b, pos, index), Release(u, PieceKey(b[pos][index])))
    ensures Used(u, PieceKey(b[pos][index])) > 0
  {
    var key := PieceKey(b[pos][index]);
    var b': Board, u': Usage := TakeFrom(b, pos, index), Release(u, key);
    LayoutAfterTake(lv.availableCells, StaticBoard(lv.staticObjects), b, pos, index);
    PlacedCountAfterTake(b, pos, index, key);
    forall k ensures Used(u', k) == PlacedCount(b', k) {
      PlacedCountAfterTake(b, pos, index, k);
    }
  }

  /** Dropping a piece and then taking out the last piece of that cell restores the
      board exactly and the counter up to absent keys counting as 0. */
  lemma PlaceTakeRoundTrip(b: Board, u: Usage, pos: int, item: Template)
    requires pos in b ==> b[pos] != []
    ensures Removable(PlaceOn(b, pos, Instantiate(item)), pos, |Cell(b, pos)|)
    ensures TakeFrom(PlaceOn(b, pos, Instantiate(item)), pos, |Cell(b, pos)|) == b
    ensures PieceKey(PlaceOn(b, pos, Instantiate(item))[pos][|Cell(b, pos)|]) == TemplateKey(item)
    ensures forall k :: Used(Release(Bump(u, TemplateKey(item)), TemplateKey(item)), k) == Used(u, k)
  {
    var x := Instantiate(item);
    var b' := PlaceOn(b, pos, x);
    var n := |Cell(b, pos)|;
    assert Without(b'[pos], n) == Cell(b, pos);
    var r := TakeFrom(b', pos, n);
    if pos in b {
      assert r.Keys == b.Keys;
    } else {
      assert r.Keys == b.Keys;
    }
  }

  /** How a drop moves the balance: the piece adds weight times distance to its side,
      and the board then has a player piece. */
  lemma MomentsAfterPlace(b: Board, pos: int, x: Piece)
    ensures BalanceOf(PlaceOn(b, pos, x)).leftMoment
         == BalanceOf(b).leftMoment + (if pos < 0 then Abs(pos) * x.weight else 0)
    ensures BalanceOf(PlaceOn(b, pos, x)).rightMoment
         == BalanceOf(b).rightMoment + (if pos > 0 then Abs(pos) * x.weight else 0)
    ensures BalanceOf(PlaceOn(b, pos, x)).hasUserPieces == (BalanceOf(b).hasUserPieces || !x.isStatic)
  {
    TotalAfterPlace(b, pos, x, LeftSide);
    TotalAfterPlace(b, pos, x, RightSide);
    PartOfOne(pos, x, "");
    UserPiecesAfterPlace(b, pos, x);
  }

  lemma UserPiecesAfterPlace(b: Board, pos: int, x: Piece)
    ensures HasUserPieces(PlaceOn(b, pos, x)) == (HasUserPieces(b) || !x.isStatic)
  {
    var b' := PlaceOn(b, pos, x);
    var c := Cell(b, pos);
    assert b'[pos][|c|] == x;
    if HasUser(b'[pos]) {
      var i :| 0 <= i < |b'[pos]| && !b'[pos][i].isStatic;
      if i < |c| {
        assert c[i] == b'[pos][i];
      }
    }
    if HasUser(c) {
      var i :| 0 <= i < |c| && !c[i].isStatic;
      assert b'[pos][i] == c[i];
    }
    assert HasUser(b'[pos]) == (HasUser(c) || !x.isStatic);
    if HasUserPieces(b) {
      var p :| p in b && HasUser(b[p]);
      assert HasUser(b'[p]);
    }
  }

  /** How a removal moves the balance: the piece's weight times distance leaves its side. */
  lemma MomentsAfterTake(b: Board, pos: int, index: int)
    requires Removable(b, pos, index)
    ensures BalanceOf(TakeFrom(b, pos, index)).leftMoment + (if pos < 0 then Abs(pos) * b[pos][index].weight else 0)
         == BalanceOf(b).leftMoment
    ensures BalanceOf(TakeFrom(b, pos, index)).rightMoment + (if pos > 0 then Abs(pos) * b[pos][index].weight else 0)
         == BalanceOf(b).rightMoment
  {
    TotalAfterTake(b, pos, index, LeftSide);
    TotalAfterTake(b, pos, index, RightSide);
    PartOfOne(pos, b[pos][index], "");
  }
}
