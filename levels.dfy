/** The five built-in levels and the inventory lookup used when a piece is dropped. */
module Levels {
  import opened Pieces

  datatype Option<T> = None | Some(value: T)

  /** A level: fixed pieces, the inventory the player draws from, and the cells a
      player piece may be dropped into. Title, description and hint are display-only. */
  datatype Level = Level(staticObjects: seq<StaticObject>, inventory: seq<Template>, availableCells: seq<int>)

  function SmallCircle(count: nat): Template { Template("c1", Circle, Small, 1, count) }
  function MediumCircle(count: nat): Template { Template("c2", Circle, Medium, 2, count) }
  function LargeCircle(count: nat): Template { Template("c3", Circle, Large, 3, count) }

  /** No two inventory entries share a key. */
  predicate DistinctKeys(inv: seq<Template>)
  {
    forall i, j :: 0 <= i < j < |inv| ==> TemplateKey(inv[i]) != TemplateKey(inv[j])
  }

  /** What the game relies on in its level data: nothing is ever placed on the fulcrum
      (position 0) and each inventory key names one entry. */
  predicate WellFormed(lv: Level)
  {
    && 0 !in lv.availableCells
    && (forall i :: 0 <= i < |lv.staticObjects| ==> lv.staticObjects[i].position != 0)
    && DistinctKeys(lv.inventory)
  }

  function AllLevels(): (ls: seq<Level>)
    ensures |ls| == 5
    ensures forall i :: 0 <= i < |ls| ==> WellFormed(ls[i])
  {
    [ // Level 1: the basics
      Level([StaticObject(Circle, Medium, 2, 2)],
            [SmallCircle(5), MediumCircle(3)],
            [-3, -2, -1, 1, 2, 3]),
      // Level 2: distance matters
      Level([StaticObject(Circle, Medium, 2, 3)],
            [SmallCircle(5), MediumCircle(3)],
            [-3, -2, -1, 1, 2, 3]),
      // Level 3: restricted cells
      Level([StaticObject(Circle, Medium, 2, 2)],
            [SmallCircle(5), MediumCircle(3)],
            [-3, -1, 1, 2, 3]),
      // Level 4: find the weight of the square
      Level([StaticObject(Square, Medium, 3, 2)],
            [SmallCircle(5), MediumCircle(3), LargeCircle(2)],
            [-3, -1, 1, 2, 3]),
      // Level 5: combinations in one cell
      Level([StaticObject(Square, Medium, 4, 2)],
            [SmallCircle(8), MediumCircle(4)],
            [-3, -2, -1, 1, 2, 3])
    ]
  }

  /** The first inventory entry whose key is `key`, if any. */
  function FindTemplate(inv: seq<Template>, key: string): (r: Option<Template>)
    ensures r.None? <==> forall i :: 0 <= i < |inv| ==> TemplateKey(inv[i]) != key
    ensures r.Some? ==> exists i :: 0 <= i < |inv| && inv[i] == r.value
                                 && TemplateKey(inv[i]) == key
                                 && forall j :: 0 <= j < i ==> TemplateKey(inv[j]) != key
  {
    if inv == [] then None
    else if TemplateKey(inv[0]) == key then Some(inv[0])
    else
      var r := FindTemplate(inv[1..], key);
      assert forall i :: 1 <= i < |inv| ==> inv[i] == inv[1..][i - 1];
      r
  }

  /** With distinct keys, looking an entry up by its own key finds that entry. */
  lemma FindOwnKey(inv: seq<Template>, i: nat)
    requires DistinctKeys(inv) && i < |inv|
    ensures FindTemplate(inv, TemplateKey(inv[i])) == Some(inv[i])
  {
    var r := FindTemplate(inv, TemplateKey(inv[i]));
    var j :| 0 <= j < |inv| && inv[j] == r.value && TemplateKey(inv[j]) == TemplateKey(inv[i])
             && forall j' :: 0 <= j' < j ==> TemplateKey(inv[j']) != TemplateKey(inv[i]);
    assert j == i;
  }
}
