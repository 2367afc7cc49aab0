/** Pieces that can lie on the lever, the inventory templates they are copied from,
    and the key under which the inventory counts each kind of piece. */
module Pieces {

  datatype Shape = Circle | Square | Triangle

  datatype Size = Small | Medium | Large

  /** A piece on the beam. `id` is "" when the piece has no id (the level's static
      objects have none). Colour and the "unknown weight" flag are display-only. */
  datatype Piece = Piece(id: string, shape: Shape, size: Size, weight: nat, isStatic: bool)

  /** An inventory entry: a kind of piece the player may drop, at most `count` times. */
  datatype Template = Template(id: string, shape: Shape, size: Size, weight: nat, count: nat)

  /** A piece fixed by the level at `position`. */
  datatype StaticObject = StaticObject(shape: Shape, size: Size, weight: nat, position: int)

  function ShapeName(s: Shape): string
  {
    match s
    case Circle => "circle"
    case Square => "square"
    case Triangle => "triangle"
  }

  function SizeName(s: Size): string
  {
    match s
    case Small => "small"
    case Medium => "medium"
    case Large => "large"
  }

  /** The inventory key: the id when there is one, otherwise "type_size". */
  function ItemKey(id: string, shape: Shape, size: Size): (key: string)
    ensures key != ""
    ensures id != "" ==> key == id
  {
    if id != "" then id else ShapeName(shape) + "_" + SizeName(size)
  }

  /** Without an id, the key names the (type, size) pair: two id-less kinds share a
      key exactly when they have the same type and the same size. */
  lemma FallbackKeyInjective(s1: Shape, z1: Size, s2: Shape, z2: Size)
    ensures ItemKey("", s1, z1) == ItemKey("", s2, z2) <==> s1 == s2 && z1 == z2
  {
    var k1, k2 := ItemKey("", s1, z1), ItemKey("", s2, z2);
    if k1 == k2 {
      assert k1[0] == ShapeName(s1)[0] && k2[0] == ShapeName(s2)[0];
      var n := |ShapeName(s1)| + 1;
      assert k1[n] == SizeName(z1)[0] && k2[n] == SizeName(z2)[0];
    }
  }

  function PieceKey(p: Piece): string
  {
    ItemKey(p.id, p.shape, p.size)
  }

  function TemplateKey(t: Template): string
  {
    ItemKey(t.id, t.shape, t.size)
  }

  /** The piece a drop creates: a non-static copy of the template, counted under the
      template's own key for as long as it lies on the beam. */
  function Instantiate(t: Template): (p: Piece)
    ensures !p.isStatic
    ensures p.weight == t.weight && p.shape == t.shape && p.size == t.size
    ensures PieceKey(p) == TemplateKey(t)
  {
    Piece(t.id, t.shape, t.size, t.weight, false)
  }

  /** The piece a level's static object becomes on the beam. */
  function Pin(o: StaticObject): (p: Piece)
    ensures p.isStatic
    ensures p.weight == o.weight && p.shape == o.shape && p.size == o.size
  {
    Piece("", o.shape, o.size, o.weight, true)
  }
}
