/** The rectangle geometry and sprite of lib/sprite.py. Colours and
    drawing are not modelled. */
module Sprites {
  import opened Vectors

  /** Half of a size, as `size * 0.5`. */
  function Half(size: Vec): Vec {
    Times(size, Scalar(0.5))
  }

  /** An axis-aligned rectangle whose `pos` is its top-left corner. */
  class Rect {
    var pos: Vec
    var size: Vec

    constructor (pos: Vec, size: Vec)
      ensures this.pos == pos && this.size == size
    {
      this.pos := pos;
      this.size := size;
    }

    function Width(): real reads this { size.x }
    function Height(): real reads this { size.y }
    function Left(): real reads this { pos.x }
    function Top(): real reads this { pos.y }

    function Right(): (r: real)
      reads this
      ensures r == Left() + Width()
    {
      pos.x + size.x
    }

    function Bottom(): (r: real)
      reads this
      ensures r == Top() + Height()
    {
      pos.y + size.y
    }

    /** `center`: the corner moved by half the size, which lies midway
        between the edges. */
    function Center(): (c: Vec)
      reads this
      ensures c.x - Left() == Right() - c.x
      ensures c.y - Top() == Bottom() - c.y
    {
      Plus(pos, Half(size))
    }

    /** `contains`: half-open on both axes, so the left and top edges
        belong to the rectangle and the right and bottom edges do not. */
    predicate Contains(v: Vec)
      reads this
      ensures Contains(v) ==> v.x != Right() && v.y != Bottom()
      ensures Width() <= 0.0 || Height() <= 0.0 ==> !Contains(v)
    {
      Left() <= v.x && v.x < Right() && Top() <= v.y && v.y < Bottom()
    }

    function AsTuple(): (t: (real, real, real, real))
      reads this
      ensures t.0 == Left() && t.1 == Top() && t.2 == Width() && t.3 == Height()
      ensures t.0 + t.2 == Right() && t.1 + t.3 == Bottom()
    {
      (pos.x, pos.y, size.x, size.y)
    }

    /** `centered()`: a new rectangle of the same size whose center is
        this rectangle's corner. */
    method Centered() returns (r: Rect)
      ensures fresh(r)
      ensures r.size == size && r.pos == Minus(pos, Half(size))
      ensures r.Center() == pos
    {
      var half := Times(size, Scalar(0.5));
      r := new Rect(Minus(pos, half), size);
      PlusMinusInverse(pos, half);
    }

    /** `move(d)`: shifts this rectangle in place and returns it. */
    method Move(d: Vec) returns (r: Rect)
      modifies this`pos
      ensures r == this
      ensures pos == Plus(old(pos), d) && size == old(size)
      ensures Center() == Plus(old(Center()), d)
      ensures forall v :: old(Contains(v)) <==> Contains(Plus(v, d))
    {
      pos := Plus(pos, d);
      r := this;
    }
  }

  /** A coloured box drawn centered on `pos`; only its geometry is modelled. */
  class Sprite {
    var pos: Vec
    var size: Vec

    constructor (size: Vec)
      ensures pos == Zero && this.size == size
    {
      pos := Vec(0.0, 0.0);
      this.size := size;
    }

    /** The `rect` property: a new rectangle of the sprite's size centered
        on the sprite's position. */
    method GetRect() returns (r: Rect)
      ensures fresh(r)
      ensures r.size == size && r.Center() == pos
      ensures r.pos == Minus(pos, Half(size))
    {
      var box := new Rect(pos, size);
      r := box.Centered();
    }
  }

  /** A rectangle with positive width and height contains its center. */
  lemma ContainsCenter(r: Rect)
    requires r.Width() > 0.0 && r.Height() > 0.0
    ensures r.Contains(r.Center())
    ensures r.Contains(r.pos)
  {
  }
}
