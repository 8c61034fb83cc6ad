/** The two-dimensional vector value type of lib/vector2d.py.
    Components are Python floats in the source and exact reals here. */
module Vectors {
  import opened Wrappers

  datatype Vec = Vec(x: real, y: real)

  const Zero: Vec := Vec(0.0, 0.0)
  const PosOne: Vec := Vec(1.0, 1.0)
  const NegOne: Vec := Vec(-1.0, -1.0)

  /** The kinds of Python value that `coerce` is handed: a vector, a
      number, or a tuple/list of numbers. */
  datatype Operand = OfVec(v: Vec) | OfNum(n: real) | OfSeq(items: seq<real>)

  /** A vector with both components equal to `s`, which is what every
      number becomes when it meets a vector operator. */
  function Scalar(s: real): Vec {
    Vec(s, s)
  }

  /** The constructor `Vector2D(*args)`: `x` defaults to 0.0 and `y` to
      `x`; a third argument is a TypeError. */
  function New(args: seq<real>): (r: Option<Vec>)
    ensures r.Some? <==> |args| <= 2
    ensures |args| == 0 ==> r == Some(Zero)
    ensures |args| == 1 ==> r == Some(Scalar(args[0]))
    ensures |args| == 2 ==> r == Some(Vec(args[0], args[1]))
  {
    if |args| > 2 then None
    else
      var x := if |args| > 0 then args[0] else 0.0;
      Some(Vec(x, if |args| == 2 then args[1] else x))
  }

  /** `Vector2D.coerce`: a vector is returned as it is, a tuple or list
      is spread into the constructor, anything else `x` becomes (x, x). */
  function Coerce(o: Operand): (r: Option<Vec>)
    ensures o.OfVec? ==> r == Some(o.v)
    ensures o.OfNum? ==> r == Some(Vec(o.n, o.n))
    ensures o.OfSeq? ==> r == New(o.items)
    ensures r.None? <==> o.OfSeq? && |o.items| > 2
  {
    match o
    case OfVec(v) => Some(v)
    case OfSeq(items) => New(items)
    case OfNum(n) => Some(Scalar(n))
  }

  // The binary operators below take the right operand after `coerce`;
  // a number on the right is `Scalar(n)` (see ScalarOperand).

  function Plus(a: Vec, b: Vec): Vec {
    Vec(a.x + b.x, a.y + b.y)
  }

  function Minus(a: Vec, b: Vec): Vec {
    Vec(a.x - b.x, a.y - b.y)
  }

  /** `__mul__` is componentwise, so `v * 3` scales both components. */
  function Times(a: Vec, b: Vec): Vec {
    Vec(a.x * b.x, a.y * b.y)
  }

  /** `__truediv__`: Python raises ZeroDivisionError when either
      component of the divisor is zero; that is `None` here. */
  function Quotient(a: Vec, b: Vec): Option<Vec> {
    if b.x == 0.0 || b.y == 0.0 then None else Some(Vec(a.x / b.x, a.y / b.y))
  }

  function Negated(a: Vec): Vec {
    Vec(-a.x, -a.y)
  }

  function AbsReal(r: real): real {
    if r < 0.0 then -r else r
  }

  function Abs(a: Vec): Vec {
    Vec(AbsReal(a.x), AbsReal(a.y))
  }

  function Dot(a: Vec, b: Vec): real {
    a.x * b.x + a.y * b.y
  }

  /** `__bool__` as written: `not self.x and not self.y`. */
  predicate Truthy(a: Vec) {
    a.x == 0.0 && a.y == 0.0
  }

  /** The module-level `lerp`. */
  function Lerp(t: real, x0: real, x1: real): real {
    x0 * (1.0 - t) + x1 * t
  }

  /** `Vector2D.lerp`, after coercing both end points. */
  function LerpVec(t: real, x0: Vec, x1: Vec): Vec {
    Plus(Times(x0, Scalar(1.0 - t)), Times(x1, Scalar(t)))
  }

  /** `Vector2D.random(x0, x1, rand)`: `u` and `w` are the two values
      `rand.random()` returns, in that order. */
  function Random(x0: Vec, x1: Vec, u: real, w: real): Vec {
    Vec(Lerp(u, x0.x, x1.x), Lerp(w, x0.y, x1.y))
  }

  /** `t` lies on the closed segment between `a` and `b`. */
  predicate Between(t: real, a: real, b: real) {
    (a <= t <= b) || (b <= t <= a)
  }

  /** `v` lies in the closed axis-aligned box spanned by corners `a` and `b`. */
  predicate InBox(v: Vec, a: Vec, b: Vec) {
    Between(v.x, a.x, b.x) && Between(v.y, a.y, b.y)
  }

  lemma ScalarOperand(v: Vec, s: real)
    ensures Coerce(OfNum(s)) == Some(Scalar(s))
    ensures Times(v, Scalar(s)) == Vec(s * v.x, s * v.y)
    ensures Times(Scalar(s), v) == Times(v, Scalar(s))
  {
  }

  lemma PlusMinusInverse(a: Vec, b: Vec)
    ensures Minus(Plus(a, b), b) == a
    ensures Plus(Minus(a, b), b) == a
    ensures Minus(a, b) == Plus(a, Negated(b))
  {
  }

  lemma NegatedInvolutive(a: Vec)
    ensures Negated(Negated(a)) == a
    ensures Plus(a, Negated(a)) == Zero
  {
  }

  lemma AbsNonNegative(a: Vec)
    ensures Abs(a).x >= 0.0 && Abs(a).y >= 0.0
    ensures Abs(Negated(a)) == Abs(a)
    ensures Abs(a).x == a.x || Abs(a).x == -a.x
    ensures Abs(a).y == a.y || Abs(a).y == -a.y
  {
  }

  lemma DotSymmetric(a: Vec, b: Vec)
    ensures Dot(a, b) == Dot(b, a)
    ensures Dot(a, Scalar(1.0)) == a.x + a.y
  {
  }

  lemma DotSelf(a: Vec)
    ensures Dot(a, a) >= 0.0
    ensures Dot(a, Zero) == 0.0
  {
    SquareSign(a.x);
    SquareSign(a.y);
  }

  lemma SquareSign(r: real)
    ensures r * r >= 0.0
    ensures r != 0.0 ==> r * r > 0.0
  {
    if r < 0.0 {
      assert r * r == (-r) * (-r);
    }
  }

  /** Truthiness is inverted: only the zero vector is true. */
  lemma TruthyIffZero(a: Vec)
    ensures Truthy(a) <==> a == Zero
    ensures !Truthy(PosOne) && Truthy(New([]).value)
  {
  }

  lemma QuotientUndoesTimes(a: Vec, b: Vec)
    ensures Quotient(a, b).None? <==> b.x == 0.0 || b.y == 0.0
    ensures b.x != 0.0 && b.y != 0.0 ==> Quotient(Times(a, b), b) == Some(a)
  {
    if b.x != 0.0 && b.y != 0.0 {
      var q := Times(a, b);
      assert q.x / b.x == a.x;
      assert q.y / b.y == a.y;
      assert Quotient(q, b) == Some(Vec(q.x / b.x, q.y / b.y));
    }
  }

  lemma LerpEnds(x0: real, x1: real)
    ensures Lerp(0.0, x0, x1) == x0 && Lerp(1.0, x0, x1) == x1
  {
  }

  lemma LerpVecEnds(x0: Vec, x1: Vec)
    ensures LerpVec(0.0, x0, x1) == x0 && LerpVec(1.0, x0, x1) == x1
  {
  }

  /** For `t` in [0, 1], `lerp` stays between its end points. */
  lemma LerpBetween(t: real, a: real, b: real)
    requires 0.0 <= t <= 1.0
    ensures Between(Lerp(t, a, b), a, b)
  {
    assert Lerp(t, a, b) == a + t * (b - a);
    if a <= b {
      ProductBounds(t, b - a);
    } else {
      ProductBounds(t, a - b);
    }
  }

  lemma ProductBounds(t: real, d: real)
    requires 0.0 <= t <= 1.0 && 0.0 <= d
    ensures 0.0 <= t * d <= d
  {
    assert (1.0 - t) * d >= 0.0;
  }

  /** With draws from [0, 1), as `Random.random()` returns, every
      component of `random(x0, x1)` lies between those of `x0` and `x1`. */
  lemma RandomInBox(x0: Vec, x1: Vec, u: real, w: real)
    requires 0.0 <= u < 1.0 && 0.0 <= w < 1.0
    ensures InBox(Random(x0, x1, u, w), x0, x1)
    ensures InBox(Random(x0, x1, u, w), x1, x0)
  {
    LerpBetween(u, x0.x, x1.x);
    LerpBetween(w, x0.y, x1.y);
  }
}
