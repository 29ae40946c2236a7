/**
  The game's two-component vector value type. Every operation builds a new
  value; `float` becomes `real`, so the algebra below is exact.
  The setters `setX`/`setY` are the datatype updates `v.(x := …)`, `v.(y := …)`.
*/
module Vector2 {

  datatype Vec2 = Vec2(x: real, y: real)

  const ZERO := Vec2(0.0, 0.0)

  function Abs(r: real): (a: real)
    ensures a >= 0.0 && (a == r || a == -r)
  {
    if r < 0.0 then -r else r
  }

  /** Componentwise sum. */
  function Add(v: Vec2, a: Vec2): Vec2
  {
    Vec2(v.x + a.x, v.y + a.y)
  }

  /** Componentwise difference; the y component is written `y + -a.y` in the game. */
  function Subtract(v: Vec2, a: Vec2): Vec2
  {
    Vec2(v.x - a.x, v.y + -a.y)
  }

  /** `multiply(scalar)`: scales both components. */
  function Multiply(v: Vec2, s: real): Vec2
  {
    Vec2(v.x * s, v.y * s)
  }

  /** `operator*(scalar)`: copies the vector, then scales each component in place. */
  function Scale(v: Vec2, s: real): Vec2
  {
    v.(x := v.x * s).(y := v.y * s)
  }

  /** `getScalar`: x·ax − y·ay. Its documentation calls it a dot product, but the
      y term carries a minus sign. */
  function Scalar(v: Vec2, a: Vec2): real
  {
    v.x * a.x - v.y * a.y
  }

  /** `getMagnitude`: sqrt(x·x) + y·y, which is |x| + y², not the Euclidean norm. */
  function Magnitude(v: Vec2): real
  {
    Abs(v.x) + v.y * v.y
  }

  /** `normalise`: divides both components by `Magnitude`, or gives the zero
      vector when the magnitude is exactly zero. */
  function Normalise(v: Vec2): Vec2
  {
    var len := Magnitude(v);
    if len != 0.0 then Vec2(v.x / len, v.y / len) else ZERO
  }

  /** The square of `getDistance`: (ax − x)² + (ay − y)². */
  function DistanceSquared(v: Vec2, a: Vec2): real
  {
    (a.x - v.x) * (a.x - v.x) + (a.y - v.y) * (a.y - v.y)
  }

  /** `getDistance`, with the square root supplied by the caller. */
  function Distance(v: Vec2, a: Vec2, sqrt: real -> real): real
  {
    sqrt(DistanceSquared(v, a))
  }

  // ---------------------------------------------------------------------
  // Properties

  lemma SubtractThenAdd(v: Vec2, a: Vec2)
    ensures Add(Subtract(v, a), a) == v
    ensures Subtract(Add(v, a), a) == v
  {
  }

  lemma SubtractIsAddNegated(v: Vec2, a: Vec2)
    ensures Subtract(v, a) == Add(v, Multiply(a, -1.0))
  {
  }

  /** `operator*` and `multiply` agree on every input. */
  lemma ScaleIsMultiply(v: Vec2, s: real)
    ensures Scale(v, s) == Multiply(v, s)
  {
  }

  lemma MultiplyIdentity(v: Vec2)
    ensures Multiply(v, 1.0) == v
    ensures Multiply(v, 0.0) == ZERO
  {
  }

  lemma MultiplyComposes(v: Vec2, s: real, t: real)
    ensures Multiply(Multiply(v, s), t) == Multiply(v, s * t)
  {
    assert (v.x * s) * t == v.x * (s * t);
    assert (v.y * s) * t == v.y * (s * t);
  }

  lemma ScalarSymmetric(v: Vec2, a: Vec2)
    ensures Scalar(v, a) == Scalar(a, v)
  {
  }

  /** The witness that `getScalar` is not the dot product: (0,1)·(0,1) is 1, but
      `Scalar` gives −1. In general it equals the dot product with `a` mirrored
      in the x axis. */
  lemma ScalarIsNotDot(v: Vec2, a: Vec2)
    ensures Scalar(Vec2(0.0, 1.0), Vec2(0.0, 1.0)) == -1.0
    ensures Scalar(v, a) == v.x * a.x + v.y * (-a.y)
  {
  }

  /** A non-zero real has a positive square. */
  lemma SquarePositive(r: real)
    ensures r != 0.0 ==> r * r > 0.0
  {
    if r > 0.0 {
      assert r * r > 0.0 * r;
    } else if r < 0.0 {
      assert (-r) * (-r) > 0.0 * (-r);
    }
  }

  /** Only zero squares to zero. */
  lemma SquareZeroOnlyAtZero(r: real)
    ensures r == 0.0 || r * r != 0.0
  {
    SquarePositive(r);
  }

  /** `getMagnitude` is never negative, is zero on the zero vector, positive
      whenever x is non-zero, and zero only when x is zero and y squares to zero. */
  lemma MagnitudeSign(v: Vec2)
    ensures Magnitude(v) >= 0.0
    ensures v == ZERO ==> Magnitude(v) == 0.0
    ensures v.x != 0.0 ==> Magnitude(v) > 0.0
    ensures Magnitude(v) == 0.0 ==> v.x == 0.0 && v.y * v.y == 0.0
  {
    SquarePositive(v.y);
  }

  /** The witness that `getMagnitude` is not the Euclidean norm: (0,2) has norm 2
      but magnitude 4, and (3,0) has magnitude 3. */
  lemma MagnitudeIsNotNorm()
    ensures Magnitude(Vec2(0.0, 2.0)) == 4.0
    ensures Magnitude(Vec2(-3.0, 0.0)) == 3.0
  {
  }

  /** `normalise` maps the zero vector to itself and a vector of non-zero
      magnitude to a non-zero vector; it keeps the sign of each component and the
      direction. */
  lemma NormaliseKeepsSigns(v: Vec2)
    ensures v == ZERO ==> Normalise(v) == ZERO
    ensures Magnitude(v) != 0.0 ==> Normalise(v) != ZERO
    ensures v.x > 0.0 <==> Normalise(v).x > 0.0
    ensures v.x < 0.0 <==> Normalise(v).x < 0.0
    ensures Magnitude(v) != 0.0 ==> (v.y > 0.0 <==> Normalise(v).y > 0.0)
    ensures Magnitude(v) != 0.0 ==> (v.y < 0.0 <==> Normalise(v).y < 0.0)
    ensures Normalise(v).x * v.y == Normalise(v).y * v.x
  {
    MagnitudeSign(v);
    var len := Magnitude(v);
    if len != 0.0 {
      assert len > 0.0;
      var r := Normalise(v);
      assert r.x * len == v.x;
      assert r.y * len == v.y;
      assert r.x * v.y == r.x * (r.y * len);
      assert r.y * v.x == r.y * (r.x * len);
    }
  }

  /** On a vector with no y component, `normalise` does give a unit vector. */
  lemma NormaliseOnXAxis(v: Vec2)
    requires v.y == 0.0 && v.x != 0.0
    ensures Normalise(v) == Vec2(if v.x > 0.0 then 1.0 else -1.0, 0.0)
  {
    assert Magnitude(v) == Abs(v.x);
    if v.x > 0.0 {
      assert v.x / v.x == 1.0;
    } else {
      assert v.x / -v.x == -1.0;
    }
  }

  /** The squared distance is symmetric, never negative, zero between equal
      points and positive between points whose x coordinates differ. */
  lemma DistanceSquaredProperties(v: Vec2, a: Vec2)
    ensures DistanceSquared(v, a) == DistanceSquared(a, v)
    ensures DistanceSquared(v, a) >= 0.0
    ensures v == a ==> DistanceSquared(v, a) == 0.0
    ensures DistanceSquared(v, a) == 0.0 ==>
              (a.x - v.x) * (a.x - v.x) == 0.0 && (a.y - v.y) * (a.y - v.y) == 0.0
  {
    SquarePositive(a.x - v.x);
    SquarePositive(a.y - v.y);
    assert (a.x - v.x) * (a.x - v.x) == (v.x - a.x) * (v.x - a.x);
    assert (a.y - v.y) * (a.y - v.y) == (v.y - a.y) * (v.y - a.y);
  }

  /** `getDistance` is symmetric whatever square root is used, and a point is at
      distance zero from itself whenever the root of zero is zero. */
  lemma DistanceSymmetric(v: Vec2, a: Vec2, sqrt: real -> real)
    ensures Distance(v, a, sqrt) == Distance(a, v, sqrt)
    ensures sqrt(0.0) == 0.0 ==> Distance(v, v, sqrt) == 0.0
  {
    DistanceSquaredProperties(v, a);
    DistanceSquaredProperties(v, v);
  }
}
