/** Affine transformations of the PDF imaging model (ISO 32000-1, section 8.3.4):
    `Matrix(a, b, c, d, e, f)` maps (x, y) to (a*x + c*y + e, b*x + d*y + f).
    Entries are reals; rounding is not modelled. */
module Matrices {

  datatype Matrix = Matrix(a: real, b: real, c: real, d: real, e: real, f: real)

  const IDENTITY := Matrix(1.0, 0.0, 0.0, 1.0, 0.0, 0.0)

  /** Compose two transformations: `m1` is applied first, then `m2`. */
  function MatMul(m1: Matrix, m2: Matrix): Matrix {
    Matrix(
      m1.a * m2.a + m1.b * m2.c,
      m1.a * m2.b + m1.b * m2.d,
      m1.c * m2.a + m1.d * m2.c,
      m1.c * m2.b + m1.d * m2.d,
      m1.e * m2.a + m1.f * m2.c + m2.e,
      m1.e * m2.b + m1.f * m2.d + m2.f)
  }

  /** Image of the point (x, y). */
  function Apply(m: Matrix, x: real, y: real): (real, real) {
    (m.a * x + m.c * y + m.e, m.b * x + m.d * y + m.f)
  }

  function Det(m: Matrix): real {
    m.a * m.d - m.b * m.c
  }

  function Abs(x: real): real {
    if x < 0.0 then -x else x
  }

  function Min(x: real, y: real): real {
    if y < x then y else x
  }

  function Max(x: real, y: real): real {
    if y > x then y else x
  }

  /** `s` is the average scale factor of `m`: the non-negative root of |det m|. */
  ghost predicate IsScale(m: Matrix, s: real) {
    0.0 <= s && s * s == Abs(Det(m))
  }

  lemma Distribute(x: real, y: real, z: real)
    ensures (x + y) * z == x * z + y * z
  {
  }

  lemma MulIdentity(m: Matrix)
    ensures MatMul(m, IDENTITY) == m && MatMul(IDENTITY, m) == m
  {
  }

  /** The product acts on points as "first `m1`, then `m2`". */
  lemma MulActsInOrder(m1: Matrix, m2: Matrix, x: real, y: real)
    ensures Apply(MatMul(m1, m2), x, y) == Apply(m2, Apply(m1, x, y).0, Apply(m1, x, y).1)
  {
    MulFirstCoordinate(m1, m2, x, y);
    MulSecondCoordinate(m1, m2, x, y);
  }

  lemma MulFirstCoordinate(m1: Matrix, m2: Matrix, x: real, y: real)
    ensures Apply(MatMul(m1, m2), x, y).0 == Apply(m2, Apply(m1, x, y).0, Apply(m1, x, y).1).0
  {
    Coordinate(m1.a, m1.b, m1.c, m1.d, m1.e, m1.f, m2.a, m2.c, m2.e, x, y);
  }

  lemma MulSecondCoordinate(m1: Matrix, m2: Matrix, x: real, y: real)
    ensures Apply(MatMul(m1, m2), x, y).1 == Apply(m2, Apply(m1, x, y).0, Apply(m1, x, y).1).1
  {
    Coordinate(m1.a, m1.b, m1.c, m1.d, m1.e, m1.f, m2.b, m2.d, m2.f, x, y);
  }

  /** One coordinate of the composed action, for a column (p, q, r) of the second matrix. */
  lemma Coordinate(a: real, b: real, c: real, d: real, e: real, f: real,
                   p: real, q: real, r: real, x: real, y: real)
    ensures (a * p + b * q) * x + (c * p + d * q) * y + (e * p + f * q + r)
         == p * (a * x + c * y + e) + q * (b * x + d * y + f) + r
  {
    assert p * (a * x + c * y + e) == a * p * x + c * p * y + e * p;
    assert q * (b * x + d * y + f) == b * q * x + d * q * y + f * q;
    Distribute(a * p, b * q, x);
    Distribute(c * p, d * q, y);
  }

  /** A matrix is determined by its action on points, so the law above pins the product down. */
  lemma ActionDeterminesMatrix(m: Matrix, n: Matrix)
    requires forall x: real, y: real :: Apply(m, x, y) == Apply(n, x, y)
    ensures m == n
  {
    assert Apply(m, 0.0, 0.0) == Apply(n, 0.0, 0.0);
    assert Apply(m, 1.0, 0.0) == Apply(n, 1.0, 0.0);
    assert Apply(m, 0.0, 1.0) == Apply(n, 0.0, 1.0);
  }

  /** Composition of actions is associative, hence so is the product. */
  lemma MulAssociative(m1: Matrix, m2: Matrix, m3: Matrix)
    ensures MatMul(MatMul(m1, m2), m3) == MatMul(m1, MatMul(m2, m3))
  {
    hide Apply, MatMul;
    forall x: real, y: real
      ensures Apply(MatMul(MatMul(m1, m2), m3), x, y) == Apply(MatMul(m1, MatMul(m2, m3)), x, y)
    {
      var p := Apply(m1, x, y);
      MulActsInOrder(MatMul(m1, m2), m3, x, y);
      MulActsInOrder(m1, m2, x, y);
      MulActsInOrder(m1, MatMul(m2, m3), x, y);
      MulActsInOrder(m2, m3, p.0, p.1);
    }
    ActionDeterminesMatrix(MatMul(MatMul(m1, m2), m3), MatMul(m1, MatMul(m2, m3)));
  }

  lemma DetMultiplies(m1: Matrix, m2: Matrix)
    ensures Det(MatMul(m1, m2)) == Det(m1) * Det(m2)
  {
    var a1, b1, c1, d1 := m1.a, m1.b, m1.c, m1.d;
    var a2, b2, c2, d2 := m2.a, m2.b, m2.c, m2.d;
    assert (a1 * a2 + b1 * c2) * (c1 * b2 + d1 * d2)
        == a1 * c1 * a2 * b2 + a1 * d1 * a2 * d2 + b1 * c1 * c2 * b2 + b1 * d1 * c2 * d2;
    assert (a1 * b2 + b1 * d2) * (c1 * a2 + d1 * c2)
        == a1 * c1 * a2 * b2 + a1 * d1 * b2 * c2 + b1 * c1 * d2 * a2 + b1 * d1 * c2 * d2;
    assert (a1 * d1 - b1 * c1) * (a2 * d2 - b2 * c2)
        == a1 * d1 * a2 * d2 - a1 * d1 * b2 * c2 - b1 * c1 * a2 * d2 + b1 * c1 * b2 * c2;
  }

  /** Scale factors compose: a nested font or image scales by the product. */
  lemma ScaleComposes(m1: Matrix, s1: real, m2: Matrix, s2: real)
    requires IsScale(m1, s1) && IsScale(m2, s2)
    ensures IsScale(MatMul(m1, m2), s1 * s2)
  {
    DetMultiplies(m1, m2);
    AbsMultiplies(Det(m1), Det(m2));
    assert (s1 * s2) * (s1 * s2) == (s1 * s1) * (s2 * s2);
  }

  lemma AbsMultiplies(x: real, y: real)
    ensures Abs(x * y) == Abs(x) * Abs(y)
  {
    if x < 0.0 && y < 0.0 { assert x * y == (-x) * (-y); assert x * y >= 0.0; }
    else if x < 0.0 { assert x * y == -((-x) * y); assert (-x) * y >= 0.0; }
    else if y < 0.0 { assert x * y == -(x * (-y)); assert x * (-y) >= 0.0; }
    else { assert x * y >= 0.0; }
  }

  /** The scale factor is unique, so `IsScale` describes a function of the matrix. */
  lemma ScaleUnique(m: Matrix, s: real, t: real)
    requires IsScale(m, s) && IsScale(m, t)
    ensures s == t
  {
    var u, v := s - t, s + t;
    assert u * v == s * s - t * t == 0.0;
    if v > 0.0 && u != 0.0 {
      NonZeroProduct(u, v);
    }
  }

  lemma NonZeroProduct(x: real, y: real)
    requires x != 0.0 && y > 0.0
    ensures x * y != 0.0
  {
    if x > 0.0 { assert x * y > 0.0; } else { assert (-x) * y > 0.0; assert x * y == -((-x) * y); }
  }
}
