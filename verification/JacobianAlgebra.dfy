/**
 The algebra behind the Jacobian routines: each of them computes, for a suitable z, the triple
 (x3 * z^2, y3 * z^3, z) of the chord-and-tangent sum (x3, y3).
 */
module JacobianAlgebra {
  import opened Congruence
  import opened Power
  import opened Curve

  /** (x, y, z) are Jacobian coordinates of the finite point p. */
  ghost predicate Stands(x: int, y: int, z: int, p: Point) {
    exists w {:trigger Key((x, y, z, p), w)} ::
      Key((x, y, z, p), w) && forall u {:trigger Lock((x, y, z, p), u)} :: Lock((x, y, z, p), u) ==>
          StandsFor(x, y, z, p)
  }

  ghost predicate StandsFor(x: int, y: int, z: int, p: Point) {
    p.Affine? && !Cong(z, 0) && Cong(x, p.x * (z * z)) && Cong(y, p.y * (z * z * z))
  }

  lemma StandsMeaning(x: int, y: int, z: int, p: Point)
    ensures Stands(x, y, z, p) <==> StandsFor(x, y, z, p)
  {
    assert Lock((x, y, z, p), 0) && Key((x, y, z, p), 0);
  }

  /**
   The common end of all addition and doubling routines: with R = l*Z, M = a*Z^2, N = (c-a)*Z^2 and
   T = b*Z^3, the values R^2-N-2M and R*(M-X)-T are the coordinates of the third point.
   */
  lemma ThirdCoordinates(l: int, a: int, b: int, c: int, x3: int, y3: int, z: int, r: int, m: int, n: int, t: int,
          x: int, y: int)
    requires ThirdPoint(l, a, b, c, x3, y3)
    requires Cong(r, l * z) && Cong(m, a * (z * z)) && Cong(n, (c - a) * (z * z)) && Cong(t, b * (z * z * z))
    requires Cong(x, r * r - n - 2 * m) && Cong(y, r * (m - x) - t)
    ensures Cong(x, x3 * (z * z)) && Cong(y, y3 * (z * z * z))
  {
    var zz := z * z;
    // x
    CongMul(r, l * z, r, l * z);
    CongSub(r * r, l * z * (l * z), n, (c - a) * zz);
    CongScale(2, m, a * zz);
    CongSub(r * r - n, l * z * (l * z) - (c - a) * zz, 2 * m, 2 * (a * zz));
    CongTrans(x, r * r - n - 2 * m, l * z * (l * z) - (c - a) * zz - 2 * (a * zz));
    FactorX(l, a, c, z);
    CongRefl(zz);
    CongMul(x3, l * l - a - c, zz, zz);
    CongSym(x3 * zz, (l * l - a - c) * zz);
    CongTrans(x, (l * l - a - c) * zz, x3 * zz);
    // y
    CongSub(m, a * zz, x, x3 * zz);
    CongMul(r, l * z, m - x, a * zz - x3 * zz);
    CongSub(r * (m - x), l * z * (a * zz - x3 * zz), t, b * (z * z * z));
    CongTrans(y, r * (m - x) - t, l * z * (a * zz - x3 * zz) - b * (z * z * z));
    FactorY(l, a, b, x3, z);
    CongRefl(z * z * z);
    CongMul(y3, l * (a - x3) - b, z * z * z, z * z * z);
    CongSym(y3 * (z * z * z), (l * (a - x3) - b) * (z * z * z));
    CongTrans(y, (l * (a - x3) - b) * (z * z * z), y3 * (z * z * z));
  }

  lemma FactorX(l: int, a: int, c: int, z: int)
    ensures l * z * (l * z) - (c - a) * (z * z) - 2 * (a * (z * z)) == (l * l - a - c) * (z * z)
  {
  }

  lemma FactorY(l: int, a: int, b: int, x3: int, z: int)
    ensures l * z * (a * (z * z) - x3 * (z * z)) - b * (z * z * z) == (l * (a - x3) - b) * (z * z * z)
  {
  }

  lemma NonzeroProduct(x: int, y: int)
    requires Fermat() && !Cong(x, 0) && !Cong(y, 0)
    ensures !Cong(x * y, 0)
  {
    if Cong(x * y, 0) {
      assert x * 0 == 0;
      Cancel(x, y, 0);
    }
  }

  // ----------------------------------------------------------------- doubling

  /** The values doubleGeneric computes, as integers. */
  ghost function DoubleD(x: int, y: int): int {
    2 * (-(x * x + y * y * (y * y)) + (y * y + x) * (y * y + x))
  }

  ghost function DoubleX(x: int, y: int): int {
    -(2 * DoubleD(x, y)) + 3 * (x * x) * (3 * (x * x))
  }

  ghost function DoubleY(x: int, y: int): int {
    -(8 * (y * y * (y * y))) + (-DoubleX(x, y) + DoubleD(x, y)) * (3 * (x * x))
  }

  lemma DoubleExact(a: int, b: int, z: int, x: int, y: int, w: int)
    requires x == a * (z * z) && y == b * (z * z * z) && w == 2 * (y * z)
    ensures DoubleD(x, y) == a * (w * w)
    ensures 8 * (y * y * (y * y)) == b * (w * w * w)
  {
    Expand(x, y * y);
    Doubled(a, b, y, z);
  }

  /** The square and the cube of the doubled product, regrouped. */
  lemma Doubled(a: int, b: int, y: int, z: int)
    ensures 4 * (a * (z * z)) * (y * y) == a * (2 * (y * z) * (2 * (y * z)))
    ensures 8 * (y * (b * (z * z * z)) * (y * y)) == b * (2 * (y * z) * (2 * (y * z)) * (2 * (y * z)))
  {
    var q := y * z;
    Grouped(y, z);
    assert 4 * (a * (z * z)) * (y * y) == 4 * (a * (q * q));
    assert 8 * (y * (b * (z * z * z)) * (y * y)) == 8 * (b * (q * q * q));
    TwiceAll(a, b, q);
  }

  lemma Grouped(y: int, z: int)
    ensures z * z * (y * y) == y * z * (y * z)
    ensures z * z * z * (y * y * y) == y * z * (y * z) * (y * z)
  {
  }

  lemma TwiceAll(a: int, b: int, q: int)
    ensures a * (2 * q * (2 * q)) == 4 * (a * (q * q))
    ensures b * (2 * q * (2 * q) * (2 * q)) == 8 * (b * (q * q * q))
  {
  }

  lemma Expand(x: int, b: int)
    ensures 2 * (-(x * x + b * b) + (b + x) * (b + x)) == 4 * x * b
  {
  }

  lemma DoubleSlope(a: int, b: int, z: int, l: int, x: int, y: int, w: int)
    requires x == a * (z * z) && y == b * (z * z * z) && w == 2 * (y * z)
    requires Cong(l * (2 * b), 3 * (a * a))
    ensures Cong(3 * (x * x), l * w)
  {
    var t := z * z * z * z;
    CongScale(t, l * (2 * b), 3 * (a * a));
    assert t * (3 * (a * a)) == 3 * (x * x);
    assert t * (l * (2 * b)) == l * w;
    CongSym(l * w, 3 * (x * x));
  }

  /** Doubling gives coordinates of the tangent's third point. */
  lemma DoubleStands(p: Point, s: Point, z: int, x: int, y: int, w: int)
    requires Fermat() && OnCurve(p) && p.Affine? && p.y != 0 && IsSum(p, p, s) && !Cong(z, 0)
    requires x == p.x * (z * z) && y == p.y * (z * z * z) && w == 2 * (y * z)
    ensures StandsFor(DoubleX(x, y), DoubleY(x, y), w, s)
  {
    SumMeaning(p, p, s);
    var l :| Key((p, p, s), l) && Slope(l, p, p) && ThirdPoint(l, p.x, p.y, p.x, s.x, s.y);
    DoubleExact(p.x, p.y, z, x, y, w);
    DoubleSlope(p.x, p.y, z, l, x, y, w);
    DoubleNonzero(p.y, z, y, w);
    var r, m, t := 3 * (x * x), DoubleD(x, y), 8 * (y * y * (y * y));
    assert (p.x - p.x) * (w * w) == 0;
    CongRefl(m);
    CongRefl(0);
    CongRefl(t);
    CongRefl(DoubleX(x, y));
    assert DoubleX(x, y) == r * r - 0 - 2 * m;
    CongRefl(DoubleY(x, y));
    assert DoubleY(x, y) == r * (m - DoubleX(x, y)) - t;
    ThirdCoordinates(l, p.x, p.y, p.x, s.x, s.y, w, r, m, 0, t, DoubleX(x, y), DoubleY(x, y));
  }

  lemma DoubleNonzero(b: int, z: int, y: int, w: int)
    requires Fermat() && 0 < b < P && !Cong(z, 0) && y == b * (z * z * z) && w == 2 * (y * z)
    ensures !Cong(w, 0)
  {
    TwiceNonzero(b);
    NonzeroProduct(z, z);
    NonzeroProduct(z * z, z * z);
    NonzeroProduct(2 * b, z * z * (z * z));
    assert 2 * b * (z * z * (z * z)) == w;
  }

  // ----------------------------------------------------------------- addition

  /** X3 = r^2 - J - 2*V with J = 4*h^3 and V = 4*u*h^2. */
  ghost function AddX(u: int, h: int, r: int): int {
    r * r - h * (4 * (h * h)) - 2 * (u * (4 * (h * h)))
  }

  /** Y3 = r*(V - X3) - 2*s*J. */
  ghost function AddY(u: int, s: int, h: int, r: int): int {
    r * (u * (4 * (h * h)) - AddX(u, h, r)) - 2 * (s * (h * (4 * (h * h))))
  }

  /**
   With like terms u = x1*w^2, s = y1*w^3, h = (x2-x1)*w^2 and r = 2*(y2-y1)*w^3, the formulas
   give coordinates of the chord's third point with z = 2*w*h.
   */
  lemma ChordStands(p: Point, q: Point, t: Point, w: int, u: int, s: int, h: int, r: int, z: int)
    requires Fermat() && OnCurve(p) && OnCurve(q) && p.Affine? && q.Affine? && p.x != q.x && IsSum(p, q, t)
    requires !Cong(w, 0) && u == p.x * (w * w) && s == p.y * (w * w * w)
    requires h == (q.x - p.x) * (w * w) && r == 2 * ((q.y - p.y) * (w * w * w)) && z == 2 * (w * h)
    ensures StandsFor(AddX(u, h, r), AddY(u, s, h, r), z, t)
  {
    SumMeaning(p, q, t);
    var l :| Key((p, q, t), l) && Slope(l, p, q) && ThirdPoint(l, p.x, p.y, q.x, t.x, t.y);
    var m, n, k := u * (4 * (h * h)), h * (4 * (h * h)), 2 * (s * (h * (4 * (h * h))));
    ChordExact(p.x, p.y, q.x, w, u, s, h, z);
    ChordSlope(p.x, q.x, q.y - p.y, l, w, h, r, z);
    ChordNonzero(q.x, p.x, w, h, z);
    CongRefl(m);
    CongRefl(n);
    CongRefl(k);
    CongRefl(AddX(u, h, r));
    CongRefl(AddY(u, s, h, r));
    ThirdCoordinates(l, p.x, p.y, q.x, t.x, t.y, z, r, m, n, k, AddX(u, h, r), AddY(u, s, h, r));
  }

  lemma ChordExact(a: int, b: int, c: int, w: int, u: int, s: int, h: int, z: int)
    requires u == a * (w * w) && s == b * (w * w * w) && h == (c - a) * (w * w) && z == 2 * (w * h)
    ensures u * (4 * (h * h)) == a * (z * z)
    ensures h * (4 * (h * h)) == (c - a) * (z * z)
    ensures 2 * (s * (h * (4 * (h * h)))) == b * (z * z * z)
  {
    var wh := w * h;
    assert a * (2 * wh * (2 * wh)) == a * (w * w) * (4 * (h * h));
    assert (c - a) * (2 * wh * (2 * wh)) == (c - a) * (w * w) * (4 * (h * h));
    assert b * (2 * wh * (2 * wh) * (2 * wh)) == 2 * (b * (w * w * w) * (h * (4 * (h * h))));
  }

  lemma ChordSlope(a: int, c: int, e: int, l: int, w: int, h: int, r: int, z: int)
    requires h == (c - a) * (w * w) && r == 2 * (e * (w * w * w)) && z == 2 * (w * h) && Cong(l * (c - a), e)
    ensures Cong(r, l * z)
  {
    var k := 2 * (w * w * w);
    CongScale(k, l * (c - a), e);
    assert k * e == r;
    assert k * (l * (c - a)) == l * z;
    CongSym(l * z, r);
  }

  lemma ChordNonzero(x: int, y: int, w: int, h: int, z: int)
    requires Fermat() && 0 <= x < P && 0 <= y < P && x != y && !Cong(w, 0)
    requires h == (x - y) * (w * w) && z == 2 * (w * h)
    ensures !Cong(h, 0) && !Cong(z, 0)
  {
    DifferenceNonzero(x, y);
    NonzeroProduct(w, w);
    NonzeroProduct(x - y, w * w);
    NonzeroProduct(w, h);
    TwiceNonzero(1);
    NonzeroProduct(2, w * h);
  }

  /** addZ1EqualsZ2: X3 = C^2 - E - F with E = X1*A^2, F = X2*A^2. */
  ghost function SameZX(x1: int, x2: int, a: int, c: int): int {
    c * c - (x1 * (a * a) + x2 * (a * a))
  }

  /** Y3 = C*(E - X3) - Y1*(F - E). */
  ghost function SameZY(x1: int, x2: int, y1: int, a: int, c: int): int {
    c * (x1 * (a * a) - SameZX(x1, x2, a, c)) - y1 * (x2 * (a * a) - x1 * (a * a))
  }

  lemma SameZStands(p: Point, q: Point, t: Point, z: int, x1: int, y1: int, x2: int, a: int, c: int)
    requires Fermat() && OnCurve(p) && OnCurve(q) && p.Affine? && q.Affine? && p.x != q.x && IsSum(p, q, t)
    requires !Cong(z, 0) && x1 == p.x * (z * z) && y1 == p.y * (z * z * z) && x2 == q.x * (z * z)
    requires a == x2 - x1 && c == (q.y - p.y) * (z * z * z)
    ensures StandsFor(SameZX(x1, x2, a, c), SameZY(x1, x2, y1, a, c), z * a, t)
  {
    SumMeaning(p, q, t);
    var l :| Key((p, q, t), l) && Slope(l, p, q) && ThirdPoint(l, p.x, p.y, q.x, t.x, t.y);
    var w := z * a;
    var m, n, k := x1 * (a * a), x2 * (a * a) - x1 * (a * a), y1 * (x2 * (a * a) - x1 * (a * a));
    SameZExact(p.x, p.y, q.x, z, x1, y1, x2, a, w);
    SameZSlope(p.x, q.x, q.y - p.y, l, z, a, c, w);
    SameZNonzero(q.x, p.x, z, a, w);
    CongRefl(m);
    CongRefl(n);
    CongRefl(k);
    CongRefl(SameZX(x1, x2, a, c));
    CongRefl(SameZY(x1, x2, y1, a, c));
    ThirdCoordinates(l, p.x, p.y, q.x, t.x, t.y, w, c, m, n, k, SameZX(x1, x2, a, c), SameZY(x1, x2, y1, a, c));
  }

  lemma SameZExact(xp: int, yp: int, xq: int, z: int, x1: int, y1: int, x2: int, a: int, w: int)
    requires x1 == xp * (z * z) && y1 == yp * (z * z * z) && x2 == xq * (z * z) && a == x2 - x1 && w == z * a
    ensures x1 * (a * a) == xp * (w * w)
    ensures x2 * (a * a) - x1 * (a * a) == (xq - xp) * (w * w)
    ensures y1 * (x2 * (a * a) - x1 * (a * a)) == yp * (w * w * w)
  {
    var zz, aa := z * z, a * a;
    assert w * w == zz * aa;
    assert xp * zz * aa == xp * (zz * aa) && xq * zz * aa == xq * (zz * aa);
    assert x2 * aa - x1 * aa == a * aa;
    assert yp * (zz * z) * (a * aa) == yp * (zz * aa * (z * a));
  }

  lemma SameZSlope(xp: int, xq: int, e: int, l: int, z: int, a: int, c: int, w: int)
    requires a == xq * (z * z) - xp * (z * z) && c == e * (z * z * z) && w == z * a && Cong(l * (xq - xp), e)
    ensures Cong(c, l * w)
  {
    var k := z * z * z;
    CongScale(k, l * (xq - xp), e);
    assert k * (l * (xq - xp)) == l * w;
    assert k * e == c;
    CongSym(l * w, c);
  }

  lemma SameZNonzero(x: int, y: int, z: int, a: int, w: int)
    requires Fermat() && 0 <= x < P && 0 <= y < P && x != y && !Cong(z, 0)
    requires a == x * (z * z) - y * (z * z) && w == z * a
    ensures !Cong(w, 0)
  {
    DifferenceNonzero(x, y);
    NonzeroProduct(z, z);
    NonzeroProduct(x - y, z * z);
    assert (x - y) * (z * z) == a;
    NonzeroProduct(z, a);
  }
}
