/**
 Points of the curve y^2 = x^3 + 7 over the field, and the chord-and-tangent sum that the Jacobian
 routines of crypto/s256crypto.go implement.
 */
module Curve {
  import opened Congruence
  import opened Power

  datatype Point = Infinity | Affine(x: int, y: int)

  ghost predicate OnCurve(p: Point) {
    p.Affine? ==> 0 <= p.x < P && 0 <= p.y < P && Equation(p.x, p.y)
  }

  /** y^2 = x^3 + 7 (IsOnCurve), guarded like the definitions of module Congruence. */
  ghost predicate Equation(x: int, y: int) {
    exists w {:trigger Key((y, x), w)} ::
      && Key((y, x), w)
      && forall u {:trigger Lock((y, x), u)} :: Lock((y, x), u) ==> Cong(y * y, x * x * x + 7)
  }

  lemma EquationMeaning(x: int, y: int)
    ensures Equation(x, y) <==> Cong(y * y, x * x * x + 7)
  {
    assert Lock((y, x), 0) && Key((y, x), 0);
  }

  /** The line of slope l through (x1, y1) and (x2, y2) meets the curve again in (x3, -y3). */
  ghost predicate ThirdPoint(l: int, x1: int, y1: int, x2: int, x3: int, y3: int) {
    Cong(x3, l * l - x1 - x2) && Cong(y3, l * (x1 - x3) - y1)
  }

  /** l is the slope of the chord or, when the points coincide, of the tangent. */
  ghost predicate Slope(l: int, p: Point, q: Point)
    requires p.Affine? && q.Affine?
  {
    if p == q then Cong(l * (2 * p.y), 3 * (p.x * p.x)) else Cong(l * (q.x - p.x), q.y - p.y)
  }

  /** The sum is the point at infinity: opposite points, or a vertical tangent. */
  ghost predicate Opposite(p: Point, q: Point)
    requires p.Affine? && q.Affine?
  {
    p.x == q.x && (p.y != q.y || p.y == 0)
  }

  /** r is the sum of p and q by the chord-and-tangent rule. */
  ghost predicate SumRule(p: Point, q: Point, r: Point) {
    if p.Infinity? then r == q
    else if q.Infinity? then r == p
    else if Opposite(p, q) then r == Infinity
    else
      && r.Affine? && 0 <= r.x < P && 0 <= r.y < P
      && exists l {:trigger Key((p, q, r), l)} :: Key((p, q, r), l) && Slope(l, p, q) &&
          ThirdPoint(l, p.x, p.y, q.x, r.x, r.y)
  }

  ghost predicate IsSum(p: Point, q: Point, r: Point) {
    exists w {:trigger Key((r, q, p), w)} ::
      Key((r, q, p), w) && forall u {:trigger Lock((r, q, p), u)} :: Lock((r, q, p), u) ==> SumRule(p, q, r)
  }

  lemma SumMeaning(p: Point, q: Point, r: Point)
    ensures IsSum(p, q, r) <==> SumRule(p, q, r)
  {
    assert Lock((r, q, p), 0) && Key((r, q, p), 0);
  }

  /** The slope exists: the field has inverses. */
  lemma SlopeExists(p: Point, q: Point) returns (l: int)
    requires Fermat() && OnCurve(p) && OnCurve(q) && p.Affine? && q.Affine? && !Opposite(p, q)
    ensures Slope(l, p, q)
  {
    if p == q {
      TwiceNonzero(p.y);
      l := Quotient(3 * (p.x * p.x), 2 * p.y);
    } else {
      DifferenceNonzero(q.x, p.x);
      l := Quotient(q.y - p.y, q.x - p.x);
    }
  }

  lemma Quotient(a: int, b: int) returns (l: int)
    requires Fermat() && !Cong(b, 0)
    ensures Cong(l * b, a)
  {
    var i := Pow(b, P - 2);
    CongRefl(i);
    PowerMeaning(i, b, P - 2);
    InverseExists(b, i);
    ProductMeaning(1, b, i);
    CongSym(1, b * i);
    l := a * i;
    CongScale(a, b * i, 1);
    assert l * b == a * (b * i);
  }

  lemma DifferenceNonzero(x: int, y: int)
    requires 0 <= x < P && 0 <= y < P && x != y
    ensures !Cong(x - y, 0)
  {
    if Cong(x - y, 0) {
      var q := CongElim(x - y, 0);
    }
  }

  lemma TwiceNonzero(y: int)
    requires 0 < y < P
    ensures !Cong(2 * y, 0)
  {
    if Cong(2 * y, 0) {
      var q := CongElim(2 * y, 0);
    }
  }

  lemma SumExists(p: Point, q: Point) returns (r: Point)
    requires Fermat() && OnCurve(p) && OnCurve(q)
    ensures IsSum(p, q, r)
  {
    if p.Infinity? {
      r := q;
    } else if q.Infinity? {
      r := p;
    } else if Opposite(p, q) {
      r := Infinity;
    } else {
      var l := SlopeExists(p, q);
      var x3 := (l * l - p.x - q.x) % P;
      var y3 := (l * (p.x - x3) - p.y) % P;
      CongMod(l * l - p.x - q.x);
      CongMod(l * (p.x - x3) - p.y);
      r := Affine(x3, y3);
      assert Key((p, q, r), l);
    }
    SumMeaning(p, q, r);
  }

  /** The sum is determined. */
  lemma SumUnique(p: Point, q: Point, r: Point, s: Point)
    requires Fermat() && OnCurve(p) && OnCurve(q) && IsSum(p, q, r) && IsSum(p, q, s)
    ensures r == s
  {
    SumMeaning(p, q, r);
    SumMeaning(p, q, s);
    if p.Affine? && q.Affine? && !Opposite(p, q) {
      var l :| Key((p, q, r), l) && Slope(l, p, q) && ThirdPoint(l, p.x, p.y, q.x, r.x, r.y);
      var m :| Key((p, q, s), m) && Slope(m, p, q) && ThirdPoint(m, p.x, p.y, q.x, s.x, s.y);
      SlopeUnique(p, q, l, m);
      ThirdPointUnique(l, m, p.x, p.y, q.x, r, s);
    }
  }

  lemma SlopeUnique(p: Point, q: Point, l: int, m: int)
    requires Fermat() && OnCurve(p) && OnCurve(q) && p.Affine? && q.Affine? && !Opposite(p, q)
    requires Slope(l, p, q) && Slope(m, p, q)
    ensures Cong(l, m)
  {
    var k, a := 2 * p.y, 3 * (p.x * p.x);
    if p == q {
      TwiceNonzero(p.y);
    } else {
      DifferenceNonzero(q.x, p.x);
      k, a := q.x - p.x, q.y - p.y;
    }
    CongSym(m * k, a);
    CongTrans(l * k, a, m * k);
    assert l * k == k * l && m * k == k * m;
    Cancel(k, l, m);
  }

  lemma ThirdPointUnique(l: int, m: int, x1: int, y1: int, x2: int, r: Point, s: Point)
    requires r.Affine? && s.Affine? && 0 <= r.x < P && 0 <= r.y < P && 0 <= s.x < P && 0 <= s.y < P
    requires Cong(l, m) && ThirdPoint(l, x1, y1, x2, r.x, r.y) && ThirdPoint(m, x1, y1, x2, s.x, s.y)
    ensures r == s
  {
    CongRefl(x1);
    CongRefl(y1);
    CongRefl(x2);
    CongMul(l, m, l, m);
    CongSub(l * l, m * m, x1, x1);
    CongSub(l * l - x1, m * m - x1, x2, x2);
    CongTrans(r.x, l * l - x1 - x2, m * m - x1 - x2);
    CongSym(s.x, m * m - x1 - x2);
    CongTrans(r.x, m * m - x1 - x2, s.x);
    ResidueUnique(r.x, s.x);
    CongRefl(x1 - r.x);
    CongMul(l, m, x1 - r.x, x1 - s.x);
    CongSub(l * (x1 - r.x), m * (x1 - s.x), y1, y1);
    CongTrans(r.y, l * (x1 - r.x) - y1, m * (x1 - s.x) - y1);
    CongSym(s.y, m * (x1 - s.x) - y1);
    CongTrans(r.y, m * (x1 - s.x) - y1, s.y);
    ResidueUnique(r.y, s.y);
  }
}
