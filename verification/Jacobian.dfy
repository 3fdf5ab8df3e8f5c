/**
 Point addition and doubling in Jacobian coordinates (crypto/s256crypto.go).  Coordinates are
 objects: the routines normalize their inputs in place, and the output may be the first operand.
 */
module Jacobian {
  import opened Congruence
  import opened Power
  import opened Field
  import opened FieldElement
  import opened FieldVals
  import opened FieldRing
  import opened Curve
  import opened JacobianAlgebra

  /** The limbs represent p.  The code takes (0, 0, _) and (_, _, 0) for the point at infinity. */
  ghost predicate Represents(x: Limbs, y: Limbs, z: Limbs, p: Point) {
    match p
    case Infinity => (x == ZERO && y == ZERO) || z == ZERO
    case Affine(_, _) => OnCurve(p) && Stands(Val(x), Val(y), Val(z), p)
  }

  /** The magnitudes coordinates have between operations. */
  ghost predicate Coordinates(x: Limbs, y: Limbs, z: Limbs) {
    Mag(x, 1) && Mag(y, 2) && Mag(z, 1)
  }

  lemma Finite(x: Limbs, y: Limbs, z: Limbs, p: Point)
    requires Coordinates(x, y, z) && Represents(x, y, z, p) && p.Affine?
    ensures var w := Val(z);
            Is(x, 1, p.x * (w * w)) && Is(y, 2, p.y * (w * w * w)) && Is(z, 1, w) && !Cong(w, 0)
  {
    StandsMeaning(Val(x), Val(y), Val(z), p);
    CongRefl(Val(z));
  }

  /** Congruent coordinates stand for the same point. */
  lemma StandsCong(x: int, y: int, z: int, x': int, y': int, z': int, p: Point)
    requires StandsFor(x, y, z, p) && Cong(x', x) && Cong(y', y) && Cong(z', z)
    ensures StandsFor(x', y', z', p)
  {
    CongSym(z', z);
    if Cong(z', 0) {
      CongTrans(z, z', 0);
    }
    CongMul(z, z', z, z');
    CongMul(z * z, z' * z', z, z');
    CongScale(p.x, z * z, z' * z');
    CongScale(p.y, z * z * z, z' * z' * z');
    CongTrans(x', x, p.x * (z * z));
    CongTrans(x', p.x * (z * z), p.x * (z' * z'));
    CongTrans(y', y, p.y * (z * z * z));
    CongTrans(y', p.y * (z * z * z), p.y * (z' * z' * z'));
  }

  /** Limbs that stand for the coordinates of s represent s. */
  lemma Represented(x: Limbs, y: Limbs, z: Limbs, xi: int, yi: int, zi: int, s: Point)
    requires Is(x, 1, xi) && Is(y, 1, yi) && Is(z, 1, zi) && StandsFor(xi, yi, zi, s) && OnCurve(s)
    ensures Coordinates(x, y, z) && Represents(x, y, z, s)
  {
    MagMono(y, 1, 2);
    StandsCong(xi, yi, zi, Val(x), Val(y), Val(z), s);
    StandsMeaning(Val(x), Val(y), Val(z), s);
  }

  // ----------------------------------------------------------------- doubling

  /** The part doubleGeneric and doubleZ1EqualsOne share: X3 and Y3. */
  method DoubleXY(x1: FieldVal, y1: FieldVal, x3: FieldVal, y3: FieldVal, ghost x: int, ghost y: int)
    requires x3 != y3 && Is(x1.n, 1, x) && Is(y1.n, 2, y)
    modifies x3, y3
    ensures Is(x3.n, 1, DoubleX(x, y)) && Is(y3.n, 1, DoubleY(x, y))
  {
    hide Is;
    ghost var xx, yy := x * x, y * y;
    ghost var y4, ss := yy * yy, (yy + x) * (yy + x);
    var a := Sqr(x1.n, 1, x);
    var b := Sqr(y1.n, 2, y);
    var c := Sqr(b, 1, yy);
    b := Add(b, x1.n, 1, yy, 1, x);
    b := Sqr(b, 2, yy + x);
    var d := Add(a, c, 1, xx, 1, y4);
    d := Neg(d, 2, xx + y4);
    d := Add(d, b, 3, -(xx + y4), 1, ss);
    d := Scale(d, 2, 4, -(xx + y4) + ss);
    ghost var dd := DoubleD(x, y);
    var e := Scale(a, 3, 1, xx);
    ghost var ee := 3 * xx;
    var f := Sqr(e, 3, ee);
    x3.n := Scale(d, 2, 8, dd);
    x3.n := Neg(x3.n, 16, 2 * dd);
    x3.n := Add(x3.n, f, 17, -(2 * dd), 1, ee * ee);
    ghost var rx := DoubleX(x, y);
    f := Neg(x3.n, 18, rx);
    f := Add(f, d, 19, -rx, 8, dd);
    f := Norm(f, 27, -rx + dd);
    y3.n := Scale(c, 8, 1, y4);
    y3.n := Neg(y3.n, 8, 8 * y4);
    f := Mul(f, e, 1, -rx + dd, 3, ee);
    y3.n := Add(y3.n, f, 9, -(8 * y4), 1, (-rx + dd) * ee);
    x3.n := Norm(x3.n, 18, rx);
    y3.n := Norm(y3.n, 10, DoubleY(x, y));
  }

  /** doubleGeneric. */
  method DoubleGeneric(x1: FieldVal, y1: FieldVal, z1: FieldVal, x3: FieldVal, y3: FieldVal, z3: FieldVal,
                       ghost p: Point, ghost s: Point)
    requires x3 != y3 && x3 != z3 && y3 != z3 && z3 != x1 && z3 != y1
    requires Coordinates(x1.n, y1.n, z1.n) && Represents(x1.n, y1.n, z1.n, p) && p.Affine?
    requires Fermat() && IsSum(p, p, s) && OnCurve(s)
    modifies x3, y3, z3
    ensures Coordinates(x3.n, y3.n, z3.n) && Represents(x3.n, y3.n, z3.n, s)
  {
    hide Is;
    ghost var z := Val(z1.n);
    ghost var x, y := p.x * (z * z), p.y * (z * z * z);
    Finite(x1.n, y1.n, z1.n, p);
    z3.n := Mul(y1.n, z1.n, 2, y, 1, z);
    z3.n := Scale(z3.n, 2, 1, y * z);
    DoubleXY(x1, y1, x3, y3, x, y);
    z3.n := Norm(z3.n, 2, 2 * (y * z));
    DoubleResult(x3.n, y3.n, z3.n, p, s, z, x, y);
  }

  /** doubleZ1EqualsOne. */
  method DoubleZ1EqualsOne(x1: FieldVal, y1: FieldVal, x3: FieldVal, y3: FieldVal, z3: FieldVal,
                           ghost p: Point, ghost s: Point)
    requires x3 != y3 && x3 != z3 && y3 != z3 && z3 != x1 && z3 != y1
    requires Coordinates(x1.n, y1.n, ONE) && Represents(x1.n, y1.n, ONE, p) && p.Affine?
    requires Fermat() && IsSum(p, p, s) && OnCurve(s)
    modifies x3, y3, z3
    ensures Coordinates(x3.n, y3.n, z3.n) && Represents(x3.n, y3.n, z3.n, s)
  {
    hide Is;
    ghost var z := Val(ONE);
    ghost var x, y := p.x * (z * z), p.y * (z * z * z);
    Finite(x1.n, y1.n, ONE, p);
    z3.n := Scale(y1.n, 2, 2, y);
    DoubleXY(x1, y1, x3, y3, x, y);
    z3.n := Norm(z3.n, 4, 2 * y);
    assert z == 1;
    DoubleResult(x3.n, y3.n, z3.n, p, s, z, x, y);
  }

  /** doubleJacobian. */
  method DoubleJacobian(x1: FieldVal, y1: FieldVal, z1: FieldVal, x3: FieldVal, y3: FieldVal, z3: FieldVal,
                        ghost p: Point, ghost s: Point)
    requires x3 != y3 && x3 != z3 && y3 != z3 && z3 != x1 && z3 != y1 && z1 != x1 && z1 != y1
    requires Coordinates(x1.n, y1.n, z1.n) && Represents(x1.n, y1.n, z1.n, p)
    requires Fermat() && IsSum(p, p, s) && OnCurve(p) && OnCurve(s)
    modifies z1, x3, y3, z3
    ensures Coordinates(x3.n, y3.n, z3.n) && Represents(x3.n, y3.n, z3.n, s)
  {
    if y1.n == ZERO || z1.n == ZERO {
      ZeroDouble(x1.n, y1.n, z1.n, p, s);
      x3.n, y3.n, z3.n := ZERO, ZERO, ZERO;
    } else {
      NormalizeZ(x1, y1, z1, p);
      if z1.n == ONE {
        DoubleZ1EqualsOne(x1, y1, x3, y3, z3, p, s);
      } else {
        DoubleGeneric(x1, y1, z1, x3, y3, z3, p, s);
      }
    }
  }

  /** Normalizing z in place does not change the point. */
  method NormalizeZ(x: FieldVal, y: FieldVal, z: FieldVal, ghost p: Point)
    requires z != x && z != y && Coordinates(x.n, y.n, z.n) && Represents(x.n, y.n, z.n, p) && p.Affine?
    modifies z
    ensures Coordinates(x.n, y.n, z.n) && Represents(x.n, y.n, z.n, p) && Normalized(z.n)
  {
    ghost var z0 := Val(z.n);
    CongRefl(z0);
    StandsMeaning(Val(x.n), Val(y.n), z0, p);
    z.n := Norm(z.n, 1, z0);
    CongRefl(Val(x.n));
    CongRefl(Val(y.n));
    StandsCong(Val(x.n), Val(y.n), z0, Val(x.n), Val(y.n), Val(z.n), p);
    StandsMeaning(Val(x.n), Val(y.n), Val(z.n), p);
  }

  /** The point at infinity, or a point with y = 0, doubles to infinity. */
  lemma ZeroDouble(x: Limbs, y: Limbs, z: Limbs, p: Point, s: Point)
    requires Coordinates(x, y, z) && Represents(x, y, z, p) && Fermat() && IsSum(p, p, s) && OnCurve(p)
    requires y == ZERO || z == ZERO
    ensures s == Infinity
  {
    SumMeaning(p, p, s);
    CongRefl(0);
    if p.Affine? {
      Finite(x, y, z, p);
      if p.y != 0 {
        var w := Val(z);
        CongSym(0, p.y * (w * w * w));
        NonzeroResidue(p.y);
        NonzeroProduct(w, w);
        NonzeroProduct(w * w, w);
        NonzeroProduct(p.y, w * w * w);
      }
    }
  }

  lemma NonzeroResidue(y: int)
    requires 0 < y < P
    ensures !Cong(y, 0)
  {
    if Cong(y, 0) {
      ResidueUnique(y, 0);
    }
  }

  lemma DoubleResult(x3: Limbs, y3: Limbs, z3: Limbs, p: Point, s: Point, z: int, x: int, y: int)
    requires Fermat() && OnCurve(p) && p.Affine? && IsSum(p, p, s) && OnCurve(s) && !Cong(z, 0)
    requires x == p.x * (z * z) && y == p.y * (z * z * z)
    requires Is(x3, 1, DoubleX(x, y)) && Is(y3, 1, DoubleY(x, y)) && Is(z3, 1, 2 * (y * z)) && Normalized(z3)
    ensures Coordinates(x3, y3, z3) && Represents(x3, y3, z3, s)
  {
    var w := 2 * (y * z);
    if p.y == 0 {
      SumMeaning(p, p, s);
      MagMono(y3, 1, 2);
      assert w == 0;
      NormalizedZero(z3);
    } else {
      DoubleStands(p, s, z, x, y, w);
      Represented(x3, y3, z3, DoubleX(x, y), DoubleY(x, y), w, s);
    }
  }

  lemma NormalizedZero(a: Limbs)
    requires Normalized(a) && Is(a, 1, 0)
    ensures a == ZERO
  {
    hide *;
    ZeroIs();
    CongRefl(0);
    NormEqual(a, ZERO, 0, 0);
  }

  lemma ZeroIs()
    ensures Normalized(ZERO) && Is(ZERO, 1, 0)
  {
    hide Val, Packed, Mag, Cong;
    ZeroVal();
    ZeroMag();
    CongRefl(0);
  }

  lemma ZeroVal()
    ensures Val(ZERO) == 0
  {
  }

  lemma ZeroMag()
    ensures Packed(ZERO) && Mag(ZERO, 1)
  {
    hide Val;
  }

  // ----------------------------------------------------------------- addition

  /** Which of the objects an addition works on may coincide: the sum may overwrite the first point. */
  ghost predicate Layout(x1: FieldVal, y1: FieldVal, z1: FieldVal, x2: FieldVal, y2: FieldVal, z2: FieldVal,
                         x3: FieldVal, y3: FieldVal, z3: FieldVal) {
    && x1 != y1 && x1 != z1 && y1 != z1 && x2 != y2 && x2 != z2 && y2 != z2
    && {x1, y1} !! {x2, y2, z2} && z1 !in {x2, y2}
    && x3 != y3 && x3 != z3 && y3 != z3 && {x3, y3, z3} !! {x2, y2, z2}
    && x3 !in {y1, z1} && y3 !in {x1, z1} && z3 !in {x1, y1}
  }

  /** Two affine coordinates, scaled by the same nonzero factor and normalized, are compared exactly. */
  lemma LikeTerms(a: Limbs, b: Limbs, x: int, y: int, k: int)
    requires Fermat() && Normalized(a) && Normalized(b) && Is(a, 1, x * k) && Is(b, 1, y * k) && !Cong(k, 0)
    requires 0 <= x < P && 0 <= y < P
    ensures a == b <==> x == y
  {
    NormEqual(a, b, x * k, y * k);
    if Cong(x * k, y * k) {
      assert x * k == k * x && y * k == k * y;
      Cancel(k, x, y);
      ResidueUnique(x, y);
    }
    if x == y {
      CongRefl(x * k);
    }
  }

  /** Equal x and different y: opposite points. */
  lemma OppositeSum(p: Point, q: Point, s: Point)
    requires IsSum(p, q, s) && p.Affine? && q.Affine? && p.x == q.x && p.y != q.y
    ensures s == Infinity
  {
    SumMeaning(p, q, s);
  }

  /** The part addGeneric and addZ2EqualsOne share: J, V, X3 and Y3 from H, I = 4*H^2 and r. */
  method ChordXY(x3: FieldVal, y3: FieldVal, u1: Limbs, s1: Limbs, h: Limbs, i: Limbs, r: Limbs,
                 ghost ui: int, ghost si: int, ghost hi: int, ghost k: nat, ghost ii: int, ghost ri: int)
    requires x3 != y3 && Is(u1, 1, ui) && Is(s1, 1, si) && Is(h, 3, hi) && Is(i, k, ii) && k <= 4 && Is(r, 6, ri)
    requires ii == 4 * (hi * hi)
    modifies x3, y3
    ensures Is(x3.n, 1, AddX(ui, hi, ri)) && Is(y3.n, 1, AddY(ui, si, hi, ri))
  {
    hide Is;
    ghost var xr, yr := AddX(ui, hi, ri), AddY(ui, si, hi, ri);
    AddForms(ui, si, hi, ii, ri);
    hide AddX, AddY;
    var j := Mul(h, i, 3, hi, k, ii);
    var rr := Sqr(r, 6, ri);
    var v := Mul(u1, i, 1, ui, k, ii);
    x3.n := Scale(v, 2, 1, ui * ii);
    x3.n := Add(x3.n, j, 2, 2 * (ui * ii), 1, hi * ii);
    x3.n := Neg(x3.n, 3, 2 * (ui * ii) + hi * ii);
    x3.n := Add(x3.n, rr, 4, -(2 * (ui * ii) + hi * ii), 1, ri * ri);
    var negX3 := Neg(x3.n, 5, xr);
    y3.n := Mul(s1, j, 1, si, 1, hi * ii);
    y3.n := Scale(y3.n, 2, 1, si * (hi * ii));
    y3.n := Neg(y3.n, 2, 2 * (si * (hi * ii)));
    v := Add(v, negX3, 1, ui * ii, 6, -xr);
    v := Mul(v, r, 7, ui * ii - xr, 6, ri);
    y3.n := Add(y3.n, v, 3, -(2 * (si * (hi * ii))), 1, (ui * ii - xr) * ri);
    x3.n := Norm(x3.n, 5, xr);
    y3.n := Norm(y3.n, 4, yr);
  }

  lemma AddForms(u: int, s: int, h: int, i: int, r: int)
    requires i == 4 * (h * h)
    ensures AddX(u, h, r) == -(2 * (u * i) + h * i) + r * r
    ensures AddY(u, s, h, r) == -(2 * (s * (h * i))) + (u * i - AddX(u, h, r)) * r
  {
  }

  /** The z the addition formulas give for points with different x, when w is the product of their z. */
  ghost predicate ChordZ(z: int, p: Point, q: Point, w: int) {
    forall u {:trigger Lock((z, p, q, w), u)} :: Lock((z, p, q, w), u) ==>
      p.Affine? && q.Affine? && Cong(z, 2 * (w * ((q.x - p.x) * (w * w))))
  }

  /** The z addZ1EqualsZ2 gives for them, when w is their common z. */
  ghost predicate SameZZ(z: int, p: Point, q: Point, w: int) {
    forall u {:trigger Lock((z, p, q, w), u)} :: Lock((z, p, q, w), u) ==>
      p.Affine? && q.Affine? && Cong(z, w * ((q.x - p.x) * (w * w)))
  }

  lemma ChordZIs(z: Limbs, p: Point, q: Point, w: int, h: int, v: int)
    requires p.Affine? && q.Affine? && Is(z, 1, v) && v == 2 * (w * h) && h == (q.x - p.x) * (w * w)
    ensures ChordZ(Val(z), p, q, w)
  {
  }

  lemma SameZZIs(z: Limbs, p: Point, q: Point, w: int, a: int)
    requires p.Affine? && q.Affine? && Is(z, 1, w * a) && a == q.x * (w * w) - p.x * (w * w)
    ensures SameZZ(Val(z), p, q, w)
  {
    assert a == (q.x - p.x) * (w * w);
  }

  /** Coordinates of one point whose z agree up to a factor agree up to its square and its cube. */
  lemma Scaled(x: int, y: int, z: int, x': int, y': int, z': int, k: int, s: Point)
    requires StandsFor(x, y, z, s) && StandsFor(x', y', z', s) && Cong(z, k * z')
    ensures Cong(x, k * k * x') && Cong(y, k * k * k * y')
  {
    var w := k * z';
    CongMul(z, w, z, w);
    CongMul(z * z, w * w, z, w);
    CongScale(s.x, z * z, w * w);
    CongScale(s.y, z * z * z, w * w * w);
    CongSym(x', s.x * (z' * z'));
    CongSym(y', s.y * (z' * z' * z'));
    CongScale(k * k, s.x * (z' * z'), x');
    CongScale(k * k * k, s.y * (z' * z' * z'), y');
    Factors(k, z', s.x, s.y);
    CongTrans(x, s.x * (z * z), s.x * (w * w));
    CongTrans(x, s.x * (w * w), k * k * x');
    CongTrans(y, s.y * (z * z * z), s.y * (w * w * w));
    CongTrans(y, s.y * (w * w * w), k * k * k * y');
  }

  lemma Factors(k: int, z: int, a: int, b: int)
    ensures var w := k * z; a * (w * w) == k * k * (a * (z * z)) && b * (w * w * w) == k * k * k * (b * (z * z * z))
  {
    var w, kk, zz := k * z, k * k, z * z;
    assert w * w == kk * zz;
    assert w * w * w == kk * k * (zz * z);
    Swap(a, kk, zz);
    Swap(b, kk * k, zz * z);
  }

  lemma Swap(a: int, k: int, z: int)
    ensures a * (k * z) == k * (a * z)
  {
  }

  /** Whichever of addGeneric, addZ2EqualsOne and addZ1AndZ2EqualsOne may be used, it gives the same triple modulo p. */
  lemma FormsAgree(x: int, y: int, z: int, x': int, y': int, z': int, p: Point, q: Point, s: Point, w: int)
    requires Stands(x, y, z, s) && Stands(x', y', z', s) && ChordZ(z, p, q, w) && ChordZ(z', p, q, w)
    ensures Cong(x, x') && Cong(y, y') && Cong(z, z')
  {
    hide Stands, Cong;
    StandsMeaning(x, y, z, s);
    StandsMeaning(x', y', z', s);
    assert Lock((z, p, q, w), 0) && Lock((z', p, q, w), 0);
    var v := 2 * (w * ((q.x - p.x) * (w * w)));
    CongSym(z', v);
    CongTrans(z, v, z');
    assert 1 * z' == z' && 1 * 1 * x' == x' && 1 * 1 * 1 * y' == y';
    Scaled(x, y, z, x', y', z', 1, s);
  }

  /** Against addGeneric, addZ1EqualsZ2 scales the coordinates by the powers of 2w^3. */
  lemma SameZScales(x: int, y: int, z: int, x': int, y': int, z': int, p: Point, q: Point, s: Point, w: int, k: int)
    requires Stands(x, y, z, s) && Stands(x', y', z', s) && ChordZ(z, p, q, w * w) && SameZZ(z', p, q, w)
    requires k == 2 * (w * w * w)
    ensures Cong(z, k * z') && Cong(x, k * k * x') && Cong(y, k * k * k * y')
  {
    hide Stands, Cong;
    StandsMeaning(x, y, z, s);
    StandsMeaning(x', y', z', s);
    assert Lock((z, p, q, w * w), 0) && Lock((z', p, q, w), 0);
    var d := q.x - p.x;
    var v := w * (d * (w * w));
    CongSym(z', v);
    CongScale(k, v, z');
    Cubed(w, d, k, v);
    CongTrans(z, k * v, k * z');
    Scaled(x, y, z, x', y', z', k, s);
  }

  lemma Cubed(w: int, d: int, k: int, v: int)
    requires k == 2 * (w * w * w) && v == w * (d * (w * w))
    ensures 2 * (w * w * (d * (w * w * (w * w)))) == k * v
  {
    var c := w * w * w;
    assert v == d * c;
    assert w * w * (w * w * (w * w)) == c * c;
    assert 2 * (w * w * (d * (w * w * (w * w)))) == 2 * (d * (c * c)) by {
      Swap(w * w, d, w * w * (w * w));
    }
    assert 2 * c * (d * c) == 2 * (d * (c * c));
  }

  /** addGeneric. */
  method AddGeneric(x1: FieldVal, y1: FieldVal, z1: FieldVal, x2: FieldVal, y2: FieldVal, z2: FieldVal,
                    x3: FieldVal, y3: FieldVal, z3: FieldVal, ghost p: Point, ghost q: Point, ghost s: Point)
    requires Layout(x1, y1, z1, x2, y2, z2, x3, y3, z3)
    requires Coordinates(x1.n, y1.n, z1.n) && Represents(x1.n, y1.n, z1.n, p) && p.Affine?
    requires Coordinates(x2.n, y2.n, z2.n) && Represents(x2.n, y2.n, z2.n, q) && q.Affine?
    requires Fermat() && IsSum(p, q, s) && OnCurve(s)
    modifies z1, x3, y3, z3
    ensures Coordinates(x3.n, y3.n, z3.n) && Represents(x3.n, y3.n, z3.n, s)
    ensures p.x != q.x ==> ChordZ(Val(z3.n), p, q, old(Val(z1.n)) * old(Val(z2.n)))
  {
    hide Is;
    ghost var zi, zj := Val(z1.n), Val(z2.n);
    Finite(x1.n, y1.n, z1.n, p);
    Finite(x2.n, y2.n, z2.n, q);
    ghost var xi, yi, xj, yj := p.x * (zi * zi), p.y * (zi * zi * zi), q.x * (zj * zj), q.y * (zj * zj * zj);
    var z1z1 := Sqr(z1.n, 1, zi);
    var z2z2 := Sqr(z2.n, 1, zj);
    var u1 := Mul(x1.n, z2z2, 1, xi, 1, zj * zj);
    u1 := Norm(u1, 1, xi * (zj * zj));
    var u2 := Mul(x2.n, z1z1, 1, xj, 1, zi * zi);
    u2 := Norm(u2, 1, xj * (zi * zi));
    var s1 := Mul(y1.n, z2z2, 2, yi, 1, zj * zj);
    s1 := Mul(s1, z2.n, 1, yi * (zj * zj), 1, zj);
    s1 := Norm(s1, 1, yi * (zj * zj) * zj);
    var s2 := Mul(y2.n, z1z1, 2, yj, 1, zi * zi);
    s2 := Mul(s2, z1.n, 1, yj * (zi * zi), 1, zi);
    s2 := Norm(s2, 1, yj * (zi * zi) * zi);
    ghost var w := zi * zj;
    GenericTerms(p, q, zi, zj, w);
    LikeTerms(u1, u2, p.x, q.x, w * w);
    LikeTerms(s1, s2, p.y, q.y, w * w * w);
    if u1 == u2 {
      if s1 == s2 {
        DoubleJacobian(x1, y1, z1, x3, y3, z3, p, s);
      } else {
        OppositeSum(p, q, s);
        x3.n, y3.n, z3.n := ZERO, ZERO, ZERO;
      }
      return;
    }
    GenericChord(z1, z2, x3, y3, z3, z1z1, z2z2, u1, u2, s1, s2, p, q, s, zi, zj, w);
  }

  /** The like terms of addGeneric, as multiples of powers of z1*z2. */
  lemma GenericTerms(p: Point, q: Point, zi: int, zj: int, w: int)
    requires Fermat() && p.Affine? && q.Affine? && !Cong(zi, 0) && !Cong(zj, 0) && w == zi * zj
    ensures p.x * (zi * zi) * (zj * zj) == p.x * (w * w) && q.x * (zj * zj) * (zi * zi) == q.x * (w * w)
    ensures p.y * (zi * zi * zi) * (zj * zj) * zj == p.y * (w * w * w)
    ensures q.y * (zj * zj * zj) * (zi * zi) * zi == q.y * (w * w * w)
    ensures !Cong(w, 0) && !Cong(w * w, 0) && !Cong(w * w * w, 0)
  {
    NonzeroProduct(zi, zj);
    NonzeroProduct(w, w);
    NonzeroProduct(w * w, w);
    Regroup(p.x, p.y, zi, zj);
    Regroup(q.x, q.y, zj, zi);
    assert zj * zi == w;
  }

  lemma Regroup(x: int, y: int, zi: int, zj: int)
    ensures x * (zi * zi) * (zj * zj) == x * (zi * zj * (zi * zj))
    ensures y * (zi * zi * zi) * (zj * zj) * zj == y * (zi * zj * (zi * zj) * (zi * zj))
  {
    var w := zi * zj;
    Cubes(zi, zj, w);
    Regrouped(x, zi * zi, zj * zj, 1);
    Regrouped(y, zi * zi * zi, zj * zj, zj);
  }

  lemma Regrouped(y: int, a: int, b: int, c: int)
    ensures y * a * b * c == y * (a * b * c)
  {
  }

  lemma Cubes(a: int, b: int, w: int)
    requires w == a * b
    ensures a * a * (b * b) == w * w && a * a * a * (b * b) * b == w * w * w
  {
    assert a * a * (b * b) == w * w;
    assert a * a * a * (b * b) * b == a * a * (b * b) * (a * b);
  }

  /** addGeneric, once the points are known to have different x. */
  method GenericChord(z1: FieldVal, z2: FieldVal, x3: FieldVal, y3: FieldVal, z3: FieldVal,
                      z1z1: Limbs, z2z2: Limbs, u1: Limbs, u2: Limbs, s1: Limbs, s2: Limbs,
                      ghost p: Point, ghost q: Point, ghost s: Point, ghost zi: int, ghost zj: int, ghost w: int)
    requires x3 != y3 && x3 != z3 && y3 != z3 && x3 !in {z1, z2} && y3 !in {z1, z2} && z3 != z2
    requires Fermat() && OnCurve(p) && OnCurve(q) && p.Affine? && q.Affine? && p.x != q.x && IsSum(p, q, s) &&
        OnCurve(s)
    requires w == zi * zj && !Cong(w, 0)
    requires Is(z1.n, 1, zi) && Is(z2.n, 1, zj) && Is(z1z1, 1, zi * zi) && Is(z2z2, 1, zj * zj)
    requires Is(u1, 1, p.x * (w * w)) && Is(u2, 1, q.x * (w * w))
    requires Is(s1, 1, p.y * (w * w * w)) && Is(s2, 1, q.y * (w * w * w))
    modifies x3, y3, z3
    ensures Coordinates(x3.n, y3.n, z3.n) && Represents(x3.n, y3.n, z3.n, s) && ChordZ(Val(z3.n), p, q, w)
  {
    hide Is;
    ghost var ui, uj, si, sj := p.x * (w * w), q.x * (w * w), p.y * (w * w * w), q.y * (w * w * w);
    ghost var hi, ri := uj - ui, 2 * (sj - si);
    var negU1 := Neg(u1, 1, ui);
    var h := Add(u2, negU1, 1, uj, 2, -ui);
    var i := Scale(h, 2, 3, hi);
    i := Sqr(i, 6, 2 * hi);
    assert 2 * hi * (2 * hi) == 4 * (hi * hi);
    var negS1 := Neg(s1, 1, si);
    var r := Add(s2, negS1, 1, sj, 2, -si);
    r := Scale(r, 2, 3, sj - si);
    ChordXY(x3, y3, u1, s1, h, i, r, ui, si, hi, 1, 4 * (hi * hi), ri);
    z3.n := Add(z1.n, z2.n, 1, zi, 1, zj);
    z3.n := Sqr(z3.n, 2, zi + zj);
    var t := Add(z1z1, z2z2, 1, zi * zi, 1, zj * zj);
    t := Neg(t, 2, zi * zi + zj * zj);
    ghost var zz := (zi + zj) * (zi + zj) - (zi * zi + zj * zj);
    z3.n := Add(z3.n, t, 1, (zi + zj) * (zi + zj), 3, -(zi * zi + zj * zj));
    z3.n := Mul(z3.n, h, 4, zz, 3, hi);
    ChordFactors(p, q, zi, zj, w, hi, ri);
    ChordStands(p, q, s, w, ui, si, hi, ri, zz * hi);
    ChordZIs(z3.n, p, q, w, hi, zz * hi);
    Represented(x3.n, y3.n, z3.n, AddX(ui, hi, ri), AddY(ui, si, hi, ri), zz * hi, s);
  }

  lemma ChordFactors(p: Point, q: Point, zi: int, zj: int, w: int, h: int, r: int)
    requires p.Affine? && q.Affine? && w == zi * zj
    requires h == q.x * (w * w) - p.x * (w * w) && r == 2 * (q.y * (w * w * w) - p.y * (w * w * w))
    ensures h == (q.x - p.x) * (w * w) && r == 2 * ((q.y - p.y) * (w * w * w))
    ensures ((zi + zj) * (zi + zj) - (zi * zi + zj * zj)) * h == 2 * (w * h)
  {
    assert (zi + zj) * (zi + zj) - (zi * zi + zj * zj) == 2 * w;
  }

  /** Normalizing x and y in place does not change the point. */
  method NormalizeXY(x: FieldVal, y: FieldVal, z: Limbs, ghost p: Point)
    requires x != y && Coordinates(x.n, y.n, z) && Represents(x.n, y.n, z, p) && p.Affine?
    modifies x, y
    ensures Normalized(x.n) && Normalized(y.n) && Coordinates(x.n, y.n, z) && Represents(x.n, y.n, z, p)
    ensures var w := Val(z); Is(x.n, 1, p.x * (w * w)) && Is(y.n, 1, p.y * (w * w * w)) && Is(z, 1, w) && !Cong(w, 0)
  {
    ghost var w := Val(z);
    Finite(x.n, y.n, z, p);
    x.n := Norm(x.n, 1, p.x * (w * w));
    y.n := Norm(y.n, 2, p.y * (w * w * w));
    CongRefl(p.x * (w * w));
    CongRefl(p.y * (w * w * w));
    Represented(x.n, y.n, z, p.x * (w * w), p.y * (w * w * w), w, p);
  }

  /** addZ2EqualsOne. */
  method AddZ2EqualsOne(x1: FieldVal, y1: FieldVal, z1: FieldVal, x2: FieldVal, y2: FieldVal, z2: FieldVal,
                        x3: FieldVal, y3: FieldVal, z3: FieldVal, ghost p: Point, ghost q: Point, ghost s: Point)
    requires Layout(x1, y1, z1, x2, y2, z2, x3, y3, z3)
    requires Coordinates(x1.n, y1.n, z1.n) && Represents(x1.n, y1.n, z1.n, p) && p.Affine?
    requires Coordinates(x2.n, y2.n, ONE) && Represents(x2.n, y2.n, ONE, q) && q.Affine?
    requires Fermat() && IsSum(p, q, s) && OnCurve(s)
    modifies x1, y1, z1, x3, y3, z3
    ensures Coordinates(x3.n, y3.n, z3.n) && Represents(x3.n, y3.n, z3.n, s)
    ensures p.x != q.x ==> ChordZ(Val(z3.n), p, q, old(Val(z1.n)))
  {
    hide Is;
    ghost var w := Val(z1.n);
    NormalizeXY(x1, y1, z1.n, p);
    AffineIs(x2.n, y2.n, q);
    var z1z1 := Sqr(z1.n, 1, w);
    var u2 := Mul(x2.n, z1z1, 1, q.x, 1, w * w);
    u2 := Norm(u2, 1, q.x * (w * w));
    var s2 := Mul(y2.n, z1z1, 2, q.y, 1, w * w);
    s2 := Mul(s2, z1.n, 1, q.y * (w * w), 1, w);
    s2 := Norm(s2, 1, q.y * (w * w) * w);
    PowersNonzero(w);
    Regrouped(q.y, w * w, w, 1);
    LikeTerms(x1.n, u2, p.x, q.x, w * w);
    LikeTerms(y1.n, s2, p.y, q.y, w * w * w);
    if x1.n == u2 {
      if y1.n == s2 {
        DoubleJacobian(x1, y1, z1, x3, y3, z3, p, s);
      } else {
        OppositeSum(p, q, s);
        x3.n, y3.n, z3.n := ZERO, ZERO, ZERO;
      }
      return;
    }
    MixedChord(x1, y1, z1, x3, y3, z3, z1z1, u2, s2, p, q, s, w);
  }

  lemma AffineIs(x: Limbs, y: Limbs, p: Point)
    requires Coordinates(x, y, ONE) && Represents(x, y, ONE, p) && p.Affine?
    ensures Is(x, 1, p.x) && Is(y, 2, p.y)
  {
    hide Is;
    hide Val;
    Finite(x, y, ONE, p);
    OneVal();
  }

  lemma OneVal()
    ensures Val(ONE) == 1
  {
  }

  lemma PowersNonzero(w: int)
    requires Fermat() && !Cong(w, 0)
    ensures !Cong(w * w, 0) && !Cong(w * w * w, 0)
  {
    NonzeroProduct(w, w);
    NonzeroProduct(w * w, w);
  }

  /** addZ2EqualsOne, once the points are known to have different x. */
  method MixedChord(x1: FieldVal, y1: FieldVal, z1: FieldVal, x3: FieldVal, y3: FieldVal, z3: FieldVal,
                    z1z1: Limbs, u2: Limbs, s2: Limbs,
                    ghost p: Point, ghost q: Point, ghost s: Point, ghost w: int)
    requires x3 != y3 && x3 != z3 && y3 != z3 && z1 !in {x3, y3}
    requires Fermat() && OnCurve(p) && OnCurve(q) && p.Affine? && q.Affine? && p.x != q.x && IsSum(p, q, s) &&
        OnCurve(s)
    requires !Cong(w, 0) && Is(z1.n, 1, w) && Is(z1z1, 1, w * w)
    requires Is(x1.n, 1, p.x * (w * w)) && Is(u2, 1, q.x * (w * w))
    requires Is(y1.n, 1, p.y * (w * w * w)) && Is(s2, 1, q.y * (w * w) * w)
    modifies x3, y3, z3
    ensures Coordinates(x3.n, y3.n, z3.n) && Represents(x3.n, y3.n, z3.n, s) && ChordZ(Val(z3.n), p, q, w)
  {
    hide Is;
    ghost var ui, uj, si, sj := p.x * (w * w), q.x * (w * w), p.y * (w * w * w), q.y * (w * w * w);
    Regrouped(q.y, w * w, w, 1);
    ghost var hi, ri := uj - ui, 2 * (sj - si);
    var negX1 := Neg(x1.n, 1, ui);
    var h := Add(u2, negX1, 1, uj, 2, -ui);
    var hh := Sqr(h, 3, hi);
    var i := Scale(hh, 4, 1, hi * hi);
    var negY1 := Neg(y1.n, 1, si);
    var r := Add(s2, negY1, 1, sj, 2, -si);
    r := Scale(r, 2, 3, sj - si);
    ChordXY(x3, y3, x1.n, y1.n, h, i, r, ui, si, hi, 4, 4 * (hi * hi), ri);
    z3.n := Add(z1.n, h, 1, w, 3, hi);
    z3.n := Sqr(z3.n, 4, w + hi);
    var t := Add(z1z1, hh, 1, w * w, 1, hi * hi);
    t := Neg(t, 2, w * w + hi * hi);
    z3.n := Add(z3.n, t, 1, (w + hi) * (w + hi), 3, -(w * w + hi * hi));
    assert (w + hi) * (w + hi) - (w * w + hi * hi) == 2 * (w * hi);
    z3.n := Norm(z3.n, 4, 2 * (w * hi));
    ChordFactors(p, q, w, 1, w, hi, ri);
    ChordStands(p, q, s, w, ui, si, hi, ri, 2 * (w * hi));
    ChordZIs(z3.n, p, q, w, hi, 2 * (w * hi));
    Represented(x3.n, y3.n, z3.n, AddX(ui, hi, ri), AddY(ui, si, hi, ri), 2 * (w * hi), s);
  }

  /** addZ1AndZ2EqualsOne. */
  method AddZ1AndZ2EqualsOne(x1: FieldVal, y1: FieldVal, z1: FieldVal, x2: FieldVal, y2: FieldVal, z2: FieldVal,
                             x3: FieldVal, y3: FieldVal, z3: FieldVal, ghost p: Point, ghost q: Point, ghost s: Point)
    requires Layout(x1, y1, z1, x2, y2, z2, x3, y3, z3) && z1.n == ONE
    requires Coordinates(x1.n, y1.n, ONE) && Represents(x1.n, y1.n, ONE, p) && p.Affine?
    requires Coordinates(x2.n, y2.n, ONE) && Represents(x2.n, y2.n, ONE, q) && q.Affine?
    requires Fermat() && IsSum(p, q, s) && OnCurve(s)
    modifies x1, y1, z1, x2, y2, x3, y3, z3
    ensures Coordinates(x3.n, y3.n, z3.n) && Represents(x3.n, y3.n, z3.n, s)
    ensures p.x != q.x ==> ChordZ(Val(z3.n), p, q, 1)
    ensures Coordinates(x2.n, y2.n, ONE) && Represents(x2.n, y2.n, ONE, q)
  {
    hide Is;
    hide Val;
    NormalizeXY(x1, y1, ONE, p);
    NormalizeXY(x2, y2, ONE, q);
    OneVal();
    OneNonzero();
    LikeTerms(x1.n, x2.n, p.x, q.x, 1);
    LikeTerms(y1.n, y2.n, p.y, q.y, 1);
    if x1.n == x2.n {
      if y1.n == y2.n {
        DoubleJacobian(x1, y1, z1, x3, y3, z3, p, s);
      } else {
        OppositeSum(p, q, s);
        x3.n, y3.n, z3.n := ZERO, ZERO, ZERO;
      }
      return;
    }
    AffineChord(x1, y1, x2, y2, x3, y3, z3, p, q, s);
  }

  /** addZ1AndZ2EqualsOne, once the points are known to have different x. */
  method AffineChord(x1: FieldVal, y1: FieldVal, x2: FieldVal, y2: FieldVal, x3: FieldVal, y3: FieldVal, z3: FieldVal,
                     ghost p: Point, ghost q: Point, ghost s: Point)
    requires x3 != y3 && x3 != z3 && y3 != z3 && x3 != y1
    requires Fermat() && OnCurve(p) && OnCurve(q) && p.Affine? && q.Affine? && p.x != q.x && IsSum(p, q, s) &&
        OnCurve(s)
    requires Is(x1.n, 1, p.x) && Is(y1.n, 1, p.y) && Is(x2.n, 1, q.x) && Is(y2.n, 1, q.y)
    modifies x3, y3, z3
    ensures Coordinates(x3.n, y3.n, z3.n) && Represents(x3.n, y3.n, z3.n, s) && ChordZ(Val(z3.n), p, q, 1)
  {
    hide Is;
    ghost var ui, si := p.x, p.y;
    ghost var hi, ri := q.x - ui, 2 * (q.y - si);
    ghost var ii := 4 * (hi * hi);
    ghost var xr, yr := AddX(ui, hi, ri), AddY(ui, si, hi, ri);
    AddForms(ui, si, hi, ii, ri);
    hide AddX, AddY;
    var h := Neg(x1.n, 1, ui);
    h := Add(h, x2.n, 2, -ui, 1, q.x);
    var i := Sqr(h, 3, hi);
    i := Scale(i, 4, 1, hi * hi);
    var j := Mul(h, i, 3, hi, 4, ii);
    var r := Neg(y1.n, 1, si);
    r := Add(r, y2.n, 2, -si, 1, q.y);
    r := Scale(r, 2, 3, q.y - si);
    var v := Mul(x1.n, i, 1, ui, 4, ii);
    var negJ := Neg(j, 1, hi * ii);
    var neg2V := Scale(v, 2, 1, ui * ii);
    neg2V := Neg(neg2V, 2, 2 * (ui * ii));
    x3.n := Sqr(r, 6, ri);
    x3.n := Add(x3.n, negJ, 1, ri * ri, 2, -(hi * ii));
    x3.n := Add(x3.n, neg2V, 3, ri * ri - hi * ii, 3, -(2 * (ui * ii)));
    var negX3 := Neg(x3.n, 6, xr);
    j := Mul(j, y1.n, 1, hi * ii, 1, si);
    assert hi * ii * si == si * (hi * ii);
    j := Scale(j, 2, 1, si * (hi * ii));
    j := Neg(j, 2, 2 * (si * (hi * ii)));
    y3.n := Add(v, negX3, 1, ui * ii, 7, -xr);
    y3.n := Mul(y3.n, r, 8, ui * ii - xr, 6, ri);
    y3.n := Add(y3.n, j, 1, (ui * ii - xr) * ri, 3, -(2 * (si * (hi * ii))));
    z3.n := Scale(h, 2, 3, hi);
    x3.n := Norm(x3.n, 6, xr);
    y3.n := Norm(y3.n, 4, yr);
    z3.n := Norm(z3.n, 6, 2 * hi);
    OneNonzero();
    ChordStands(p, q, s, 1, ui, si, hi, ri, 2 * hi);
    ChordZIs(z3.n, p, q, 1, hi, 2 * hi);
    Represented(x3.n, y3.n, z3.n, xr, yr, 2 * hi, s);
  }

  lemma OneNonzero()
    ensures !Cong(1, 0)
  {
    NonzeroResidue(1);
  }

  /** addZ1EqualsZ2. */
  method AddZ1EqualsZ2(x1: FieldVal, y1: FieldVal, z1: FieldVal, x2: FieldVal, y2: FieldVal, z2: FieldVal,
                       x3: FieldVal, y3: FieldVal, z3: FieldVal, ghost p: Point, ghost q: Point, ghost s: Point)
    requires Layout(x1, y1, z1, x2, y2, z2, x3, y3, z3) && z1.n == z2.n
    requires Coordinates(x1.n, y1.n, z1.n) && Represents(x1.n, y1.n, z1.n, p) && p.Affine?
    requires Coordinates(x2.n, y2.n, z1.n) && Represents(x2.n, y2.n, z1.n, q) && q.Affine?
    requires Fermat() && IsSum(p, q, s) && OnCurve(s)
    modifies x1, y1, z1, x2, y2, x3, y3, z3
    ensures Coordinates(x3.n, y3.n, z3.n) && Represents(x3.n, y3.n, z3.n, s)
    ensures p.x != q.x ==> SameZZ(Val(z3.n), p, q, old(Val(z1.n)))
    ensures Coordinates(x2.n, y2.n, old(z1.n)) && Represents(x2.n, y2.n, old(z1.n), q)
  {
    hide Is;
    ghost var w := Val(z1.n);
    NormalizeXY(x1, y1, z1.n, p);
    NormalizeXY(x2, y2, z1.n, q);
    PowersNonzero(w);
    LikeTerms(x1.n, x2.n, p.x, q.x, w * w);
    LikeTerms(y1.n, y2.n, p.y, q.y, w * w * w);
    if x1.n == x2.n {
      if y1.n == y2.n {
        DoubleJacobian(x1, y1, z1, x3, y3, z3, p, s);
      } else {
        OppositeSum(p, q, s);
        x3.n, y3.n, z3.n := ZERO, ZERO, ZERO;
      }
      return;
    }
    SameZChord(x1, y1, z1, x2, y2, x3, y3, z3, p, q, s, w);
  }

  /** addZ1EqualsZ2, once the points are known to have different x. */
  method SameZChord(x1: FieldVal, y1: FieldVal, z1: FieldVal, x2: FieldVal, y2: FieldVal,
                    x3: FieldVal, y3: FieldVal, z3: FieldVal,
                    ghost p: Point, ghost q: Point, ghost s: Point, ghost w: int)
    requires x3 != y3 && x3 != z3 && y3 != z3 && x3 !in {y1, z1} && y3 != z1
    requires Fermat() && OnCurve(p) && OnCurve(q) && p.Affine? && q.Affine? && p.x != q.x && IsSum(p, q, s) &&
        OnCurve(s)
    requires !Cong(w, 0) && Is(z1.n, 1, w)
    requires Is(x1.n, 1, p.x * (w * w)) && Is(y1.n, 1, p.y * (w * w * w))
    requires Is(x2.n, 1, q.x * (w * w)) && Is(y2.n, 1, q.y * (w * w * w))
    modifies x3, y3, z3
    ensures Coordinates(x3.n, y3.n, z3.n) && Represents(x3.n, y3.n, z3.n, s) && SameZZ(Val(z3.n), p, q, w)
  {
    hide Is;
    hide Val;
    ghost var xi, yi, xj, yj := p.x * (w * w), p.y * (w * w * w), q.x * (w * w), q.y * (w * w * w);
    ghost var ai, ci := xj - xi, yj - yi;
    ghost var bi := ai * ai;
    ghost var xr, yr := SameZX(xi, xj, ai, ci), SameZY(xi, xj, yi, ai, ci);
    SameZForms(xi, xj, yi, ai, ci, bi);
    hide SameZX, SameZY;
    var negX1 := Neg(x1.n, 1, xi);
    var negY1 := Neg(y1.n, 1, yi);
    var a := Add(negX1, x2.n, 2, -xi, 1, xj);
    var b := Sqr(a, 3, ai);
    var c := Add(negY1, y2.n, 2, -yi, 1, yj);
    var d := Sqr(c, 3, ci);
    var e := Mul(x1.n, b, 1, xi, 1, bi);
    var negE := Neg(e, 1, xi * bi);
    var f := Mul(x2.n, b, 1, xj, 1, bi);
    x3.n := Add(e, f, 1, xi * bi, 1, xj * bi);
    IsMono(x3.n, 2, 3, xi * bi + xj * bi);
    x3.n := Neg(x3.n, 3, xi * bi + xj * bi);
    x3.n := Add(x3.n, d, 4, -(xi * bi + xj * bi), 1, ci * ci);
    var negX3 := Neg(x3.n, 5, xr);
    negX3 := Norm(negX3, 6, -xr);
    f := Add(f, negE, 1, xj * bi, 2, -(xi * bi));
    y3.n := Mul(y1.n, f, 1, yi, 3, xj * bi - xi * bi);
    IsMono(y3.n, 1, 3, yi * (xj * bi - xi * bi));
    y3.n := Neg(y3.n, 3, yi * (xj * bi - xi * bi));
    e := Add(e, negX3, 1, xi * bi, 1, -xr);
    e := Mul(e, c, 2, xi * bi - xr, 3, ci);
    y3.n := Add(y3.n, e, 4, -(yi * (xj * bi - xi * bi)), 1, (xi * bi - xr) * ci);
    z3.n := Mul(z1.n, a, 1, w, 3, ai);
    x3.n := Norm(x3.n, 5, xr);
    y3.n := Norm(y3.n, 5, yr);
    assert ci == (q.y - p.y) * (w * w * w);
    SameZStands(p, q, s, w, xi, yi, xj, ai, ci);
    SameZZIs(z3.n, p, q, w, ai);
    Represented(x3.n, y3.n, z3.n, xr, yr, w * ai, s);
  }

  lemma SameZForms(x1: int, x2: int, y1: int, a: int, c: int, b: int)
    requires b == a * a
    ensures SameZX(x1, x2, a, c) == -(x1 * b + x2 * b) + c * c
    ensures SameZY(x1, x2, y1, a, c) == -(y1 * (x2 * b - x1 * b)) + (x1 * b - SameZX(x1, x2, a, c)) * c
  {
  }

  lemma Renormalized(x: Limbs, y: Limbs, z: Limbs, z': Limbs, p: Point)
    requires Coordinates(x, y, z) && Represents(x, y, z, p) && p.Affine? && Normalized(z') && Cong(Val(z'), Val(z))
    ensures Coordinates(x, y, z') && Represents(x, y, z', p)
  {
    StandsMeaning(Val(x), Val(y), Val(z), p);
    CongRefl(Val(x));
    CongRefl(Val(y));
    StandsCong(Val(x), Val(y), Val(z), Val(x), Val(y), Val(z'), p);
    StandsMeaning(Val(x), Val(y), Val(z'), p);
  }

  /** The code's test for infinity never mistakes a finite point, as (0, 0) is not on the curve. */
  lemma FiniteTest(x: Limbs, y: Limbs, z: Limbs, p: Point)
    requires Fermat() && Coordinates(x, y, z) && Represents(x, y, z, p)
    ensures p.Infinity? <==> (x == ZERO && y == ZERO) || z == ZERO
  {
    hide Val, Mag, Is, OnCurve;
    ZeroVal();
    CongRefl(0);
    if p.Affine? {
      ghost var w := Val(z);
      Finite(x, y, z, p);
      NotOrigin(p, w);
      FromIs(x, 1, p.x * (w * w));
      FromIs(y, 2, p.y * (w * w * w));
    }
  }

  lemma FromIs(a: Limbs, k: nat, u: int)
    requires Is(a, k, u)
    ensures Cong(Val(a), u)
  {
  }

  lemma NotOrigin(p: Point, w: int)
    requires Fermat() && p.Affine? && OnCurve(p) && !Cong(w, 0)
    ensures !(Cong(0, p.x * (w * w)) && Cong(0, p.y * (w * w * w)))
  {
    if Cong(0, p.x * (w * w)) && Cong(0, p.y * (w * w * w)) {
      PowersNonzero(w);
      ZeroFactor(p.x, w * w);
      ZeroFactor(p.y, w * w * w);
      EquationMeaning(0, 0);
      ResidueUnique(0, 7);
    }
  }

  lemma ZeroFactor(x: int, k: int)
    requires Fermat() && 0 <= x < P && !Cong(k, 0) && Cong(0, x * k)
    ensures x == 0
  {
    CongSym(0, x * k);
    if x != 0 {
      NonzeroResidue(x);
      NonzeroProduct(x, k);
    }
  }

  /** The point at infinity is neutral. */
  lemma InfinitySum(p: Point, q: Point, s: Point)
    requires IsSum(p, q, s)
    ensures p.Infinity? ==> s == q
    ensures q.Infinity? ==> s == p
  {
    SumMeaning(p, q, s);
  }

  /**
   addJacobian: the dispatch over the four routines never changes the sum, which may overwrite the
   first point.
   */
  method AddJacobian(x1: FieldVal, y1: FieldVal, z1: FieldVal, x2: FieldVal, y2: FieldVal, z2: FieldVal,
                     x3: FieldVal, y3: FieldVal, z3: FieldVal, ghost p: Point, ghost q: Point, ghost s: Point)
    requires Layout(x1, y1, z1, x2, y2, z2, x3, y3, z3)
    requires Coordinates(x1.n, y1.n, z1.n) && Represents(x1.n, y1.n, z1.n, p)
    requires Coordinates(x2.n, y2.n, z2.n) && Represents(x2.n, y2.n, z2.n, q)
    requires Fermat() && IsSum(p, q, s) && OnCurve(s)
    modifies x1, y1, z1, x2, y2, z2, x3, y3, z3
    ensures Coordinates(x3.n, y3.n, z3.n) && Represents(x3.n, y3.n, z3.n, s)
    ensures z1 != z2 ==> Coordinates(x2.n, y2.n, z2.n) && Represents(x2.n, y2.n, z2.n, q)
    ensures z1 != z2 && old(z2.n) == ONE ==> z2.n == ONE
  {
    hide Coordinates, Represents, IsSum, OnCurve, Normalized;
    FiniteTest(x1.n, y1.n, z1.n, p);
    FiniteTest(x2.n, y2.n, z2.n, q);
    InfinitySum(p, q, s);
    if (x1.n == ZERO && y1.n == ZERO) || z1.n == ZERO {
      x3.n, y3.n, z3.n := x2.n, y2.n, z2.n;
    } else if (x2.n == ZERO && y2.n == ZERO) || z2.n == ZERO {
      x3.n, y3.n, z3.n := x1.n, y1.n, z1.n;
    } else {
      NormalizeBoth(x1, y1, z1, x2, y2, z2, p, q);
      if z1.n == ONE && z2.n == ONE {
        AddZ1AndZ2EqualsOne(x1, y1, z1, x2, y2, z2, x3, y3, z3, p, q, s);
      } else if z1.n == z2.n {
        AddZ1EqualsZ2(x1, y1, z1, x2, y2, z2, x3, y3, z3, p, q, s);
      } else if z2.n == ONE {
        AddZ2EqualsOne(x1, y1, z1, x2, y2, z2, x3, y3, z3, p, q, s);
      } else {
        AddGeneric(x1, y1, z1, x2, y2, z2, x3, y3, z3, p, q, s);
      }
    }
  }

  method NormalizeBoth(x1: FieldVal, y1: FieldVal, z1: FieldVal, x2: FieldVal, y2: FieldVal, z2: FieldVal,
                       ghost p: Point, ghost q: Point)
    requires z1 !in {x1, y1, x2, y2} && z2 !in {x1, y1, x2, y2}
    requires Coordinates(x1.n, y1.n, z1.n) && Represents(x1.n, y1.n, z1.n, p) && p.Affine?
    requires Coordinates(x2.n, y2.n, z2.n) && Represents(x2.n, y2.n, z2.n, q) && q.Affine?
    modifies z1, z2
    ensures Coordinates(x1.n, y1.n, z1.n) && Represents(x1.n, y1.n, z1.n, p)
    ensures Coordinates(x2.n, y2.n, z2.n) && Represents(x2.n, y2.n, z2.n, q)
    ensures Normalized(z1.n) && Normalized(z2.n)
    ensures old(z2.n) == ONE ==> z2.n == ONE
  {
    OneNormalized();
    MagMono(z1.n, 1, 63);
    MagMono(z2.n, 1, 63);
    MagCarries(z1.n);
    z1.Normalize();
    MagMono(z2.n, 1, 63);
    MagCarries(z2.n);
    ghost var z := z2.n;
    z2.Normalize();
    if z1 == z2 {
      CongTrans(Val(z2.n), Val(z), Val(old(z2.n)));
    }
    Renormalized(x1.n, y1.n, old(z1.n), z1.n, p);
    Renormalized(x2.n, y2.n, old(z2.n), z2.n, q);
    if old(z2.n) == ONE {
      NormalizedUnique(z2.n, ONE);
    }
  }

  lemma OneNormalized()
    ensures Normalized(ONE)
  {
  }
}
