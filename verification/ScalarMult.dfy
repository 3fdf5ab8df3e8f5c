/**
 Scalar multiplication (ScalarMult and ScalarBaseMult in crypto/s256crypto.go): the result is the
 multiple of the point in the group of the curve.
 */
module ScalarMult {
  import opened Common
  import opened Congruence
  import opened Power
  import opened Field
  import opened FieldElement
  import opened FieldVals
  import opened FieldRing
  import opened Curve
  import opened JacobianAlgebra
  import opened Jacobian
  import opened Group
  import opened Naf
  import opened SplitScalar

  const BETA: int := 0x7AE96A2B657C07106E64479EAC3434E99CF0497512F58995C1396C28719501EE

  /** The endomorphism (x, y) -> (beta * x, y). */
  ghost function Endomorphism(p: Point): Point {
    match p
    case Infinity => Infinity
    case Affine(x, y) => Affine(BETA * x % P, y)
  }

  /** Beta and lambda are cube roots of one other than one, modulo P and N. */
  lemma CubeRoots()
    ensures 1 < BETA < P && (BETA * BETA + BETA + 1) % P == 0
    ensures 1 < LAMBDA < N && (LAMBDA * LAMBDA + LAMBDA + 1) % N == 0
  {
  }

  lemma BetaCubed()
    ensures Cong(BETA * BETA * BETA, 1)
  {
    CubeRoots();
    var s := BETA * BETA + BETA + 1;
    var q := s / P;
    assert s == q * P;
    BetaFactor(BETA, q);
    CongIntro(BETA * BETA * BETA, 1, (BETA - 1) * q);
  }

  lemma BetaFactor(b: int, q: int)
    requires b * b + b + 1 == q * P
    ensures b * b * b == 1 + (b - 1) * q * P
  {
    assert (b - 1) * (b * b + b + 1) == b * b * b - 1;
    assert (b - 1) * (q * P) == (b - 1) * q * P;
  }

  /** So the endomorphism keeps points on the curve. */
  lemma EndomorphismKeeps(p: Point)
    requires OnCurve(p)
    ensures OnCurve(Endomorphism(p))
  {
    if p.Affine? {
      var x, t := p.x, BETA * p.x % P;
      EquationMeaning(x, p.y);
      CongMod(BETA * x);
      BetaCubed();
      hide Cong, OnCurve, Equation;
      CubeOf(t, BETA, x);
      CongRefl(7);
      CongAdd(t * t * t, x * x * x, 7, 7);
      CongSym(t * t * t + 7, x * x * x + 7);
      CongTrans(p.y * p.y, x * x * x + 7, t * t * t + 7);
      EquationMeaning(t, p.y);
    }
  }

  lemma CubeOf(t: int, b: int, x: int)
    requires Cong(t, b * x) && Cong(b * b * b, 1)
    ensures Cong(t * t * t, x * x * x)
  {
    hide Cong;
    CongMul(t, b * x, t, b * x);
    CongMul(t * t, b * x * (b * x), t, b * x);
    CongScale(x * x * x, b * b * b, 1);
    assert x * x * x * (b * b * b) == b * x * (b * x) * (b * x) by { Regroup(b, x); }
    assert x * x * x * 1 == x * x * x;
    CongTrans(t * t * t, b * x * (b * x) * (b * x), x * x * x);
  }

  lemma Regroup(b: int, x: int)
    ensures x * x * x * (b * b * b) == b * x * (b * x) * (b * x)
  {
  }

  /** The coordinates the elliptic.Curve interface uses: (0, 0) for the point at infinity. */
  ghost function Encoded(p: Point): (int, int) {
    match p
    case Infinity => (0, 0)
    case Affine(x, y) => (x, y)
  }

  /** px, py, pz hold the affine point q, and pyNeg the y of its opposite. */
  ghost predicate Pair(px: Limbs, py: Limbs, pyNeg: Limbs, pz: Limbs, q: Point) {
    && q.Affine? && OnCurve(q) && pz == ONE
    && Is(px, 1, q.x) && Is(py, 2, q.y) && Is(pyNeg, 2, Opposed(q).y)
  }

  lemma AffineRepresents(x: Limbs, y: Limbs, q: Point)
    requires q.Affine? && OnCurve(q) && Is(x, 1, q.x) && Is(y, 2, q.y)
    ensures Coordinates(x, y, ONE) && Represents(x, y, ONE, q)
  {
    OneVal();
    NonzeroResidue(1);
    StandsMeaning(Val(x), Val(y), 1, q);
  }

  /** The objects holding a point in Jacobian coordinates. */
  datatype Triple = Triple(x: FieldVal, y: FieldVal, z: FieldVal)

  /** The objects holding an affine point and the y of its opposite. */
  datatype Signed = Signed(x: FieldVal, y: FieldVal, yNeg: FieldVal, z: FieldVal)

  ghost function Objects(t: Triple): set<FieldVal> { {t.x, t.y, t.z} }

  ghost function SignedObjects(p: Signed): set<FieldVal> { {p.x, p.y, p.yNeg, p.z} }

  ghost predicate Separate(t: Triple, p: Signed) {
    && t.x != t.y && t.x != t.z && t.y != t.z
    && p.x != p.y && p.x != p.z && p.y != p.z && p.yNeg !in {p.x, p.y, p.z}
    && Objects(t) !! SignedObjects(p)
  }

  ghost predicate Holds(t: Triple, r: Point)
    reads Objects(t)
  {
    Coordinates(t.x.n, t.y.n, t.z.n) && Represents(t.x.n, t.y.n, t.z.n, r)
  }

  ghost predicate HoldsPair(p: Signed, q: Point)
    reads SignedObjects(p)
  {
    Pair(p.x.n, p.y.n, p.yNeg.n, p.z.n, q)
  }

  /** Adds digit * q to the point r held by t. */
  method AddDigit(t: Triple, p: Signed, pos: bool, neg: bool, ghost digit: int, ghost r: Point, ghost q: Point)
    returns (ghost s: Point)
    requires Separate(t, p) && GroupLaw() && OnCurve(r) && Holds(t, r) && HoldsPair(p, q)
    requires -1 <= digit <= 1 && pos == (digit == 1) && neg == (digit == -1)
    modifies Objects(t), SignedObjects(p)
    ensures s == Plus(r, Times(digit, q)) && OnCurve(s) && Holds(t, s) && HoldsPair(p, q)
  {
    hide Is, Coordinates, Represents, Plus, GroupLaw, OnCurve;
    OneStep(q);
    if pos {
      PlusIsSum(r, q);
      s := Plus(r, q);
      AffineRepresents(p.x.n, p.y.n, q);
      AddJacobian(t.x, t.y, t.z, p.x, p.y, p.z, t.x, t.y, t.z, r, q, s);
      AffineIs(p.x.n, p.y.n, q);
    } else if neg {
      ghost var o := Opposed(q);
      PlusIsSum(r, o);
      s := Plus(r, o);
      AffineRepresents(p.x.n, p.yNeg.n, o);
      AddJacobian(t.x, t.y, t.z, p.x, p.yNeg, p.z, t.x, t.y, t.z, r, o, s);
      AffineIs(p.x.n, p.yNeg.n, o);
    } else {
      s := r;
      Neutral(r);
    }
  }

  lemma OneStep(q: Point)
    requires GroupLaw() && OnCurve(q)
    ensures Times(0, q) == Infinity && Times(1, q) == q && Times(-1, q) == Opposed(q) && OnCurve(Opposed(q))
    ensures Fermat()
  {
    hide Plus, OnCurve;
    TimesOne(q);
    TimesOpposed(1, q);
    OpposedOnCurve(q);
  }

  /** a * u + b * v. */
  ghost function Combination(a: int, u: Point, b: int, v: Point): Point {
    Plus(Times(a, u), Times(b, v))
  }

  lemma CombinationDouble(a: int, u: Point, b: int, v: Point)
    requires GroupLaw() && OnCurve(u) && OnCurve(v)
    ensures var r := Combination(a, u, b, v);
            OnCurve(r) && IsSum(r, r, Combination(2 * a, u, 2 * b, v)) && OnCurve(Combination(2 * a, u, 2 * b, v))
  {
    hide Plus, GroupLaw, OnCurve, IsSum;
    var ta, tb := Times(a, u), Times(b, v);
    TimesOnCurve(a, u);
    TimesOnCurve(b, v);
    PlusIsSum(ta, tb);
    var r := Plus(ta, tb);
    PlusIsSum(r, r);
    Interchange(ta, tb, ta, tb);
    TimesAdd(a, a, u);
    TimesAdd(b, b, v);
    assert a + a == 2 * a && b + b == 2 * b;
  }

  lemma CombinationFirst(a: int, u: Point, b: int, v: Point, x: int)
    requires GroupLaw() && OnCurve(u) && OnCurve(v)
    ensures Plus(Combination(a, u, b, v), Times(x, u)) == Combination(a + x, u, b, v)
  {
    hide Plus, GroupLaw, OnCurve, IsSum;
    var ta, tb, tx := Times(a, u), Times(b, v), Times(x, u);
    TimesOnCurve(a, u);
    TimesOnCurve(b, v);
    TimesOnCurve(x, u);
    Associate(ta, tb, tx);
    Commute(tb, tx);
    Associate(ta, tx, tb);
    TimesAdd(a, x, u);
  }

  lemma CombinationSecond(a: int, u: Point, b: int, v: Point, x: int)
    requires GroupLaw() && OnCurve(u) && OnCurve(v)
    ensures Plus(Combination(a, u, b, v), Times(x, v)) == Combination(a, u, b + x, v)
  {
    hide Plus, GroupLaw, OnCurve, IsSum;
    TimesOnCurve(a, u);
    TimesOnCurve(b, v);
    TimesOnCurve(x, v);
    Associate(Times(a, u), Times(b, v), Times(x, v));
    TimesAdd(b, x, v);
  }

  /** The loop body of ScalarMult: double, then add the digits of both halves. */
  method BitStep(t: Triple, p1: Signed, p2: Signed, pos1: bool, neg1: bool, pos2: bool, neg2: bool,
                 ghost x1: int, ghost x2: int, ghost a: int, ghost b: int, ghost u: Point, ghost v: Point)
    requires Separate(t, p1) && Separate(t, p2) && SignedObjects(p1) !! SignedObjects(p2)
    requires GroupLaw() && HoldsPair(p1, u) && HoldsPair(p2, v) && Holds(t, Combination(a, u, b, v))
    requires -1 <= x1 <= 1 && pos1 == (x1 == 1) && neg1 == (x1 == -1)
    requires -1 <= x2 <= 1 && pos2 == (x2 == 1) && neg2 == (x2 == -1)
    modifies Objects(t), SignedObjects(p1), SignedObjects(p2)
    ensures HoldsPair(p1, u) && HoldsPair(p2, v) && Holds(t, Combination(2 * a + x1, u, 2 * b + x2, v))
  {
    hide Is, Coordinates, Represents, Plus, GroupLaw, OnCurve, Combination;
    ghost var r := Combination(a, u, b, v);
    CombinationDouble(a, u, b, v);
    ghost var s := Combination(2 * a, u, 2 * b, v);
    GroupFermat();
    DoubleJacobian(t.x, t.y, t.z, t.x, t.y, t.z, r, s);
    CombinationFirst(2 * a, u, 2 * b, v, x1);
    s := AddDigit(t, p1, pos1, neg1, x1, s, u);
    CombinationSecond(2 * a + x1, u, 2 * b, v, x2);
    s := AddDigit(t, p2, pos2, neg2, x2, s, v);
  }

  lemma GroupFermat()
    requires GroupLaw()
    ensures Fermat()
  {
  }

  // ------------------------------------------------------------------ the loops of ScalarMult

  lemma {:induction false} MarksBound(d: seq<int>, s: int)
    ensures 0 <= Marks(d, s) < Pow2(|d|)
  {
    if d != [] {
      MarksBound(d[1..], s);
    }
  }

  /** Testing and shifting out the top bit of a byte of marks. */
  lemma MarksShift(e: seq<int>, s: int)
    requires |e| == 8 && s != 0
    ensures Marks(e, s) >= 128 <==> e[7] == s
    ensures 2 * Marks(e, s) % 256 == Marks([0] + e[..7], s)
  {
    MarksAppend(e[..7], e[7], s);
    assert e[..7] + [e[7]] == e;
    MarksBound(e[..7], s);
    assert Pow2(7) == 128;
    assert ([0] + e[..7])[1..] == e[..7];
  }

  /** c and d are the marks of e with the j highest digits shifted out. */
  ghost predicate Shifted(e: seq<int>, f: seq<int>, c: int, d: int, j: nat) {
    && |e| == |f| == 8 && SignedBits(f) && c == Marks(f, 1) && d == Marks(f, -1)
    && forall i :: j <= i < 8 ==> f[i] == e[i - j]
  }

  lemma ShiftedStep(e: seq<int>, f: seq<int>, c: int, d: int, j: nat)
    requires Shifted(e, f, c, d, j) && j < 8
    ensures -1 <= e[7 - j] <= 1 && (c >= 128 <==> e[7 - j] == 1) && (d >= 128 <==> e[7 - j] == -1)
    ensures Shifted(e, [0] + f[..7], 2 * c % 256, 2 * d % 256, j + 1)
  {
    assert f[7] == e[7 - j];
    MarksShift(f, 1);
    MarksShift(f, -1);
  }

  /** The value of a followed by the j highest digits of e. */
  ghost function Prefix(e: seq<int>, j: nat, a: int): int
    requires |e| == 8 && j <= 8
  {
    Pow2(j) * a + DigitsVal(e[8 - j..])
  }

  lemma PrefixStep(e: seq<int>, j: nat, a: int)
    requires |e| == 8 && j < 8
    ensures 2 * Prefix(e, j, a) + e[7 - j] == Prefix(e, j + 1, a)
  {
    var f := e[7 - j..];
    assert f[1..] == e[8 - j..] && f[0] == e[7 - j];
    assert 2 * (Pow2(j) * a) == Pow2(j + 1) * a;
  }

  lemma PrefixEnds(e: seq<int>, a: int)
    requires |e| == 8
    ensures Prefix(e, 0, a) == a && Prefix(e, 8, a) == 256 * a + DigitsVal(e)
  {
    assert e[8..] == [] && e[0..] == e;
    assert Pow2(0) == 1 && Pow2(8) == 256;
  }

  /** Step j of a byte. */
  method ByteStepAt(t: Triple, p1: Signed, p2: Signed, c1: int, d1: int, c2: int, d2: int, ghost j: nat,
                    ghost e1: seq<int>, ghost e2: seq<int>, ghost f1: seq<int>, ghost f2: seq<int>,
                    ghost a: int, ghost b: int, ghost u: Point, ghost v: Point)
    requires Separate(t, p1) && Separate(t, p2) && SignedObjects(p1) !! SignedObjects(p2)
    requires j < 8 && |e1| == |e2| == 8 && Shifted(e1, f1, c1, d1, j) && Shifted(e2, f2, c2, d2, j)
    requires GroupLaw() && HoldsPair(p1, u) && HoldsPair(p2, v)
    requires Holds(t, Combination(Prefix(e1, j, a), u, Prefix(e2, j, b), v))
    modifies Objects(t), SignedObjects(p1), SignedObjects(p2)
    ensures HoldsPair(p1, u) && HoldsPair(p2, v)
    ensures Holds(t, Combination(Prefix(e1, j + 1, a), u, Prefix(e2, j + 1, b), v))
  {
    hide *;
    ShiftedStep(e1, f1, c1, d1, j);
    ShiftedStep(e2, f2, c2, d2, j);
    PrefixStep(e1, j, a);
    PrefixStep(e2, j, b);
    BitStep(t, p1, p2, c1 >= 128, d1 >= 128, c2 >= 128, d2 >= 128, e1[7 - j], e2[7 - j],
            Prefix(e1, j, a), Prefix(e2, j, b), u, v);
  }

  /** The eight steps for one byte of each non-adjacent form, highest digit first. */
  method ByteSteps(t: Triple, p1: Signed, p2: Signed, pos1: int, neg1: int, pos2: int, neg2: int,
                   ghost e1: seq<int>, ghost e2: seq<int>, ghost a: int, ghost b: int, ghost u: Point, ghost v: Point)
    requires Separate(t, p1) && Separate(t, p2) && SignedObjects(p1) !! SignedObjects(p2)
    requires GroupLaw() && HoldsPair(p1, u) && HoldsPair(p2, v) && Holds(t, Combination(a, u, b, v))
    requires Shifted(e1, e1, pos1, neg1, 0) && Shifted(e2, e2, pos2, neg2, 0)
    modifies Objects(t), SignedObjects(p1), SignedObjects(p2)
    ensures HoldsPair(p1, u) && HoldsPair(p2, v)
    ensures Holds(t, Combination(256 * a + DigitsVal(e1), u, 256 * b + DigitsVal(e2), v))
  {
    var c1, d1, c2, d2 := pos1, neg1, pos2, neg2;
    assert |e1| == |e2| == 8;
    ghost var f1, f2 := e1, e2;
    PrefixEnds(e1, a);
    PrefixEnds(e2, b);
    hide *;
    for j := 0 to 8
      invariant HoldsPair(p1, u) && HoldsPair(p2, v)
      invariant Holds(t, Combination(Prefix(e1, j, a), u, Prefix(e2, j, b), v))
      invariant |f1| == |f2| == 8 && Shifted(e1, f1, c1, d1, j) && Shifted(e2, f2, c2, d2, j)
    {
      ByteStepAt(t, p1, p2, c1, d1, c2, d2, j, e1, e2, f1, f2, a, b, u, v);
      ShiftedStep(e1, f1, c1, d1, j);
      ShiftedStep(e2, f2, c2, d2, j);
      c1, d1, c2, d2 := 2 * c1 % 256, 2 * d1 % 256, 2 * c2 % 256, 2 * d2 % 256;
      f1, f2 := [0] + f1[..7], [0] + f2[..7];
    }
  }

  /** Digits padded with zeros at the top, to m bytes. */
  ghost function Padded(d: seq<int>, m: nat): seq<int>
    requires |d| <= 8 * m
  {
    d + ZeroDigits(8 * m - |d|)
  }

  /** A non-adjacent form padded on the left to m bytes. */
  function ByteAt(b: seq<int>, m: nat, i: nat): int
    requires |b| <= m && i < m
  {
    if i < m - |b| then 0 else b[i - (m - |b|)]
  }

  lemma PaddedByte(pos: seq<int>, neg: seq<int>, d: seq<int>, m: nat, i: nat)
    requires Marked(pos, neg, d) && SignedBits(d) && |pos| <= m && i < m
    ensures |Padded(d, m)| == 8 * m
    ensures var n := 8 * (m - 1 - i);
            var e := Padded(d, m)[n..n + 8];
            Shifted(e, e, ByteAt(pos, m, i), ByteAt(neg, m, i), 0)
  {
    var r := m - 1 - i;
    var n := 8 * r;
    var e := Padded(d, m)[n..n + 8];
    if i < m - |pos| {
      assert e == ZeroDigits(8);
      Zeros(8);
    } else {
      assert e == d[8 * r..8 * r + 8];
      assert pos[|pos| - 1 - r] == pos[i - (m - |pos|)];
    }
  }

  /** The value of the i highest bytes of the padded digits. */
  ghost function Top(d: seq<int>, m: nat, i: nat): int
    requires |d| <= 8 * m && i <= m
  {
    DigitsVal(Padded(d, m)[8 * (m - i)..])
  }

  lemma TopStep(d: seq<int>, m: nat, i: nat)
    requires |d| <= 8 * m && i < m
    ensures |Padded(d, m)| == 8 * m
    ensures var n := 8 * (m - 1 - i); Top(d, m, i + 1) == 256 * Top(d, m, i) + DigitsVal(Padded(d, m)[n..n + 8])
  {
    var e, n := Padded(d, m), 8 * (m - 1 - i);
    DigitsAppend(e[n..n + 8], e[n + 8..]);
    assert e[n..] == e[n..n + 8] + e[n + 8..];
    assert Pow2(8) == 256;
  }

  lemma TopEnds(d: seq<int>, m: nat)
    requires |d| <= 8 * m
    ensures Top(d, m, m) == DigitsVal(d) && Top(d, m, 0) == 0
  {
    hide DigitsVal, ZeroDigits;
    var e := Padded(d, m);
    DigitsPad(d, 8 * m - |d|);
    assert e[8 * (m - 0)..] == [] && e[8 * (m - m)..] == e;
    NoDigits();
  }

  lemma DigitsPad(d: seq<int>, n: nat)
    ensures DigitsVal(d + ZeroDigits(n)) == DigitsVal(d)
  {
    hide *;
    DigitsAppend(d, ZeroDigits(n));
    Zeros(n);
    TimesZero(Pow2(|d|), DigitsVal(ZeroDigits(n)));
  }

  lemma TimesZero(x: int, y: int)
    ensures y == 0 ==> x * y == 0
  {
  }

  lemma NoDigits()
    ensures DigitsVal([]) == 0
  {
  }

  ghost predicate IsNaf(pos: seq<int>, neg: seq<int>, d: seq<int>, m: nat) {
    Marked(pos, neg, d) && SignedBits(d) && |pos| == |neg| <= m && |d| <= 8 * m
  }

  lemma NafByteAt(pos: seq<int>, neg: seq<int>, d: seq<int>, m: nat, i: nat)
    requires IsNaf(pos, neg, d, m) && i < m
    ensures |pos| <= m && |neg| <= m && |d| <= 8 * m && |Padded(d, m)| == 8 * m
    ensures var n := 8 * (m - 1 - i);
            var e := Padded(d, m)[n..n + 8];
            Shifted(e, e, ByteAt(pos, m, i), ByteAt(neg, m, i), 0)
  {
    PaddedByte(pos, neg, d, m, i);
  }

  /** One byte of both non-adjacent forms. */
  method JointStep(t: Triple, p1: Signed, p2: Signed, k1Pos: seq<int>, k1Neg: seq<int>, k2Pos: seq<int>,
          k2Neg: seq<int>,
                   m: nat, i: nat, ghost d1: seq<int>, ghost d2: seq<int>, ghost u: Point, ghost v: Point)
    requires Separate(t, p1) && Separate(t, p2) && SignedObjects(p1) !! SignedObjects(p2)
    requires i < m && IsNaf(k1Pos, k1Neg, d1, m) && IsNaf(k2Pos, k2Neg, d2, m)
    requires GroupLaw() && HoldsPair(p1, u) && HoldsPair(p2, v)
    requires Holds(t, Combination(Top(d1, m, i), u, Top(d2, m, i), v))
    modifies Objects(t), SignedObjects(p1), SignedObjects(p2)
    ensures HoldsPair(p1, u) && HoldsPair(p2, v)
    ensures Holds(t, Combination(Top(d1, m, i + 1), u, Top(d2, m, i + 1), v))
  {
    hide *;
    NafByteAt(k1Pos, k1Neg, d1, m, i);
    NafByteAt(k2Pos, k2Neg, d2, m, i);
    var b1, c1, b2, c2 := ByteAt(k1Pos, m, i), ByteAt(k1Neg, m, i), ByteAt(k2Pos, m, i), ByteAt(k2Neg, m, i);
    TopStep(d1, m, i);
    TopStep(d2, m, i);
    ghost var n := 8 * (m - 1 - i);
    ByteSteps(t, p1, p2, b1, c1, b2, c2, Padded(d1, m)[n..n + 8], Padded(d2, m)[n..n + 8],
              Top(d1, m, i), Top(d2, m, i), u, v);
  }

  /** The joint double-and-add over both non-adjacent forms (algorithm 3.77 of GECC). */
  method JointLoop(t: Triple, p1: Signed, p2: Signed, k1Pos: seq<int>, k1Neg: seq<int>, k2Pos: seq<int>,
          k2Neg: seq<int>,
                   ghost d1: seq<int>, ghost d2: seq<int>, ghost u: Point, ghost v: Point)
    requires Separate(t, p1) && Separate(t, p2) && SignedObjects(p1) !! SignedObjects(p2)
    requires GroupLaw() && HoldsPair(p1, u) && HoldsPair(p2, v) && Holds(t, Infinity)
    requires Marked(k1Pos, k1Neg, d1) && SignedBits(d1) && Marked(k2Pos, k2Neg, d2) && SignedBits(d2)
    modifies Objects(t), SignedObjects(p1), SignedObjects(p2)
    ensures Holds(t, Combination(DigitsVal(d1), u, DigitsVal(d2), v))
  {
    var m := if |k1Pos| < |k2Pos| then |k2Pos| else |k1Pos|;
    assert IsNaf(k1Pos, k1Neg, d1, m) && IsNaf(k2Pos, k2Neg, d2, m);
    TopEnds(d1, m);
    TopEnds(d2, m);
    NothingYet(u, v);
    hide *;
    for i := 0 to m
      invariant HoldsPair(p1, u) && HoldsPair(p2, v)
      invariant Holds(t, Combination(Top(d1, m, i), u, Top(d2, m, i), v))
    {
      JointStep(t, p1, p2, k1Pos, k1Neg, k2Pos, k2Neg, m, i, d1, d2, u, v);
    }
  }

  lemma NothingYet(u: Point, v: Point)
    requires GroupLaw()
    ensures Combination(0, u, 0, v) == Infinity
  {
    OnCurveInfinity();
    Neutral(Infinity);
  }

  // ------------------------------------------------------------------ conversions

  /** fieldJacobianToBigAffine. */
  method ToAffine(t: Triple, ghost r: Point) returns (x: int, y: int)
    requires t.x != t.y && t.x != t.z && t.y != t.z && Fermat() && OnCurve(r) && Holds(t, r)
    modifies Objects(t)
    ensures (x, y) == Encoded(r)
  {
    ghost var xi, yi, w := Val(t.x.n), Val(t.y.n), Val(t.z.n);
    SelfIs(t.x.n, 1);
    SelfIs(t.y.n, 2);
    MagMono(t.z.n, 1, 8);
    var zInv := InverseLimbs(t.z.n);
    ghost var i := Val(zInv);
    SelfIs(zInv, 1);
    CoordinateValues(t.x.n, t.y.n, t.z.n, r);
    AffineCoordinates(xi, yi, w, r, i);
    OnCurveRange(r);
    hide *;
    var tempZ := Sqr(zInv, 1, i);
    t.x.n := Mul(t.x.n, tempZ, 1, xi, 1, i * i);
    tempZ := Mul(tempZ, zInv, 1, i * i, 1, i);
    t.y.n := Mul(t.y.n, tempZ, 2, yi, 1, i * i * i);
    t.z.n := ONE;
    t.x.n := Norm(t.x.n, 1, xi * (i * i));
    t.y.n := Norm(t.y.n, 1, yi * (i * i * i));
    NormalizedIs(t.x.n, xi * (i * i), Encoded(r).0);
    NormalizedIs(t.y.n, yi * (i * i * i), Encoded(r).1);
    var bx := UnpackBytes(t.x.n);
    var by_ := UnpackBytes(t.y.n);
    x, y := BigEndian(bx), BigEndian(by_);
  }

  lemma SelfIs(a: Limbs, k: nat)
    requires Mag(a, k)
    ensures Is(a, k, Val(a))
  {
    CongRefl(Val(a));
  }

  lemma NormalizedIs(a: Limbs, u: int, v: int)
    requires Normalized(a) && Is(a, 1, u) && Cong(u, v) && 0 <= v < P
    ensures Packed(a) && Val(a) == v
  {
    CongTrans(Val(a), u, v);
    ResidueUnique(Val(a), v);
  }

  lemma CoordinateValues(x: Limbs, y: Limbs, z: Limbs, r: Point)
    requires Represents(x, y, z, r)
    ensures r.Affine? ==> Stands(Val(x), Val(y), Val(z), r)
    ensures r.Infinity? ==> (Val(x) == 0 && Val(y) == 0) || Val(z) == 0
  {
    hide Val, Stands, OnCurve;
    ZeroVal();
  }

  /** Multiplying by the powers of the inverse of z gives the affine coordinates, or zeros. */
  lemma AffineCoordinates(x: int, y: int, z: int, r: Point, i: int)
    requires Fermat() && IsPower(i, z, P - 2)
    requires r.Affine? ==> Stands(x, y, z, r)
    requires r.Infinity? ==> (x == 0 && y == 0) || z == 0
    ensures Cong(x * (i * i), Encoded(r).0) && Cong(y * (i * i * i), Encoded(r).1)
  {
    hide Stands, IsPower, Cong, Fermat;
    if r.Affine? {
      FiniteCoordinates(x, y, z, r, i);
    } else if z == 0 {
      ZeroTimesAnything(x, y, i);
    } else {
      ZeroCoordinates(i);
    }
  }

  lemma FiniteCoordinates(x: int, y: int, z: int, r: Point, i: int)
    requires Fermat() && r.Affine? && Stands(x, y, z, r) && IsPower(i, z, P - 2)
    ensures Cong(x * (i * i), r.x) && Cong(y * (i * i * i), r.y)
  {
    StandsMeaning(x, y, z, r);
    hide Cong, IsPower, Fermat, Stands;
    InverseExists(z, i);
    ProductMeaning(1, z, i);
    CongSym(1, z * i);
    CancelSquare(x, r.x, z, i);
    CancelCube(y, r.y, z, i);
  }

  lemma ZeroTimesAnything(x: int, y: int, i: int)
    requires IsPower(i, 0, P - 2)
    ensures Cong(x * (i * i), 0) && Cong(y * (i * i * i), 0)
  {
    CongRefl(0);
    ZeroPower(0, i);
    CongMul(i, 0, i, 0);
    CongMul(i * i, 0, i, 0);
    CongScale(x, i * i, 0);
    CongScale(y, i * i * i, 0);
  }

  lemma ZeroCoordinates(i: int)
    ensures Cong(0 * (i * i), 0) && Cong(0 * (i * i * i), 0)
  {
    CongRefl(0);
  }

  lemma OnCurveRange(r: Point)
    requires OnCurve(r)
    ensures 0 <= Encoded(r).0 < P && 0 <= Encoded(r).1 < P
  {
  }

  lemma CancelSquare(x: int, a: int, w: int, i: int)
    requires Cong(x, a * (w * w)) && Cong(w * i, 1)
    ensures Cong(x * (i * i), a)
  {
    CongRefl(i * i);
    CongMul(x, a * (w * w), i * i, i * i);
    CongMul(w * i, 1, w * i, 1);
    CongScale(a, w * i * (w * i), 1);
    assert a * (w * w) * (i * i) == a * (w * i * (w * i));
    CongTrans(x * (i * i), a * (w * i * (w * i)), a);
  }

  lemma CancelCube(y: int, b: int, w: int, i: int)
    requires Cong(y, b * (w * w * w)) && Cong(w * i, 1)
    ensures Cong(y * (i * i * i), b)
  {
    CongRefl(i * i * i);
    CongMul(y, b * (w * w * w), i * i * i, i * i * i);
    CongMul(w * i, 1, w * i, 1);
    CongMul(w * i * (w * i), 1, w * i, 1);
    CongScale(b, w * i * (w * i) * (w * i), 1);
    assert b * (w * w * w) * (i * i * i) == b * (w * i * (w * i) * (w * i));
    CongTrans(y * (i * i * i), b * (w * i * (w * i) * (w * i)), b);
  }

  lemma {:induction false} BigEndianZeros(n: nat)
    ensures BigEndian(seq(n, _ => 0)) == 0
  {
    if n > 0 {
      BigEndianZeros(n - 1);
      assert seq(n, _ => 0)[..n - 1] == seq(n - 1, _ => 0);
    }
  }

  /** SetByteSlice: at most 32 bytes, aligned to the right. */
  method SetByteSlice(b: seq<int>) returns (r: Limbs)
    requires AreBytes(b) && |b| <= 32
    ensures Packed(r) && Val(r) == BigEndian(b)
  {
    hide Val, Packed, BigEndian;
    var b32 := seq(32, _ => 0);
    for i := 0 to |b|
      invariant |b32| == 32
      invariant forall j :: 0 <= j < 32 ==> b32[j] == if 0 <= j - (32 - |b|) < i then b[j - (32 - |b|)] else 0
    {
      b32 := b32[i + (32 - |b|) := b[i]];
    }
    LeadingZeros(b32, b);
    r := PackBytes(b32);
  }

  lemma LeadingZeros(b32: seq<int>, b: seq<int>)
    requires |b32| == 32 && |b| <= 32
    requires forall j :: 0 <= j < 32 ==> b32[j] == if 0 <= j - (32 - |b|) < |b| then b[j - (32 - |b|)] else 0
    ensures BigEndian(b32) == BigEndian(b)
  {
    hide BigEndian, Weight;
    var pad := seq(32 - |b|, _ => 0);
    assert b32 == pad + b;
    BigEndianConcat(pad, b);
    BigEndianZeros(32 - |b|);
    TimesZero(Weight(|b|), BigEndian(pad));
  }

  /** A coordinate below P as a field element (bigAffineToField). */
  method FromBig(n: int) returns (r: Limbs)
    requires 0 <= n < P
    ensures Is(r, 1, n)
  {
    WeightOf32();
    ToBytesLength(n, 32);
    r := SetByteSlice(ToBytes(n));
    CongRefl(n);
  }

  /** The point k*P is k1*P + k2*phi(P), with the signs moved into the points. */
  lemma SplitSum(b: Point, k: int, k1: int, k2: int, q: int, u: Point, v: Point, a1: int, a2: int)
    requires GroupLaw() && OnCurve(b) && Times(N, b) == Infinity && k1 + k2 * LAMBDA == k + q * N
    requires a1 == (if k1 < 0 then -k1 else k1) && a2 == (if k2 < 0 then -k2 else k2)
    requires u == (if k1 < 0 then Opposed(b) else b)
    requires v == (if k2 < 0 then Opposed(Times(LAMBDA, b)) else Times(LAMBDA, b))
    ensures Combination(a1, u, a2, v) == Times(k, b)
  {
    hide GroupLaw, Plus, OnCurve, Times;
    var c := Times(LAMBDA, b);
    TimesOnCurve(LAMBDA, b);
    TimesOfOpposed(a1, b);
    TimesOfOpposed(a2, c);
    assert Times(a1, u) == Times(k1, b);
    assert Times(a2, v) == Times(k2, c);
    TimesMul(k2, LAMBDA, b);
    TimesAdd(k1, k2 * LAMBDA, b);
    TimesModulo(k1 + k2 * LAMBDA, k, N, q, b);
  }

  /** Allocates the objects for the affine point q and the y of its opposite, swapped if negative. */
  method NewSigned(x: Limbs, y: Limbs, negative: bool, ghost q: Point) returns (p: Signed)
    requires q.Affine? && OnCurve(q) && Is(x, 1, q.x) && Is(y, 1, q.y)
    ensures HoldsPair(p, if negative then Opposed(q) else q) && fresh(SignedObjects(p))
    ensures p.x != p.y && p.x != p.z && p.y != p.z && p.yNeg !in {p.x, p.y, p.z}
  {
    var yNeg := Neg(y, 1, q.y);
    OppositeY(q, y, yNeg);
    var px := new FieldVal(x);
    var py := new FieldVal(y);
    var pyNeg := new FieldVal(yNeg);
    var pz := new FieldVal(ONE);
    p := if negative then Signed(px, pyNeg, py, pz) else Signed(px, py, pyNeg, pz);
  }

  lemma OppositeY(q: Point, y: Limbs, yNeg: Limbs)
    requires q.Affine? && OnCurve(q) && Is(y, 1, q.y) && Is(yNeg, 2, -q.y)
    ensures Is(y, 2, q.y) && Is(yNeg, 2, Opposed(q).y) && OnCurve(Opposed(q)) && Opposed(Opposed(q)) == q
  {
    MagMono(y, 1, 2);
    OpposedOnCurve(q);
    if q.y == 0 {
      CongRefl(0);
    } else {
      CongIntro(-q.y, P - q.y, -1);
    }
    CongTrans(Val(yNeg), -q.y, Opposed(q).y);
  }

  /** The objects ScalarMult works on: the point, its image under the endomorphism, and infinity. */
  method Prepare(xB: int, yB: int, neg1: bool, neg2: bool, ghost b: Point, ghost c: Point)
    returns (t: Triple, p1: Signed, p2: Signed)
    requires b == Affine(xB, yB) && OnCurve(b) && c == Endomorphism(b) && OnCurve(c)
    ensures Separate(t, p1) && Separate(t, p2) && SignedObjects(p1) !! SignedObjects(p2)
    ensures fresh(Objects(t)) && fresh(SignedObjects(p1)) && fresh(SignedObjects(p2))
    ensures Holds(t, Infinity)
    ensures HoldsPair(p1, if neg1 then Opposed(b) else b) && HoldsPair(p2, if neg2 then Opposed(c) else c)
  {
    var p1x := FromBig(xB);
    var p1y := FromBig(yB);
    var beta := FromBig(BETA);
    var p2x := Mul(p1x, beta, 1, xB, 1, BETA);
    BetaX(p2x, xB);
    hide Is, Pair, OnCurve, Coordinates, Represents, Opposed;
    p1 := NewSigned(p1x, p1y, neg1, b);
    p2 := NewSigned(p2x, p1y, neg2, c);
    t := NewInfinity();
  }

  method NewInfinity() returns (t: Triple)
    ensures fresh(Objects(t)) && t.x != t.y && t.x != t.z && t.y != t.z && Holds(t, Infinity)
  {
    var qx := new FieldVal(ZERO);
    var qy := new FieldVal(ZERO);
    var qz := new FieldVal(ZERO);
    t := Triple(qx, qy, qz);
    InfinityHolds();
  }

  /** ScalarMult: k times the point (xB, yB), for a scalar of any length. */
  method ScalarMult(xB: int, yB: int, k: seq<int>) returns (x: int, y: int)
    requires AreBytes(k) && GroupLaw() && OnCurve(Affine(xB, yB))
    requires Times(N, Affine(xB, yB)) == Infinity
    requires Times(LAMBDA, Affine(xB, yB)) == Endomorphism(Affine(xB, yB))
    ensures (x, y) == Encoded(Times(BigEndian(k), Affine(xB, yB)))
  {
    ghost var q0 := ModuloReduceCorrect(k);
    ghost var b := Affine(xB, yB);
    ghost var c := Endomorphism(b);
    var kr := ModuloReduce(k);
    var (k1, k2) := SplitK(BigEndian(kr));
    hide *;
    ghost var q1 := SplitKCorrect(BigEndian(kr));
    TimesOnCurve(LAMBDA, b);
    var a1 := if k1 < 0 then -k1 else k1;
    var a2 := if k2 < 0 then -k2 else k2;
    ghost var u := if k1 < 0 then Opposed(b) else b;
    ghost var v := if k2 < 0 then Opposed(c) else c;
    var t, p1, p2 := Prepare(xB, yB, k1 < 0, k2 < 0, b, c);
    ghost var d1, d2;
    var k1Pos, k1Neg, k2Pos, k2Neg;
    k1Pos, k1Neg, d1 := NAF(ToBytes(a1));
    k2Pos, k2Neg, d2 := NAF(ToBytes(a2));
    JointLoop(t, p1, p2, k1Pos, k1Neg, k2Pos, k2Neg, d1, d2, u, v);
    GroupFermat();
    TimesOnCurve(BigEndian(kr), b);
    SplitSum(b, BigEndian(kr), k1, k2, q1, u, v, a1, a2);
    SeparateTriple(t, p1);
    x, y := ToAffine(t, Times(BigEndian(kr), b));
    TimesModulo(BigEndian(kr), BigEndian(k), N, q0, b);
  }

  lemma SeparateTriple(t: Triple, p: Signed)
    requires Separate(t, p)
    ensures t.x != t.y && t.x != t.z && t.y != t.z
  {
  }

  lemma BetaX(p2x: Limbs, x: int)
    requires Is(p2x, 1, x * BETA)
    ensures Is(p2x, 1, BETA * x % P)
  {
    CongMod(BETA * x);
    CongSym(BETA * x % P, BETA * x);
    CongTrans(Val(p2x), x * BETA, BETA * x % P);
  }

  lemma InfinityHolds()
    ensures Coordinates(ZERO, ZERO, ZERO) && Represents(ZERO, ZERO, ZERO, Infinity)
  {
  }

  // ------------------------------------------------------------------ ScalarBaseMult

  /** One precomputed point, copied out of the table. */
  datatype Entry = Entry(x: Limbs, y: Limbs, z: Limbs)

  ghost predicate EntryHolds(e: Entry, p: Point) {
    Coordinates(e.x, e.y, e.z) && Represents(e.x, e.y, e.z, p)
  }

  /** Entry i of window w is i * 256^(31-w) times the base point. */
  ghost predicate TableCorrect(table: seq<seq<Entry>>, g: Point) {
    && |table| == 32
    && forall w :: 0 <= w < 32 ==>
         && |table[w]| == 256
         && forall i {:trigger table[w][i]} :: 0 <= i < 256 ==> EntryHolds(table[w][i], Times(i * Weight(31 - w), g))
  }

  /** What the bytes before position i contribute to the scalar. */
  ghost function Done(k: seq<int>, i: nat): int
    requires i <= |k|
  {
    BigEndian(k[..i]) * Weight(|k| - i)
  }

  /** ScalarBaseMult: the sum of one table entry for each byte of the scalar. */
  method ScalarBaseMult(k: seq<int>, table: seq<seq<Entry>>, ghost g: Point) returns (x: int, y: int)
    requires AreBytes(k) && GroupLaw() && OnCurve(g) && Times(N, g) == Infinity && TableCorrect(table, g)
    ensures (x, y) == Encoded(Times(BigEndian(k), g))
  {
    ghost var q := ModuloReduceCorrect(k);
    var newK := ModuloReduce(k);
    var t := NewInfinity();
    assert newK[..|newK|] == newK && Weight(0) == 1;
    assert Done(newK, |newK|) == BigEndian(newK);
    assert Done(newK, 0) == 0;
    hide *;
    for i := 0 to |newK|
      invariant t.x != t.y && t.x != t.z && t.y != t.z && fresh(Objects(t))
      invariant Holds(t, Times(Done(newK, i), g))
    {
      Window(t, table, newK, i, g);
    }
    GroupFermat();
    TimesOnCurve(Done(newK, |newK|), g);
    x, y := ToAffine(t, Times(Done(newK, |newK|), g));
    TimesModulo(BigEndian(newK), BigEndian(k), N, q, g);
  }

  /** Adds the entry that byte i selects; shorter scalars skip the leading windows. */
  method Window(t: Triple, table: seq<seq<Entry>>, k: seq<int>, i: nat, ghost g: Point)
    requires t.x != t.y && t.x != t.z && t.y != t.z
    requires GroupLaw() && OnCurve(g) && TableCorrect(table, g)
    requires AreBytes(k) && i < |k| <= 32 && Holds(t, Times(Done(k, i), g))
    modifies Objects(t)
    ensures Holds(t, Times(Done(k, i + 1), g))
  {
    hide Times, GroupLaw, OnCurve, EntryHolds, Holds, BigEndian, Weight;
    var diff := 32 - |k|;
    var row := table[diff + i];
    var e := row[k[i]];
    ghost var n := k[i] * Weight(31 - (diff + i));
    assert EntryHolds(e, Times(n, g));
    NextByte(k, i);
    assert Done(k, i + 1) == Done(k, i) + n;
    AddEntry(t, e, Done(k, i), n, g);
  }

  lemma NextByte(b: seq<int>, i: nat)
    requires i < |b|
    ensures BigEndian(b[..i + 1]) * Weight(|b| - (i + 1)) ==
            BigEndian(b[..i]) * Weight(|b| - i) + b[i] * Weight(|b| - i - 1)
  {
    assert b[..i + 1][..i] == b[..i];
    var w := Weight(|b| - i - 1);
    assert Weight(|b| - i) == 256 * w;
    assert (256 * BigEndian(b[..i]) + b[i]) * w == BigEndian(b[..i]) * (256 * w) + b[i] * w;
  }

  /** Adds a copy of a table entry. */
  method AddEntry(t: Triple, e: Entry, ghost v: int, ghost n: int, ghost g: Point)
    requires t.x != t.y && t.x != t.z && t.y != t.z
    requires GroupLaw() && OnCurve(g) && Holds(t, Times(v, g)) && EntryHolds(e, Times(n, g))
    modifies Objects(t)
    ensures Holds(t, Times(v + n, g))
  {
    hide *;
    TimesAdd(v, n, g);
    TimesOnCurve(v, g);
    TimesOnCurve(n, g);
    PlusIsSum(Times(v, g), Times(n, g));
    GroupFermat();
    AddCopy(t, e, Times(v, g), Times(n, g), Times(v + n, g));
  }

  method AddCopy(t: Triple, e: Entry, ghost p: Point, ghost q: Point, ghost s: Point)
    requires t.x != t.y && t.x != t.z && t.y != t.z
    requires Fermat() && IsSum(p, q, s) && OnCurve(s) && Holds(t, p) && EntryHolds(e, q)
    modifies Objects(t)
    ensures Holds(t, s)
  {
    hide Coordinates, Represents, IsSum, OnCurve, Fermat;
    var ex := new FieldVal(e.x);
    var ey := new FieldVal(e.y);
    var ez := new FieldVal(e.z);
    AddJacobian(t.x, t.y, t.z, ex, ey, ez, t.x, t.y, t.z, p, q, s);
  }
}
