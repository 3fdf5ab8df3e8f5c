/**
 The ten-limb representation of field elements (crypto/field.go): limbs in base 2^26 held in
 uint32 words, with delayed carries.  Masks, shifts and disjoint bitwise ors are written with
 %, / and +.  Every value stored in a uint32 or uint64 variable has the subset type U32 or U64, so
 that the verifier checks that no operation wraps around.
 */
module Field {
  import opened Congruence

  type U32 = x: int | 0 <= x < 0x1_0000_0000
  type U64 = x: int | 0 <= x < 0x1_0000_0000_0000_0000

  const BASE: int := 0x400_0000  // 2^fieldBase
  const MSB: int := 0x40_0000    // 2^fieldMSBBits

  /** The words n[0..10] of a fieldVal. */
  datatype Limbs = Limbs(
    n0: U32, n1: U32, n2: U32, n3: U32, n4: U32,
    n5: U32, n6: U32, n7: U32, n8: U32, n9: U32)

  const ZERO := Limbs(0, 0, 0, 0, 0, 0, 0, 0, 0, 0)
  const ONE := Limbs(1, 0, 0, 0, 0, 0, 0, 0, 0, 0)

  /** The integer a limb vector stands for. */
  function Val(a: Limbs): int {
    a.n0 + a.n1 * 0x4000000 + a.n2 * 0x10000000000000 +
    a.n3 * 0x40000000000000000000 + a.n4 * 0x100000000000000000000000000 + a.n5 * 0x400000000000000000000000000000000 +
    a.n6 * 0x1000000000000000000000000000000000000000 + a.n7 * 0x4000000000000000000000000000000000000000000000 +
        a.n8 * 0x10000000000000000000000000000000000000000000000000000 +
    a.n9 * 0x40000000000000000000000000000000000000000000000000000000000
  }

  /**
   Magnitude k: every limb is at most k times its normalized maximum.  Limb 2 has a slack of 2^20
   per unit, because multiplication leaves its last carry there.
   */
  predicate Mag(a: Limbs, k: int) {
    && a.n0 <= k * 0x3ffffff && a.n1 <= k * 0x3ffffff && a.n2 <= k * 0x40fffff
    && a.n3 <= k * 0x3ffffff && a.n4 <= k * 0x3ffffff && a.n5 <= k * 0x3ffffff
    && a.n6 <= k * 0x3ffffff && a.n7 <= k * 0x3ffffff && a.n8 <= k * 0x3ffffff
    && a.n9 <= k * 0x3fffff
  }

  /** 26-bit limbs, 22 bits in the top one: a plain 256-bit number. */
  predicate Packed(a: Limbs) {
    && a.n0 < BASE && a.n1 < BASE && a.n2 < BASE && a.n3 < BASE && a.n4 < BASE
    && a.n5 < BASE && a.n6 < BASE && a.n7 < BASE && a.n8 < BASE && a.n9 < MSB
  }

  predicate Normalized(a: Limbs) {
    Packed(a) && Val(a) < P
  }

  /** A normalized vector is the only one for its residue, so comparing limbs compares residues. */
  lemma NormalizedUnique(a: Limbs, b: Limbs)
    requires Normalized(a) && Normalized(b) && Cong(Val(a), Val(b))
    ensures a == b
  {
    ResidueUnique(Val(a), Val(b));
    PackedUnique(a, b);
  }

  lemma PackedUnique(a: Limbs, b: Limbs)
    requires Packed(a) && Packed(b) && Val(a) == Val(b)
    ensures a == b
  {
    Halves(a);
    Halves(b);
    SplitUnique(Low(a), High(a), Low(b), High(b));
    FiveDigits(a.n0, a.n1, a.n2, a.n3, a.n4, b.n0, b.n1, b.n2, b.n3, b.n4);
    FiveDigits(a.n5, a.n6, a.n7, a.n8, a.n9, b.n5, b.n6, b.n7, b.n8, b.n9);
  }

  ghost function FiveVal(x0: int, x1: int, x2: int, x3: int, x4: int): int {
    x0 + BASE * (x1 + BASE * (x2 + BASE * (x3 + BASE * x4)))
  }

  ghost function Low(a: Limbs): int { FiveVal(a.n0, a.n1, a.n2, a.n3, a.n4) }

  ghost function High(a: Limbs): int { FiveVal(a.n5, a.n6, a.n7, a.n8, a.n9) }

  const BASE5: int := 0x400000000000000000000000000000000  // 2^130

  lemma Halves(a: Limbs)
    ensures Val(a) == Low(a) + BASE5 * High(a)
    ensures Packed(a) ==> 0 <= Low(a) < BASE5
  {
  }

  lemma SplitUnique(x: int, xs: int, y: int, ys: int)
    requires 0 <= x < BASE5 && 0 <= y < BASE5 && x + BASE5 * xs == y + BASE5 * ys
    ensures x == y && xs == ys
  {
  }

  lemma Digit(x: int, xs: int, y: int, ys: int)
    requires 0 <= x < BASE && 0 <= y < BASE && x + BASE * xs == y + BASE * ys
    ensures x == y && xs == ys
  {
  }

  lemma FiveDigits(x0: int, x1: int, x2: int, x3: int, x4: int, y0: int, y1: int, y2: int, y3: int, y4: int)
    requires 0 <= x0 < BASE && 0 <= x1 < BASE && 0 <= x2 < BASE && 0 <= x3 < BASE
    requires 0 <= y0 < BASE && 0 <= y1 < BASE && 0 <= y2 < BASE && 0 <= y3 < BASE
    requires FiveVal(x0, x1, x2, x3, x4) == FiveVal(y0, y1, y2, y3, y4)
    ensures x0 == y0 && x1 == y1 && x2 == y2 && x3 == y3 && x4 == y4
  {
    Digit(x0, x1 + BASE * (x2 + BASE * (x3 + BASE * x4)), y0, y1 + BASE * (y2 + BASE * (y3 + BASE * y4)));
    Digit(x1, x2 + BASE * (x3 + BASE * x4), y1, y2 + BASE * (y3 + BASE * y4));
    Digit(x2, x3 + BASE * x4, y2, y3 + BASE * y4);
    Digit(x3, x4, y3, y4);
  }

  // ---------------------------------------------------------------- Normalize

  /** The carry chain both halves of Normalize run: add m times 4294968273 and propagate. */
  method Propagate(a: Limbs, m: U32) returns (r: Limbs)
    requires m < 0x400 && a.n0 <= 0xfff0_0000 && a.n1 <= 0xfffe_0000
    requires a.n2 <= 0xffff_ffbf && a.n3 <= 0xffff_ffbf && a.n4 <= 0xffff_ffbf && a.n5 <= 0xffff_ffbf
    requires a.n6 <= 0xffff_ffbf && a.n7 <= 0xffff_ffbf && a.n8 <= 0xffff_ffbf && a.n9 <= 0xffff_ffbf
    ensures r.n0 < BASE && r.n1 < BASE && r.n2 < BASE && r.n3 < BASE && r.n4 < BASE
    ensures r.n5 < BASE && r.n6 < BASE && r.n7 < BASE && r.n8 < BASE && r.n9 <= a.n9 + 0x3f
    ensures Val(r) == Val(a) + m * 4294968273
  {
    var t0: U32 := a.n0 + m * 977;
    var t1: U32 := t0 / BASE + a.n1 + m * 64;
    t0 := t0 % BASE;
    var t2: U32 := t1 / BASE + a.n2;
    t1 := t1 % BASE;
    var t3: U32 := t2 / BASE + a.n3;
    t2 := t2 % BASE;
    var t4: U32 := t3 / BASE + a.n4;
    t3 := t3 % BASE;
    var t5: U32 := t4 / BASE + a.n5;
    t4 := t4 % BASE;
    var t6: U32 := t5 / BASE + a.n6;
    t5 := t5 % BASE;
    var t7: U32 := t6 / BASE + a.n7;
    t6 := t6 % BASE;
    var t8: U32 := t7 / BASE + a.n8;
    t7 := t7 % BASE;
    var t9: U32 := t8 / BASE + a.n9;
    t8 := t8 % BASE;
    r := Limbs(t0, t1, t2, t3, t4, t5, t6, t7, t8, t9);
  }

  /** Whether the value is at least the prime, decided limb by limb. */
  predicate AtLeastPrime(t: Limbs) {
    || t.n9 / MSB != 0
    || (&& t.n9 == 0x3fffff
        && t.n2 == t.n3 == t.n4 == t.n5 == t.n6 == t.n7 == t.n8 == 0x3ffffff
        && (t.n0 + 977) / BASE + t.n1 + 64 > 0x3ffffff)
  }

  lemma AtLeastPrimeMeaning(t: Limbs)
    requires t.n0 < BASE && t.n1 < BASE && t.n2 < BASE && t.n3 < BASE && t.n4 < BASE
    requires t.n5 < BASE && t.n6 < BASE && t.n7 < BASE && t.n8 < BASE && t.n9 < 2 * MSB
    ensures AtLeastPrime(t) <==> Val(t) >= P
  {
  }

  /** Limbs that take any carry from below, and the fold of any top limb, within 32 bits. */
  predicate Carries(a: Limbs) {
    && a.n0 <= 0xfff0_0000 && a.n1 <= 0xfffe_0000
    && a.n2 <= 0xffff_ffbf && a.n3 <= 0xffff_ffbf && a.n4 <= 0xffff_ffbf && a.n5 <= 0xffff_ffbf
    && a.n6 <= 0xffff_ffbf && a.n7 <= 0xffff_ffbf && a.n8 <= 0xffff_ffbf
  }

  lemma MagCarries(a: Limbs)
    requires Mag(a, 63)
    ensures Carries(a)
  {
  }

  /** Normalize: the unique representative in [0, P) with 26/22-bit limbs. */
  method NormalizeLimbs(a: Limbs) returns (r: Limbs)
    requires Carries(a)
    ensures Normalized(r) && Cong(Val(r), Val(a))
  {
    var m: U32 := a.n9 / MSB;
    var t := Propagate(a.(n9 := a.n9 % MSB), m);
    assert Val(t) == Val(a) - m * P;
    assert t.n9 < MSB + 0x40;
    AtLeastPrimeMeaning(t);
    var m2: U32 := if AtLeastPrime(t) then 1 else 0;
    var u := Propagate(t, m2);
    r := u.(n9 := u.n9 % MSB);  // remove a potential multiple of 2^256
    TopBit(u, r, Val(t), m2);
    CongIntro(Val(r), Val(a), -(m + m2));
  }

  /** Dropping bit 256 after the second carry chain subtracts exactly m2 primes. */
  lemma TopBit(u: Limbs, r: Limbs, v: int, m2: int)
    requires u.n0 < BASE && u.n1 < BASE && u.n2 < BASE && u.n3 < BASE && u.n4 < BASE
    requires u.n5 < BASE && u.n6 < BASE && u.n7 < BASE && u.n8 < BASE
    requires r == u.(n9 := u.n9 % MSB)
    requires 0 <= v < P + 0x4000000000000000000000000000000000000000000000000000000000000000
    requires m2 == (if v >= P then 1 else 0)
    requires Val(u) == v + m2 * 4294968273
    ensures Packed(r) && Val(r) == v - m2 * P
  {
    assert u.n9 / MSB == m2;
  }

  // ------------------------------------------------------- Mul2 and SquareVal

  lemma MulLe(x: int, y: int, xMax: int, yMax: int)
    requires 0 <= x <= xMax && 0 <= y <= yMax
    ensures 0 <= x * y <= xMax * yMax
  {
    assert x * y <= xMax * y;
    assert xMax * y <= xMax * yMax;
  }

  /** The product of two words, with the bounds that magnitude 8 gives. */
  function WordMul(x: U32, y: U32): (z: U64)
    ensures x <= 0x207ffff8 && y <= 0x207ffff8 ==> z <= 0x4203ffdf8000040
    ensures x <= 0x1ffffff && y <= 0x1ffffff ==> z < 0x4000000000000
  {
    MulLe(x, y, 0xffff_ffff, 0xffff_ffff);
    if x <= 0x1ffffff && y <= 0x1ffffff then
      MulLe(x, y, 0x1ffffff, 0x1ffffff);
      x * y
    else if x <= 0x207ffff8 && y <= 0x207ffff8 then
      MulLe(x, y, 0x207ffff8, 0x207ffff8);
      x * y
    else
      x * y
  }

  /** The sums of products for 2^(26*0) .. 2^(26*18), before carries. */
  datatype Columns = Columns(
    c0: U64, c1: U64, c2: U64, c3: U64, c4: U64, c5: U64, c6: U64,
    c7: U64, c8: U64, c9: U64, c10: U64, c11: U64, c12: U64, c13: U64,
    c14: U64, c15: U64, c16: U64, c17: U64, c18: U64)

  ghost function ColumnsVal(c: Columns): int {
    c.c0 + c.c1 * 0x4000000 +
    c.c2 * 0x10000000000000 + c.c3 * 0x40000000000000000000 +
    c.c4 * 0x100000000000000000000000000 + c.c5 * 0x400000000000000000000000000000000 +
    c.c6 * 0x1000000000000000000000000000000000000000 + c.c7 * 0x4000000000000000000000000000000000000000000000 +
    c.c8 * 0x10000000000000000000000000000000000000000000000000000 +
    c.c9 * 0x40000000000000000000000000000000000000000000000000000000000 +
    c.c10 * 0x100000000000000000000000000000000000000000000000000000000000000000 +
    c.c11 * 0x400000000000000000000000000000000000000000000000000000000000000000000000 +
    c.c12 * 0x1000000000000000000000000000000000000000000000000000000000000000000000000000000 +
    c.c13 * 0x4000000000000000000000000000000000000000000000000000000000000000000000000000000000000 +
    c.c14 * 0x10000000000000000000000000000000000000000000000000000000000000000000000000000000000000000000 +
    c.c15 * 0x40000000000000000000000000000000000000000000000000000000000000000000000000000000000000000000000000 +
    c.c16 * 0x100000000000000000000000000000000000000000000000000000000000000000000000000000000000000000000000000000000 +
    c.c17 * 0x400000000000000000000000000000000000000000000000000000000000000000000000000000000000000000000000000000000000000 +
    c.c18 * 0x1000000000000000000000000000000000000000000000000000000000000000000000000000000000000000000000000000000000000000000000
  }

  ghost predicate ColumnsBound(c: Columns) {
    && c.c0 <= 0x29427febb0000280 && c.c1 <= 0x29427febb0000280 && c.c2 <= 0x29427febb0000280
    && c.c3 <= 0x29427febb0000280 && c.c4 <= 0x29427febb0000280 && c.c5 <= 0x29427febb0000280
    && c.c6 <= 0x29427febb0000280 && c.c7 <= 0x29427febb0000280 && c.c8 <= 0x29427febb0000280
    && c.c9 <= 0x29427febb0000280 && c.c10 <= 0x29427febb0000280 && c.c11 <= 0x29427febb0000280
    && c.c12 <= 0x29427febb0000280 && c.c13 <= 0x29427febb0000280 && c.c14 <= 0x29427febb0000280
    && c.c15 <= 0x29427febb0000280 && c.c16 <= 0x29427febb0000280 && c.c17 <= 0x29427febb0000280
    && c.c18 < 0x4000000000000
  }

  /** One row of the schoolbook product: a word times each of ten words. */
  datatype Row = Row(p0: int, p1: int, p2: int, p3: int, p4: int, p5: int, p6: int, p7: int, p8: int, p9: int)

  ghost function RowOf(x: int, b: Limbs): Row {
    Row(x * b.n0, x * b.n1, x * b.n2, x * b.n3, x * b.n4, x * b.n5, x * b.n6, x * b.n7, x * b.n8, x * b.n9)
  }

  ghost function RowVal(q: Row): int {
    q.p0 + q.p1 * 0x4000000 + q.p2 * 0x10000000000000 +
    q.p3 * 0x40000000000000000000 + q.p4 * 0x100000000000000000000000000 + q.p5 * 0x400000000000000000000000000000000 +
    q.p6 * 0x1000000000000000000000000000000000000000 + q.p7 * 0x4000000000000000000000000000000000000000000000 +
        q.p8 * 0x10000000000000000000000000000000000000000000000000000 +
    q.p9 * 0x40000000000000000000000000000000000000000000000000000000000
  }

  lemma RowProduct(x: int, b: Limbs)
    ensures RowVal(RowOf(x, b)) == x * Val(b)
  {
  }

  lemma Rows(a: Limbs, y: int)
    ensures Val(a) * y ==
            (a.n0 * y) * 0x1 + (a.n1 * y) * 0x4000000 +
            (a.n2 * y) * 0x10000000000000 + (a.n3 * y) * 0x40000000000000000000 +
            (a.n4 * y) * 0x100000000000000000000000000 + (a.n5 * y) * 0x400000000000000000000000000000000 +
            (a.n6 * y) * 0x1000000000000000000000000000000000000000 +
            (a.n7 * y) * 0x4000000000000000000000000000000000000000000000 +
            (a.n8 * y) * 0x10000000000000000000000000000000000000000000000000000 +
            (a.n9 * y) * 0x40000000000000000000000000000000000000000000000000000000000
  {
  }

  /** c holds the sums of products of equal weight. */
  ghost predicate AreColumns(a: Limbs, b: Limbs, c: Columns) {
    ColumnsLow(a, b, c) && ColumnsHigh(a, b, c)
  }

  ghost predicate ColumnsLow(a: Limbs, b: Limbs, c: Columns) {
    && c.c0 == a.n0 * b.n0
    && c.c1 == a.n0 * b.n1 + a.n1 * b.n0
    && c.c2 == a.n0 * b.n2 + a.n1 * b.n1 + a.n2 * b.n0
    && c.c3 == a.n0 * b.n3 + a.n1 * b.n2 + a.n2 * b.n1 + a.n3 * b.n0
    && c.c4 == a.n0 * b.n4 + a.n1 * b.n3 + a.n2 * b.n2 + a.n3 * b.n1 + a.n4 * b.n0
    && c.c5 == a.n0 * b.n5 + a.n1 * b.n4 + a.n2 * b.n3 + a.n3 * b.n2 + a.n4 * b.n1 +
                 a.n5 * b.n0
    && c.c6 == a.n0 * b.n6 + a.n1 * b.n5 + a.n2 * b.n4 + a.n3 * b.n3 + a.n4 * b.n2 +
                 a.n5 * b.n1 + a.n6 * b.n0
    && c.c7 == a.n0 * b.n7 + a.n1 * b.n6 + a.n2 * b.n5 + a.n3 * b.n4 + a.n4 * b.n3 +
                 a.n5 * b.n2 + a.n6 * b.n1 + a.n7 * b.n0
    && c.c8 == a.n0 * b.n8 + a.n1 * b.n7 + a.n2 * b.n6 + a.n3 * b.n5 + a.n4 * b.n4 +
                 a.n5 * b.n3 + a.n6 * b.n2 + a.n7 * b.n1 + a.n8 * b.n0
    && c.c9 == a.n0 * b.n9 + a.n1 * b.n8 + a.n2 * b.n7 + a.n3 * b.n6 + a.n4 * b.n5 +
                 a.n5 * b.n4 + a.n6 * b.n3 + a.n7 * b.n2 + a.n8 * b.n1 + a.n9 * b.n0
  }

  ghost predicate ColumnsHigh(a: Limbs, b: Limbs, c: Columns) {
    && c.c10 == a.n1 * b.n9 + a.n2 * b.n8 + a.n3 * b.n7 + a.n4 * b.n6 + a.n5 * b.n5 +
                  a.n6 * b.n4 + a.n7 * b.n3 + a.n8 * b.n2 + a.n9 * b.n1
    && c.c11 == a.n2 * b.n9 + a.n3 * b.n8 + a.n4 * b.n7 + a.n5 * b.n6 + a.n6 * b.n5 +
                  a.n7 * b.n4 + a.n8 * b.n3 + a.n9 * b.n2
    && c.c12 == a.n3 * b.n9 + a.n4 * b.n8 + a.n5 * b.n7 + a.n6 * b.n6 + a.n7 * b.n5 +
                  a.n8 * b.n4 + a.n9 * b.n3
    && c.c13 == a.n4 * b.n9 + a.n5 * b.n8 + a.n6 * b.n7 + a.n7 * b.n6 + a.n8 * b.n5 +
                  a.n9 * b.n4
    && c.c14 == a.n5 * b.n9 + a.n6 * b.n8 + a.n7 * b.n7 + a.n8 * b.n6 + a.n9 * b.n5
    && c.c15 == a.n6 * b.n9 + a.n7 * b.n8 + a.n8 * b.n7 + a.n9 * b.n6
    && c.c16 == a.n7 * b.n9 + a.n8 * b.n8 + a.n9 * b.n7
    && c.c17 == a.n8 * b.n9 + a.n9 * b.n8
    && c.c18 == a.n9 * b.n9
  }

  /** Five shifted rows, added column by column. */
  lemma FiveRows(q0: Row, q1: Row, q2: Row, q3: Row, q4: Row) returns (d0: int, d1: int, d2: int, d3: int, d4: int,
          d5: int, d6: int, d7: int, d8: int, d9: int, d10: int, d11: int, d12: int, d13: int)
    ensures d0 == q0.p0
    ensures d1 == q0.p1 + q1.p0
    ensures d2 == q0.p2 + q1.p1 + q2.p0
    ensures d3 == q0.p3 + q1.p2 + q2.p1 + q3.p0
    ensures d4 == q0.p4 + q1.p3 + q2.p2 + q3.p1 + q4.p0
    ensures d5 == q0.p5 + q1.p4 + q2.p3 + q3.p2 + q4.p1
    ensures d6 == q0.p6 + q1.p5 + q2.p4 + q3.p3 + q4.p2
    ensures d7 == q0.p7 + q1.p6 + q2.p5 + q3.p4 + q4.p3
    ensures d8 == q0.p8 + q1.p7 + q2.p6 + q3.p5 + q4.p4
    ensures d9 == q0.p9 + q1.p8 + q2.p7 + q3.p6 + q4.p5
    ensures d10 == q1.p9 + q2.p8 + q3.p7 + q4.p6
    ensures d11 == q2.p9 + q3.p8 + q4.p7
    ensures d12 == q3.p9 + q4.p8
    ensures d13 == q4.p9
    ensures RowVal(q0) + RowVal(q1) * 0x4000000 + RowVal(q2) * 0x10000000000000 +
        RowVal(q3) * 0x40000000000000000000 + RowVal(q4) * 0x100000000000000000000000000 ==
            d0 + d1 * 0x4000000 + d2 * 0x10000000000000 +
            d3 * 0x40000000000000000000 + d4 * 0x100000000000000000000000000 +
            d5 * 0x400000000000000000000000000000000 +
            d6 * 0x1000000000000000000000000000000000000000 + d7 * 0x4000000000000000000000000000000000000000000000 +
            d8 * 0x10000000000000000000000000000000000000000000000000000 +
            d9 * 0x40000000000000000000000000000000000000000000000000000000000 +
            d10 * 0x100000000000000000000000000000000000000000000000000000000000000000 +
            d11 * 0x400000000000000000000000000000000000000000000000000000000000000000000000 +
            d12 * 0x1000000000000000000000000000000000000000000000000000000000000000000000000000000 +
            d13 * 0x4000000000000000000000000000000000000000000000000000000000000000000000000000000000000
  {
    d0 := q0.p0;
    d1 := q0.p1 + q1.p0;
    d2 := q0.p2 + q1.p1 + q2.p0;
    d3 := q0.p3 + q1.p2 + q2.p1 + q3.p0;
    d4 := q0.p4 + q1.p3 + q2.p2 + q3.p1 + q4.p0;
    d5 := q0.p5 + q1.p4 + q2.p3 + q3.p2 + q4.p1;
    d6 := q0.p6 + q1.p5 + q2.p4 + q3.p3 + q4.p2;
    d7 := q0.p7 + q1.p6 + q2.p5 + q3.p4 + q4.p3;
    d8 := q0.p8 + q1.p7 + q2.p6 + q3.p5 + q4.p4;
    d9 := q0.p9 + q1.p8 + q2.p7 + q3.p6 + q4.p5;
    d10 := q1.p9 + q2.p8 + q3.p7 + q4.p6;
    d11 := q2.p9 + q3.p8 + q4.p7;
    d12 := q3.p9 + q4.p8;
    d13 := q4.p9;
  }

  lemma RowsToColumns(q0: Row, q1: Row, q2: Row, q3: Row, q4: Row, q5: Row, q6: Row, q7: Row, q8: Row, q9: Row,
          c: Columns)
    requires c.c0 == q0.p0
    requires c.c1 == q0.p1 + q1.p0
    requires c.c2 == q0.p2 + q1.p1 + q2.p0
    requires c.c3 == q0.p3 + q1.p2 + q2.p1 + q3.p0
    requires c.c4 == q0.p4 + q1.p3 + q2.p2 + q3.p1 + q4.p0
    requires c.c5 == q0.p5 + q1.p4 + q2.p3 + q3.p2 + q4.p1 + q5.p0
    requires c.c6 == q0.p6 + q1.p5 + q2.p4 + q3.p3 + q4.p2 + q5.p1 + q6.p0
    requires c.c7 == q0.p7 + q1.p6 + q2.p5 + q3.p4 + q4.p3 + q5.p2 + q6.p1 + q7.p0
    requires c.c8 == q0.p8 + q1.p7 + q2.p6 + q3.p5 + q4.p4 + q5.p3 + q6.p2 + q7.p1 + q8.p0
    requires c.c9 == q0.p9 + q1.p8 + q2.p7 + q3.p6 + q4.p5 + q5.p4 + q6.p3 + q7.p2 + q8.p1 + q9.p0
    requires c.c10 == q1.p9 + q2.p8 + q3.p7 + q4.p6 + q5.p5 + q6.p4 + q7.p3 + q8.p2 + q9.p1
    requires c.c11 == q2.p9 + q3.p8 + q4.p7 + q5.p6 + q6.p5 + q7.p4 + q8.p3 + q9.p2
    requires c.c12 == q3.p9 + q4.p8 + q5.p7 + q6.p6 + q7.p5 + q8.p4 + q9.p3
    requires c.c13 == q4.p9 + q5.p8 + q6.p7 + q7.p6 + q8.p5 + q9.p4
    requires c.c14 == q5.p9 + q6.p8 + q7.p7 + q8.p6 + q9.p5
    requires c.c15 == q6.p9 + q7.p8 + q8.p7 + q9.p6
    requires c.c16 == q7.p9 + q8.p8 + q9.p7
    requires c.c17 == q8.p9 + q9.p8
    requires c.c18 == q9.p9
    ensures ColumnsVal(c) ==
            RowVal(q0) + RowVal(q1) * 0x4000000 +
            RowVal(q2) * 0x10000000000000 + RowVal(q3) * 0x40000000000000000000 +
            RowVal(q4) * 0x100000000000000000000000000 + RowVal(q5) * 0x400000000000000000000000000000000 +
            RowVal(q6) * 0x1000000000000000000000000000000000000000 +
            RowVal(q7) * 0x4000000000000000000000000000000000000000000000 +
            RowVal(q8) * 0x10000000000000000000000000000000000000000000000000000 +
            RowVal(q9) * 0x40000000000000000000000000000000000000000000000000000000000
  {
    var d0, d1, d2, d3, d4, d5, d6, d7, d8, d9, d10, d11, d12, d13 := FiveRows(q0, q1, q2, q3, q4);
    var e0, e1, e2, e3, e4, e5, e6, e7, e8, e9, e10, e11, e12, e13 := FiveRows(q5, q6, q7, q8, q9);
    assert c.c0 == d0 && c.c1 == d1 && c.c2 == d2 && c.c3 == d3 && c.c4 == d4 && c.c5 == d5 + e0 &&
        c.c6 == d6 + e1 && c.c7 == d7 + e2 && c.c8 == d8 + e3 && c.c9 == d9 + e4 && c.c10 == d10 + e5 &&
        c.c11 == d11 + e6 && c.c12 == d12 + e7 && c.c13 == d13 + e8 && c.c14 == e9 && c.c15 == e10 && c.c16 == e11 &&
        c.c17 == e12 && c.c18 == e13;
  }

  lemma Product(a: Limbs, b: Limbs, c: Columns)
    requires AreColumns(a, b, c)
    ensures ColumnsVal(c) == Val(a) * Val(b)
  {
    RowProduct(a.n0, b);
    RowProduct(a.n1, b);
    RowProduct(a.n2, b);
    RowProduct(a.n3, b);
    RowProduct(a.n4, b);
    RowProduct(a.n5, b);
    RowProduct(a.n6, b);
    RowProduct(a.n7, b);
    RowProduct(a.n8, b);
    RowProduct(a.n9, b);
    RowsToColumns(RowOf(a.n0, b), RowOf(a.n1, b), RowOf(a.n2, b), RowOf(a.n3, b), RowOf(a.n4, b), RowOf(a.n5, b),
        RowOf(a.n6, b), RowOf(a.n7, b), RowOf(a.n8, b), RowOf(a.n9, b), c);
    Rows(a, Val(b));
  }

  /** The terms Mul2 adds up for 2^(26*0) .. 2^(26*9). */
  method MulLow(a: Limbs, b: Limbs) returns (c: Columns)
    requires Mag(a, 8) && Mag(b, 8)
    ensures ColumnsLow(a, b, c)
    ensures c.c0 <= 0x29427febb0000280 && c.c1 <= 0x29427febb0000280 && c.c2 <= 0x29427febb0000280 &&
        c.c3 <= 0x29427febb0000280 && c.c4 <= 0x29427febb0000280
    ensures c.c5 <= 0x29427febb0000280 && c.c6 <= 0x29427febb0000280 && c.c7 <= 0x29427febb0000280 &&
        c.c8 <= 0x29427febb0000280 && c.c9 <= 0x29427febb0000280
  {
    var c0: U64 := WordMul(a.n0, b.n0);
    var c1: U64 := WordMul(a.n0, b.n1) + WordMul(a.n1, b.n0);
    var c2: U64 := WordMul(a.n0, b.n2) + WordMul(a.n1, b.n1) + WordMul(a.n2, b.n0);
    var c3: U64 := WordMul(a.n0, b.n3) + WordMul(a.n1, b.n2) + WordMul(a.n2, b.n1) + WordMul(a.n3, b.n0);
    var c4: U64 := WordMul(a.n0, b.n4) + WordMul(a.n1, b.n3) + WordMul(a.n2, b.n2) + WordMul(a.n3, b.n1) +
                  WordMul(a.n4, b.n0);
    var c5: U64 := WordMul(a.n0, b.n5) + WordMul(a.n1, b.n4) + WordMul(a.n2, b.n3) + WordMul(a.n3, b.n2) +
                  WordMul(a.n4, b.n1) + WordMul(a.n5, b.n0);
    var c6: U64 := WordMul(a.n0, b.n6) + WordMul(a.n1, b.n5) + WordMul(a.n2, b.n4) + WordMul(a.n3, b.n3) +
                  WordMul(a.n4, b.n2) + WordMul(a.n5, b.n1) + WordMul(a.n6, b.n0);
    var c7: U64 := WordMul(a.n0, b.n7) + WordMul(a.n1, b.n6) + WordMul(a.n2, b.n5) + WordMul(a.n3, b.n4) +
                  WordMul(a.n4, b.n3) + WordMul(a.n5, b.n2) + WordMul(a.n6, b.n1) + WordMul(a.n7, b.n0);
    var c8: U64 := WordMul(a.n0, b.n8) + WordMul(a.n1, b.n7) + WordMul(a.n2, b.n6) + WordMul(a.n3, b.n5) +
                  WordMul(a.n4, b.n4) + WordMul(a.n5, b.n3) + WordMul(a.n6, b.n2) + WordMul(a.n7, b.n1) +
                  WordMul(a.n8, b.n0);
    var c9: U64 := WordMul(a.n0, b.n9) + WordMul(a.n1, b.n8) + WordMul(a.n2, b.n7) + WordMul(a.n3, b.n6) +
                  WordMul(a.n4, b.n5) + WordMul(a.n5, b.n4) + WordMul(a.n6, b.n3) + WordMul(a.n7, b.n2) +
                  WordMul(a.n8, b.n1) + WordMul(a.n9, b.n0);
    c := Columns(c0, c1, c2, c3, c4, c5, c6, c7, c8, c9, 0, 0, 0, 0, 0, 0, 0, 0, 0);
  }

  method MulHigh(a: Limbs, b: Limbs, low: Columns) returns (c: Columns)
    requires Mag(a, 8) && Mag(b, 8)
    ensures ColumnsHigh(a, b, c) && c.c0 == low.c0 && c.c1 == low.c1 && c.c2 == low.c2 && c.c3 == low.c3 &&
        c.c4 == low.c4 && c.c5 == low.c5 && c.c6 == low.c6 && c.c7 == low.c7 && c.c8 == low.c8 && c.c9 == low.c9
    ensures c.c10 <= 0x29427febb0000280 && c.c11 <= 0x29427febb0000280 && c.c12 <= 0x29427febb0000280 &&
        c.c13 <= 0x29427febb0000280
    ensures c.c14 <= 0x29427febb0000280 && c.c15 <= 0x29427febb0000280 && c.c16 <= 0x29427febb0000280 &&
        c.c17 <= 0x29427febb0000280 && c.c18 < 0x4000000000000
  {
    var c10: U64 := WordMul(a.n1, b.n9) + WordMul(a.n2, b.n8) + WordMul(a.n3, b.n7) + WordMul(a.n4, b.n6) +
                  WordMul(a.n5, b.n5) + WordMul(a.n6, b.n4) + WordMul(a.n7, b.n3) + WordMul(a.n8, b.n2) +
                  WordMul(a.n9, b.n1);
    var c11: U64 := WordMul(a.n2, b.n9) + WordMul(a.n3, b.n8) + WordMul(a.n4, b.n7) + WordMul(a.n5, b.n6) +
                  WordMul(a.n6, b.n5) + WordMul(a.n7, b.n4) + WordMul(a.n8, b.n3) + WordMul(a.n9, b.n2);
    var c12: U64 := WordMul(a.n3, b.n9) + WordMul(a.n4, b.n8) + WordMul(a.n5, b.n7) + WordMul(a.n6, b.n6) +
                  WordMul(a.n7, b.n5) + WordMul(a.n8, b.n4) + WordMul(a.n9, b.n3);
    var c13: U64 := WordMul(a.n4, b.n9) + WordMul(a.n5, b.n8) + WordMul(a.n6, b.n7) + WordMul(a.n7, b.n6) +
                  WordMul(a.n8, b.n5) + WordMul(a.n9, b.n4);
    var c14: U64 := WordMul(a.n5, b.n9) + WordMul(a.n6, b.n8) + WordMul(a.n7, b.n7) + WordMul(a.n8, b.n6) +
                  WordMul(a.n9, b.n5);
    var c15: U64 := WordMul(a.n6, b.n9) + WordMul(a.n7, b.n8) + WordMul(a.n8, b.n7) + WordMul(a.n9, b.n6);
    var c16: U64 := WordMul(a.n7, b.n9) + WordMul(a.n8, b.n8) + WordMul(a.n9, b.n7);
    var c17: U64 := WordMul(a.n8, b.n9) + WordMul(a.n9, b.n8);
    var c18: U64 := WordMul(a.n9, b.n9);
    c := low.(c10 := c10, c11 := c11, c12 := c12, c13 := c13, c14 := c14, c15 := c15, c16 := c16, c17 := c17,
        c18 := c18);
  }

  /** The terms SquareVal adds up: each mixed product once, doubled. */
  method SquareLow(a: Limbs) returns (c: Columns)
    requires Mag(a, 8)
    ensures ColumnsLow(a, a, c)
    ensures c.c0 <= 0x29427febb0000280 && c.c1 <= 0x29427febb0000280 && c.c2 <= 0x29427febb0000280 &&
        c.c3 <= 0x29427febb0000280 && c.c4 <= 0x29427febb0000280
    ensures c.c5 <= 0x29427febb0000280 && c.c6 <= 0x29427febb0000280 && c.c7 <= 0x29427febb0000280 &&
        c.c8 <= 0x29427febb0000280 && c.c9 <= 0x29427febb0000280
  {
    var c0: U64 := WordMul(a.n0, a.n0);
    var c1: U64 := 2 * WordMul(a.n0, a.n1);
    var c2: U64 := 2 * WordMul(a.n0, a.n2) + WordMul(a.n1, a.n1);
    var c3: U64 := 2 * WordMul(a.n0, a.n3) + 2 * WordMul(a.n1, a.n2);
    var c4: U64 := 2 * WordMul(a.n0, a.n4) + 2 * WordMul(a.n1, a.n3) + WordMul(a.n2, a.n2);
    var c5: U64 := 2 * WordMul(a.n0, a.n5) + 2 * WordMul(a.n1, a.n4) + 2 * WordMul(a.n2, a.n3);
    var c6: U64 := 2 * WordMul(a.n0, a.n6) + 2 * WordMul(a.n1, a.n5) + 2 * WordMul(a.n2, a.n4) + WordMul(a.n3, a.n3);
    var c7: U64 := 2 * WordMul(a.n0, a.n7) + 2 * WordMul(a.n1, a.n6) + 2 * WordMul(a.n2, a.n5) +
        2 * WordMul(a.n3, a.n4);
    var c8: U64 := 2 * WordMul(a.n0, a.n8) + 2 * WordMul(a.n1, a.n7) + 2 * WordMul(a.n2, a.n6) +
        2 * WordMul(a.n3, a.n5) +
                  WordMul(a.n4, a.n4);
    var c9: U64 := 2 * WordMul(a.n0, a.n9) + 2 * WordMul(a.n1, a.n8) + 2 * WordMul(a.n2, a.n7) +
        2 * WordMul(a.n3, a.n6) +
                  2 * WordMul(a.n4, a.n5);
    c := Columns(c0, c1, c2, c3, c4, c5, c6, c7, c8, c9, 0, 0, 0, 0, 0, 0, 0, 0, 0);
  }

  method SquareHigh(a: Limbs, low: Columns) returns (c: Columns)
    requires Mag(a, 8)
    ensures ColumnsHigh(a, a, c) && c.c0 == low.c0 && c.c1 == low.c1 && c.c2 == low.c2 && c.c3 == low.c3 &&
        c.c4 == low.c4 && c.c5 == low.c5 && c.c6 == low.c6 && c.c7 == low.c7 && c.c8 == low.c8 && c.c9 == low.c9
    ensures c.c10 <= 0x29427febb0000280 && c.c11 <= 0x29427febb0000280 && c.c12 <= 0x29427febb0000280 &&
        c.c13 <= 0x29427febb0000280
    ensures c.c14 <= 0x29427febb0000280 && c.c15 <= 0x29427febb0000280 && c.c16 <= 0x29427febb0000280 &&
        c.c17 <= 0x29427febb0000280 && c.c18 < 0x4000000000000
  {
    var c10: U64 := 2 * WordMul(a.n1, a.n9) + 2 * WordMul(a.n2, a.n8) + 2 * WordMul(a.n3, a.n7) +
        2 * WordMul(a.n4, a.n6) +
                  WordMul(a.n5, a.n5);
    var c11: U64 := 2 * WordMul(a.n2, a.n9) + 2 * WordMul(a.n3, a.n8) + 2 * WordMul(a.n4, a.n7) +
        2 * WordMul(a.n5, a.n6);
    var c12: U64 := 2 * WordMul(a.n3, a.n9) + 2 * WordMul(a.n4, a.n8) + 2 * WordMul(a.n5, a.n7) + WordMul(a.n6, a.n6);
    var c13: U64 := 2 * WordMul(a.n4, a.n9) + 2 * WordMul(a.n5, a.n8) + 2 * WordMul(a.n6, a.n7);
    var c14: U64 := 2 * WordMul(a.n5, a.n9) + 2 * WordMul(a.n6, a.n8) + WordMul(a.n7, a.n7);
    var c15: U64 := 2 * WordMul(a.n6, a.n9) + 2 * WordMul(a.n7, a.n8);
    var c16: U64 := 2 * WordMul(a.n7, a.n9) + WordMul(a.n8, a.n8);
    var c17: U64 := 2 * WordMul(a.n8, a.n9);
    var c18: U64 := WordMul(a.n9, a.n9);
    c := low.(c10 := c10, c11 := c11, c12 := c12, c13 := c13, c14 := c14, c15 := c15, c16 := c16, c17 := c17,
        c18 := c18);
  }

  ghost function LowColumns(c: Columns): int {
    c.c0 + c.c1 * 0x4000000 + c.c2 * 0x10000000000000 +
    c.c3 * 0x40000000000000000000 + c.c4 * 0x100000000000000000000000000 + c.c5 * 0x400000000000000000000000000000000 +
    c.c6 * 0x1000000000000000000000000000000000000000 + c.c7 * 0x4000000000000000000000000000000000000000000000 +
    c.c8 * 0x10000000000000000000000000000000000000000000000000000 +
    c.c9 * 0x40000000000000000000000000000000000000000000000000000000000
  }

  ghost function HighColumns(c: Columns): int {
    c.c10 + c.c11 * 0x4000000 + c.c12 * 0x10000000000000 +
    c.c13 * 0x40000000000000000000 + c.c14 * 0x100000000000000000000000000 +
    c.c15 * 0x400000000000000000000000000000000 +
    c.c16 * 0x1000000000000000000000000000000000000000 +
    c.c17 * 0x4000000000000000000000000000000000000000000000 +
    c.c18 * 0x10000000000000000000000000000000000000000000000000000
  }

  const BASE10: int := 0x100000000000000000000000000000000000000000000000000000000000000000  // 2^260

  lemma SplitColumns(c: Columns)
    ensures ColumnsVal(c) == LowColumns(c) + BASE10 * HighColumns(c)
  {
  }

  ghost predicate Digits(t: Limbs) {
    && t.n0 < BASE && t.n1 < BASE && t.n2 < BASE && t.n3 < BASE && t.n4 < BASE
    && t.n5 < BASE && t.n6 < BASE && t.n7 < BASE && t.n8 < BASE && t.n9 < BASE
  }

  /** Carries the lower ten column sums into the 26-bit digits t0 .. t9; m is what is left over. */
  method CarryLow(c: Columns) returns (t: Limbs, m: U64)
    requires ColumnsBound(c)
    ensures Digits(t) && m < 0x4000000000
    ensures Val(t) + BASE10 * m == LowColumns(c)
  {
    m := c.c0;
    var t0 := m % BASE;
    m := m / BASE + c.c1;
    var t1 := m % BASE;
    m := m / BASE + c.c2;
    var t2 := m % BASE;
    m := m / BASE + c.c3;
    var t3 := m % BASE;
    m := m / BASE + c.c4;
    var t4 := m % BASE;
    m := m / BASE + c.c5;
    var t5 := m % BASE;
    m := m / BASE + c.c6;
    var t6 := m % BASE;
    m := m / BASE + c.c7;
    var t7 := m % BASE;
    m := m / BASE + c.c8;
    var t8 := m % BASE;
    m := m / BASE + c.c9;
    var t9 := m % BASE;
    m := m / BASE;
    t := Limbs(t0, t1, t2, t3, t4, t5, t6, t7, t8, t9);
  }

  /** Carries the upper column sums into the digits t10 .. t19. */
  method CarryHigh(c: Columns, carry: U64) returns (t: Limbs)
    requires ColumnsBound(c) && carry < 0x4000000000
    ensures Digits(t) && t.n9 < 0x1800000
    ensures Val(t) == HighColumns(c) + carry
  {
    var m: U64 := carry + c.c10;
    var t10 := m % BASE;
    m := m / BASE + c.c11;
    var t11 := m % BASE;
    m := m / BASE + c.c12;
    var t12 := m % BASE;
    m := m / BASE + c.c13;
    var t13 := m % BASE;
    m := m / BASE + c.c14;
    var t14 := m % BASE;
    m := m / BASE + c.c15;
    var t15 := m % BASE;
    m := m / BASE + c.c16;
    var t16 := m % BASE;
    m := m / BASE + c.c17;
    var t17 := m % BASE;
    m := m / BASE + c.c18;
    var t18 := m % BASE;
    t := Limbs(t10, t11, t12, t13, t14, t15, t16, t17, t18, m / BASE);
  }

  /**
   The first reduction step, by 2^260 = 16 * 4294968273 = 15632 + 1024 * 2^26 (mod P): digits
   t10 .. t19 are folded onto t0 .. t9.  The top digit is returned apart, as it exceeds 32 bits.
   */
  method Fold(t: Limbs, u: Limbs) returns (r: Limbs, m: U64)
    requires Digits(t) && Digits(u) && u.n9 < 0x1800000
    ensures Digits(r) && r.n9 == 0 && m < 0x2000000000000000
    ensures Val(r) + m * 0x40000000000000000000000000000000000000000000000000000000000 == Val(t) + 68719492368 * Val(u)
  {
    m := t.n0 + u.n0 * 15632;
    var t0 := m % BASE;
    m := m / BASE + t.n1 + u.n0 * 1024 + u.n1 * 15632;
    var t1 := m % BASE;
    m := m / BASE + t.n2 + u.n1 * 1024 + u.n2 * 15632;
    var t2 := m % BASE;
    m := m / BASE + t.n3 + u.n2 * 1024 + u.n3 * 15632;
    var t3 := m % BASE;
    m := m / BASE + t.n4 + u.n3 * 1024 + u.n4 * 15632;
    var t4 := m % BASE;
    m := m / BASE + t.n5 + u.n4 * 1024 + u.n5 * 15632;
    var t5 := m % BASE;
    m := m / BASE + t.n6 + u.n5 * 1024 + u.n6 * 15632;
    var t6 := m % BASE;
    m := m / BASE + t.n7 + u.n6 * 1024 + u.n7 * 15632;
    var t7 := m % BASE;
    m := m / BASE + t.n8 + u.n7 * 1024 + u.n8 * 15632;
    var t8 := m % BASE;
    m := m / BASE + t.n9 + u.n8 * 1024 + u.n9 * 68719492368;
    r := Limbs(t0, t1, t2, t3, t4, t5, t6, t7, t8, 0);
  }

  /** The second reduction step, by 2^256 = 4294968273 (mod P). */
  method FoldTop(t: Limbs, top: U64) returns (r: Limbs)
    requires Digits(t) && t.n9 == 0 && top < 0x2000000000000000
    ensures Mag(r, 1) && Val(r) == Val(t) +
        top * 0x40000000000000000000000000000000000000000000000000000000000 - (top / MSB) * P
  {
    var t9: U64 := top % MSB;
    var m: U64 := top / MSB;
    var d: U64 := t.n0 + m * 977;
    var n0: U32 := d % BASE;
    d := d / BASE + t.n1 + m * 64;
    var n1: U32 := d % BASE;
    var n2: U32 := d / BASE + t.n2;
    r := Limbs(n0, n1, n2, t.n3, t.n4, t.n5, t.n6, t.n7, t.n8, t9);
  }

  method Reduce(c: Columns) returns (r: Limbs)
    requires ColumnsBound(c)
    ensures Mag(r, 1) && Cong(Val(r), ColumnsVal(c))
  {
    var t, carry := CarryLow(c);
    var u := CarryHigh(c, carry);
    var v, top := Fold(t, u);
    r := FoldTop(v, top);
    SplitColumns(c);
    ReduceQuotient(ColumnsVal(c), Val(t), Val(u), Val(r), top / MSB);
  }

  lemma ReduceQuotient(x: int, t: int, u: int, r: int, q: int)
    requires x == t + BASE10 * u
    requires r == t + 68719492368 * u - q * P
    ensures Cong(r, x)
  {
    CongIntro(r, x, -(16 * u + q));
  }

  /** Mul2: the product modulo P, in magnitude 1, without wrapping, for factors of magnitude at most 8. */
  method MulLimbs(a: Limbs, b: Limbs) returns (r: Limbs)
    requires Mag(a, 8) && Mag(b, 8)
    ensures Mag(r, 1) && IsProduct(Val(r), Val(a), Val(b))
  {
    var c := MulLow(a, b);
    c := MulHigh(a, b, c);
    r := Reduce(c);
    Product(a, b, c);
    ProductMeaning(Val(r), Val(a), Val(b));
  }

  /** SquareVal. */
  method SquareLimbs(a: Limbs) returns (r: Limbs)
    requires Mag(a, 8)
    ensures Mag(r, 1) && IsProduct(Val(r), Val(a), Val(a))
  {
    var c := SquareLow(a);
    c := SquareHigh(a, c);
    r := Reduce(c);
    Product(a, a, c);
    ProductMeaning(Val(r), Val(a), Val(a));
  }
}
