/**
 Operations on field elements built from the limb arithmetic: negation, addition, the byte form,
 and the exponentiations behind Inverse and SqrtVal (crypto/field.go).
 */
module FieldElement {
  import opened Common
  import opened Congruence
  import opened Field
  import opened Power

  // ------------------------------------------------- Add2, MulInt, NegateVal

  /** Add2: carryless addition; magnitudes add up. */
  method AddLimbs(a: Limbs, b: Limbs, ghost i: nat, ghost j: nat) returns (r: Limbs)
    requires Mag(a, i) && Mag(b, j) && i + j <= 63
    ensures Mag(r, i + j) && Val(r) == Val(a) + Val(b)
  {
    r := Limbs(a.n0 + b.n0, a.n1 + b.n1, a.n2 + b.n2, a.n3 + b.n3, a.n4 + b.n4,
               a.n5 + b.n5, a.n6 + b.n6, a.n7 + b.n7, a.n8 + b.n8, a.n9 + b.n9);
  }

  /** MulInt: every word is multiplied by k, which must not take the magnitude above 63. */
  method MulIntLimbs(a: Limbs, k: U32, ghost i: nat, ghost m: nat) returns (r: Limbs)
    requires Mag(a, i) && m == k * i && m <= 63
    ensures Mag(r, m) && IsProduct(Val(r), k, Val(a))
  {
    ScaleWord(a.n0, k, i, 0x3ffffff, m);
    ScaleWord(a.n1, k, i, 0x3ffffff, m);
    ScaleWord(a.n2, k, i, 0x40fffff, m);
    ScaleWord(a.n3, k, i, 0x3ffffff, m);
    ScaleWord(a.n4, k, i, 0x3ffffff, m);
    ScaleWord(a.n5, k, i, 0x3ffffff, m);
    ScaleWord(a.n6, k, i, 0x3ffffff, m);
    ScaleWord(a.n7, k, i, 0x3ffffff, m);
    ScaleWord(a.n8, k, i, 0x3ffffff, m);
    ScaleWord(a.n9, k, i, 0x3fffff, m);
    Rows(a, k);
    r := Limbs(a.n0 * k, a.n1 * k, a.n2 * k, a.n3 * k, a.n4 * k, a.n5 * k, a.n6 * k, a.n7 * k, a.n8 * k, a.n9 * k);
    assert Val(r) == k * Val(a);
    CongRefl(Val(r));
    ProductMeaning(Val(r), k, Val(a));
  }

  lemma ScaleWord(x: int, k: int, i: int, c: int, m: int)
    requires 0 <= x <= i * c && 0 <= k && m == k * i
    ensures 0 <= x * k <= m * c
  {
    MulLe(x, k, i * c, k);
    assert (i * c) * k == m * c;
  }

  /** NegateVal: never underflows when the stated magnitude is valid. */
  method NegateLimbs(a: Limbs, magnitude: U32) returns (r: Limbs)
    requires magnitude <= 63 && Mag(a, magnitude)
    ensures Mag(r, magnitude + 1) && Val(r) == (magnitude + 1) * P - Val(a)
  {
    var k := magnitude + 1;
    r := Limbs(k * 0x3fffc2f - a.n0, k * 0x3ffffbf - a.n1, k * 0x3ffffff - a.n2, k * 0x3ffffff - a.n3,
               k * 0x3ffffff - a.n4, k * 0x3ffffff - a.n5, k * 0x3ffffff - a.n6, k * 0x3ffffff - a.n7,
               k * 0x3ffffff - a.n8, k * 0x3fffff - a.n9);
  }

  // ------------------------------------------------------------------ Inverse

  /** f is a power of x, small enough to be multiplied. */
  ghost predicate IsPow(f: Limbs, x: int, e: nat) {
    Mag(f, 8) && IsPower(Val(f), x, e)
  }

  lemma MagMono(f: Limbs, i: nat, j: nat)
    requires Mag(f, i) && i <= j
    ensures Mag(f, j)
  {
  }

  method MulPow(f: Limbs, g: Limbs, ghost x: int, ghost d: nat, ghost e: nat) returns (r: Limbs)
    requires IsPow(f, x, d) && IsPow(g, x, e)
    ensures IsPow(r, x, d + e) && Mag(r, 1)
  {
    r := MulLimbs(f, g);
    MagMono(r, 1, 8);
    PowerProduct(Val(r), Val(f), Val(g), x, d, e);
  }

  method SquarePow(f: Limbs, ghost x: int, ghost e: nat) returns (r: Limbs)
    requires IsPow(f, x, e)
    ensures IsPow(r, x, 2 * e) && Mag(r, 1)
  {
    r := SquareLimbs(f);
    MagMono(r, 1, 8);
    PowerProduct(Val(r), Val(f), Val(f), x, e, e);
  }

  /** Five squarings in a row. */
  method Square5(f: Limbs, ghost x: int, ghost e: nat) returns (r: Limbs)
    requires IsPow(f, x, e)
    ensures IsPow(r, x, 32 * e) && Mag(r, 1)
  {
    hide *;
    ghost var e2, e4, e8, e16 := 2 * e, 4 * e, 8 * e, 16 * e;
    r := SquarePow(f, x, e);
    r := SquarePow(r, x, e2);
    r := SquarePow(r, x, e4);
    r := SquarePow(r, x, e8);
    r := SquarePow(r, x, e16);
  }

  /** Two rows of five squarings and a multiplication by x^d. */
  method Square10Mul(f: Limbs, g: Limbs, ghost x: int, ghost e: nat, ghost d: nat) returns (r: Limbs)
    requires IsPow(f, x, e) && IsPow(g, x, d)
    ensures IsPow(r, x, 1024 * e + d) && Mag(r, 1)
  {
    hide *;
    ghost var e32, e1024 := 32 * e, 1024 * e;
    r := Square5(f, x, e);
    r := Square5(r, x, e32);
    r := MulPow(r, g, x, e1024, d);
  }

  /** Inverse: the addition chain computes a^(P-2). */
  method InverseLimbs(a: Limbs) returns (f: Limbs)
    requires Mag(a, 8)
    ensures Mag(f, 1) && IsPower(Val(f), Val(a), P - 2)
  {
    hide IsPow;
    ghost var x := Val(a);
    SelfPow(a);
    var a2 := SquarePow(a, x, 1);
    var a3 := MulPow(a2, a, x, 2, 1);
    var a4 := SquarePow(a2, x, 2);
    var a10 := SquarePow(a4, x, 4);
    a10 := MulPow(a10, a2, x, 8, 2);
    var a11 := MulPow(a10, a, x, 10, 1);
    var a21 := MulPow(a10, a11, x, 10, 11);
    var a42 := SquarePow(a21, x, 21);
    var a45 := MulPow(a42, a3, x, 42, 3);
    var a63 := MulPow(a42, a21, x, 42, 21);
    var a1019 := SquarePow(a63, x, 63);
    a1019 := SquarePow(a1019, x, 126);
    a1019 := SquarePow(a1019, x, 252);
    a1019 := SquarePow(a1019, x, 504);
    a1019 := MulPow(a1019, a11, x, 1008, 11);
    var a1023 := MulPow(a1019, a4, x, 1019, 4);
    f := a63;
    ghost var e := 63;
    f := Square10Mul(f, a1023, x, e, 1023);
    e := 1024 * e + 1023;  // 2^16 - 1
    f := Square10Mul(f, a1023, x, e, 1023);
    e := 1024 * e + 1023;  // 2^26 - 1
    f := Square10Mul(f, a1023, x, e, 1023);
    e := 1024 * e + 1023;  // 2^36 - 1
    f := Square10Mul(f, a1023, x, e, 1023);
    e := 1024 * e + 1023;  // 2^46 - 1
    f := Square10Mul(f, a1023, x, e, 1023);
    e := 1024 * e + 1023;  // 2^56 - 1
    f := Square10Mul(f, a1023, x, e, 1023);
    e := 1024 * e + 1023;  // 2^66 - 1
    f := Square10Mul(f, a1023, x, e, 1023);
    e := 1024 * e + 1023;  // 2^76 - 1
    f := Square10Mul(f, a1023, x, e, 1023);
    e := 1024 * e + 1023;  // 2^86 - 1
    f := Square10Mul(f, a1023, x, e, 1023);
    e := 1024 * e + 1023;  // 2^96 - 1
    f := Square10Mul(f, a1023, x, e, 1023);
    e := 1024 * e + 1023;  // 2^106 - 1
    f := Square10Mul(f, a1023, x, e, 1023);
    e := 1024 * e + 1023;  // 2^116 - 1
    f := Square10Mul(f, a1023, x, e, 1023);
    e := 1024 * e + 1023;  // 2^126 - 1
    f := Square10Mul(f, a1023, x, e, 1023);
    e := 1024 * e + 1023;  // 2^136 - 1
    f := Square10Mul(f, a1023, x, e, 1023);
    e := 1024 * e + 1023;  // 2^146 - 1
    f := Square10Mul(f, a1023, x, e, 1023);
    e := 1024 * e + 1023;  // 2^156 - 1
    f := Square10Mul(f, a1023, x, e, 1023);
    e := 1024 * e + 1023;  // 2^166 - 1
    f := Square10Mul(f, a1023, x, e, 1023);
    e := 1024 * e + 1023;  // 2^176 - 1
    f := Square10Mul(f, a1023, x, e, 1023);
    e := 1024 * e + 1023;  // 2^186 - 1
    f := Square10Mul(f, a1023, x, e, 1023);
    e := 1024 * e + 1023;  // 2^196 - 1
    f := Square10Mul(f, a1023, x, e, 1023);
    e := 1024 * e + 1023;  // 2^206 - 1
    f := Square10Mul(f, a1023, x, e, 1023);
    e := 1024 * e + 1023;  // 2^216 - 1
    f := Square10Mul(f, a1019, x, e, 1019);
    e := 1024 * e + 1019;  // 2^226 - 5
    f := Square10Mul(f, a1023, x, e, 1023);
    e := 1024 * e + 1023;  // 2^236 - 4097
    f := Square10Mul(f, a1023, x, e, 1023);
    e := 1024 * e + 1023;  // 2^246 - 4194305
    f := Square10Mul(f, a45, x, e, 45);
    e := 1024 * e + 45;    // 2^256 - 4294968275
    assert e == P - 2;
    PowValue(f, x, e);
  }

  lemma SelfPow(a: Limbs)
    requires Mag(a, 8)
    ensures IsPow(a, Val(a), 1)
  {
    PowerOne(Val(a));
  }

  lemma PowValue(f: Limbs, x: int, e: nat)
    requires IsPow(f, x, e)
    ensures IsPower(Val(f), x, e)
  {
  }

  /** So the result is the multiplicative inverse, and zero for zero. */
  lemma InverseMeaning(x: int, y: int)
    requires Fermat() && IsPower(y, x, P - 2)
    ensures !Cong(x, 0) ==> IsProduct(1, x, y)
    ensures Cong(x, 0) ==> Cong(y, 0)
  {
    if Cong(x, 0) {
      ZeroPower(x, y);
    } else {
      InverseExists(x, y);
    }
  }

  // ------------------------------------------------------ SetBytes, PutBytes

  predicate AreBytes(b: seq<int>) {
    forall i :: 0 <= i < |b| ==> 0 <= b[i] < 256
  }

  lemma {:induction false} BigEndianConcat(a: seq<int>, b: seq<int>)
    ensures BigEndian(a + b) == BigEndian(a) * Weight(|b|) + BigEndian(b)
  {
    if b == [] {
      assert a + b == a;
    } else {
      assert (a + b)[..|a + b| - 1] == a + b[..|b| - 1];
      BigEndianConcat(a, b[..|b| - 1]);
      assert BigEndian(a) * (256 * Weight(|b| - 1)) == 256 * (BigEndian(a) * Weight(|b| - 1));
    }
  }

  /** Thirteen bytes hold four limbs. */
  method Pack4(b: seq<int>) returns (n0: int, n1: int, n2: int, n3: int)
    requires |b| == 13 && AreBytes(b)
    ensures 0 <= n0 < BASE && 0 <= n1 < BASE && 0 <= n2 < BASE && 0 <= n3 < BASE
    ensures n0 + n1 * 0x4000000 + n2 * 0x10000000000000 + n3 * 0x40000000000000000000 == BigEndian(b)
  {
    n0 := b[12] + b[11] * 0x100 + b[10] * 0x10000 + (b[9] % 4) * 0x1000000;
    n1 := b[9] / 4 + b[8] * 0x40 + b[7] * 0x4000 + (b[6] % 16) * 0x400000;
    n2 := b[6] / 16 + b[5] * 0x10 + b[4] * 0x1000 + (b[3] % 64) * 0x100000;
    n3 := b[3] / 64 + b[2] * 4 + b[1] * 0x400 + b[0] * 0x40000;
    BigEndian13(b);
  }

  method Unpack4(n0: int, n1: int, n2: int, n3: int) returns (b: seq<int>)
    requires 0 <= n0 < BASE && 0 <= n1 < BASE && 0 <= n2 < BASE && 0 <= n3 < BASE
    ensures |b| == 13 && AreBytes(b)
    ensures BigEndian(b) == n0 + n1 * 0x4000000 + n2 * 0x10000000000000 + n3 * 0x40000000000000000000
  {
    var a0, a1, a2, a3 := n0 % 256, n0 / 256 % 256, n0 / 65536 % 256, n0 / 16777216 % 4;
    var b0, b1, b2, b3 := n1 % 64, n1 / 64 % 256, n1 / 16384 % 256, n1 / 4194304 % 16;
    var c0, c1, c2, c3 := n2 % 16, n2 / 16 % 256, n2 / 4096 % 256, n2 / 1048576 % 64;
    var d0, d1, d2, d3 := n3 % 4, n3 / 4 % 256, n3 / 1024 % 256, n3 / 262144 % 256;
    SplitA(n0);
    SplitB(n1);
    SplitC(n2);
    SplitD(n3);
    b := [d3, d2, d1, c3 + d0 * 64, c2, c1, b3 + c0 * 16, b2, b1, a3 + b0 * 4, a2, a1, a0];
    BigEndian13(b);
  }

  method Unpack2(n0: int, n1: int) returns (b: seq<int>)
    requires 0 <= n0 < BASE && 0 <= n1 < MSB
    ensures |b| == 6 && AreBytes(b) && BigEndian(b) == n0 + n1 * 0x4000000
  {
    var a0, a1, a2, a3 := n0 % 256, n0 / 256 % 256, n0 / 65536 % 256, n0 / 16777216 % 4;
    var b0, b1, b2 := n1 % 64, n1 / 64 % 256, n1 / 16384 % 256;
    SplitA(n0);
    SplitB(n1);
    b := [b2, b1, a3 + b0 * 4, a2, a1, a0];
    BigEndian6(b);
  }

  lemma SplitA(n: int)
    requires 0 <= n < BASE
    ensures n == n % 256 + 256 * (n / 256 % 256) + 65536 * (n / 65536 % 256) + 16777216 * (n / 16777216 % 4)
  {
  }

  lemma SplitB(n: int)
    requires 0 <= n < BASE
    ensures n == n % 64 + 64 * (n / 64 % 256) + 16384 * (n / 16384 % 256) + 4194304 * (n / 4194304 % 16)
  {
    assert n / 16384 == n / 64 / 256 && n / 4194304 == n / 16384 / 256;
  }

  lemma SplitC(n: int)
    requires 0 <= n < BASE
    ensures n == n % 16 + 16 * (n / 16 % 256) + 4096 * (n / 4096 % 256) + 1048576 * (n / 1048576 % 64)
  {
    assert n / 4096 == n / 16 / 256 && n / 1048576 == n / 4096 / 256;
  }

  lemma SplitD(n: int)
    requires 0 <= n < BASE
    ensures n == n % 4 + 4 * (n / 4 % 256) + 1024 * (n / 1024 % 256) + 262144 * (n / 262144 % 256)
  {
    assert n / 1024 == n / 4 / 256 && n / 262144 == n / 1024 / 256;
  }

  lemma BigEndian13(b: seq<int>)
    requires |b| == 13
    ensures BigEndian(b) ==
            b[0] * 0x1000000000000000000000000 + b[1] * 0x10000000000000000000000 + b[2] * 0x100000000000000000000 +
            b[3] * 0x1000000000000000000 + b[4] * 0x10000000000000000 + b[5] * 0x100000000000000 +
            b[6] * 0x1000000000000 + b[7] * 0x10000000000 + b[8] * 0x100000000 +
            b[9] * 0x1000000 + b[10] * 0x10000 + b[11] * 0x100 +
            b[12]
  {
    BigEndian6(b[..6]);
    BigEndian7(b[6..]);
    BigEndianConcat(b[..6], b[6..]);
    assert b[..6] + b[6..] == b;
    Weight7();
  }

  lemma Weight7()
    ensures Weight(7) == 0x100000000000000
  {
  }

  lemma BigEndian6(b: seq<int>)
    requires |b| == 6
    ensures BigEndian(b) ==
            b[0] * 0x10000000000 + b[1] * 0x100000000 + b[2] * 0x1000000 +
            b[3] * 0x10000 + b[4] * 0x100 + b[5]
  {
    assert b[..5][..4] == b[..4] && b[..4][..3] == b[..3] && b[..3][..2] == b[..2] && b[..2][..1] == b[..1];
    assert b[..1][..0] == [];
    assert BigEndian(b[..1]) == b[0];
    assert BigEndian(b[..3]) == 256 * BigEndian(b[..2]) + b[2];
    assert BigEndian(b[..5]) == 256 * BigEndian(b[..4]) + b[4];
  }

  lemma BigEndian7(b: seq<int>)
    requires |b| == 7
    ensures BigEndian(b) ==
            b[0] * 0x1000000000000 + b[1] * 0x10000000000 + b[2] * 0x100000000 +
            b[3] * 0x1000000 + b[4] * 0x10000 + b[5] * 0x100 +
            b[6]
  {
    BigEndian6(b[..6]);
  }

  /** SetBytes: packs a 32-byte big-endian value. */
  method PackBytes(b: seq<int>) returns (r: Limbs)
    requires |b| == 32 && AreBytes(b)
    ensures Packed(r) && Val(r) == BigEndian(b)
  {
    var n0, n1, n2, n3 := Pack4(b[19..]);
    var n4, n5, n6, n7 := Pack4(b[6..19]);
    var n8 := b[5] + b[4] * 0x100 + b[3] * 0x10000 + (b[2] % 4) * 0x1000000;
    var n9 := b[2] / 4 + b[1] * 0x40 + b[0] * 0x4000;
    r := Limbs(n0, n1, n2, n3, n4, n5, n6, n7, n8, n9);
    BigEndian6(b[..6]);
    Join32(b[..6], b[6..19], b[19..]);
    assert b[..6] + b[6..19] + b[19..] == b;
  }

  /** PutBytes, for packed (in particular normalized) values. */
  method UnpackBytes(a: Limbs) returns (b: seq<int>)
    requires Packed(a)
    ensures |b| == 32 && AreBytes(b) && BigEndian(b) == Val(a)
  {
    var top := Unpack2(a.n8, a.n9);
    var mid := Unpack4(a.n4, a.n5, a.n6, a.n7);
    var low := Unpack4(a.n0, a.n1, a.n2, a.n3);
    b := top + mid + low;
    Join32(top, mid, low);
  }

  lemma Join32(a: seq<int>, b: seq<int>, c: seq<int>)
    requires |a| == 6 && |b| == 13 && |c| == 13
    ensures BigEndian(a + b + c) ==
            BigEndian(a) * 0x10000000000000000000000000000000000000000000000000000 +
                BigEndian(b) * 0x100000000000000000000000000 + BigEndian(c)
  {
    BigEndianConcat(a, b);
    BigEndianConcat(a + b, c);
    Weight7();
    assert Weight(13) == 0x100000000000000000000000000;
  }

  /** A normalized element survives PutBytes then SetBytes. */
  method BytesRoundTrip(a: Limbs) returns (r: Limbs)
    requires Packed(a)
    ensures r == a
  {
    var b := UnpackBytes(a);
    r := PackBytes(b);
    PackedUnique(a, r);
  }
}
