/** The non-adjacent form of a scalar (NAF in crypto/s256crypto.go, algorithm 3.30 of GECC). */
module Naf {
  import opened Common
  import opened FieldElement

  /** Signed binary digits, lowest first. */
  ghost function DigitsVal(d: seq<int>): int {
    if d == [] then 0 else d[0] + 2 * DigitsVal(d[1..])
  }

  /** Only the digits equal to s, as ones: what the bytes for +1 and for -1 hold. */
  ghost function Marks(d: seq<int>, s: int): int {
    if d == [] then 0 else (if d[0] == s then 1 else 0) + 2 * Marks(d[1..], s)
  }

  ghost predicate SignedBits(d: seq<int>) {
    forall t :: 0 <= t < |d| ==> -1 <= d[t] <= 1
  }

  ghost predicate NonAdjacent(d: seq<int>) {
    forall t {:trigger d[t]} :: 0 <= t < |d| - 1 && d[t] != 0 ==> d[t + 1] == 0
  }

  /** The byte strings pos and neg (big-endian) mark the digits +1 and -1 of d. */
  ghost predicate Marked(pos: seq<int>, neg: seq<int>, d: seq<int>) {
    && |neg| == |pos| && |d| == 8 * |pos|
    && forall m :: 0 <= m < |pos| ==>
         && pos[|pos| - 1 - m] == Marks(d[8 * m..8 * m + 8], 1)
         && neg[|pos| - 1 - m] == Marks(d[8 * m..8 * m + 8], -1)
  }

  lemma {:induction false} DigitsAppend(d: seq<int>, e: seq<int>)
    ensures DigitsVal(d + e) == DigitsVal(d) + Pow2(|d|) * DigitsVal(e)
  {
    if d == [] {
      assert d + e == e;
    } else {
      assert (d + e)[1..] == d[1..] + e;
      DigitsAppend(d[1..], e);
      assert 2 * (Pow2(|d| - 1) * DigitsVal(e)) == Pow2(|d|) * DigitsVal(e);
    }
  }

  lemma {:induction false} MarksAppend(d: seq<int>, x: int, s: int)
    ensures Marks(d + [x], s) == Marks(d, s) + if x == s then Pow2(|d|) else 0
  {
    if d == [] {
      assert Marks([x], s) == (if x == s then 1 else 0) + 2 * Marks([x][1..], s);
    } else {
      assert (d + [x])[1..] == d[1..] + [x];
      MarksAppend(d[1..], x, s);
    }
  }

  /** Bit j of a byte; bit 8 is the lowest bit of the next byte. */
  ghost predicate BitAt(b: int, next: bool, j: nat) {
    if j < 8 then b / Pow2(j) % 2 == 1 else next
  }

  /** What the loop over the bits of a byte keeps. */
  ghost predicate ByteInv(b: int, next: bool, carryIn: bool, j: nat, p: int, q: int, carry: bool, d: seq<int>) {
    && |d| == j && SignedBits(d) && NonAdjacent(d)
    && p == Marks(d, 1) && q == Marks(d, -1)
    && DigitsVal(d) + (if carry then Pow2(j) else 0) == b % Pow2(j) + (if carryIn then 1 else 0)
    && (j > 0 && d[j - 1] != 0 ==> carry == BitAt(b, next, j))
    && (j == 0 ==> carry == carryIn)
    && (j > 0 && carryIn == BitAt(b, next, 0) ==> d[0] == 0)
  }

  /** The inner loop of NAF: eight digits from one byte, the carry and the next byte's lowest bit. */
  method NafByte(b: int, next: bool, carryIn: bool) returns (p: int, q: int, carry: bool, ghost d: seq<int>)
    requires 0 <= b < 256
    ensures ByteInv(b, next, carryIn, 8, p, q, carry, d)
  {
    hide Marks, DigitsVal, NonAdjacent, SignedBits, ByteInv;
    p, q, carry, d := 0, 0, carryIn, [];
    var cur, bit := b, 1;
    ByteStart(b, next, carryIn);
    for j := 0 to 8
      invariant ByteInv(b, next, carryIn, j, p, q, carry, d)
      invariant bit == Pow2(j) && cur == b / Pow2(j)
    {
      var curIsOne := cur % 2 == 1;
      var nextIsOne := if j == 7 then next else cur / 2 % 2 == 1;
      ByteStep(b, next, carryIn, j, p, q, carry, d);
      BitFacts(b, j);
      d := d + [Digit(carry, curIsOne, nextIsOne)];
      if carry {
        if !curIsOne {
          if nextIsOne {
            q := q + bit;
          } else {
            carry := false;
            p := p + bit;
          }
        }
      } else if curIsOne {
        if nextIsOne {
          q := q + bit;
          carry := true;
        } else {
          p := p + bit;
        }
      }
      cur := cur / 2;
      bit := 2 * bit;
    }
  }

  lemma ByteStart(b: int, next: bool, carryIn: bool)
    requires 0 <= b < 256
    ensures ByteInv(b, next, carryIn, 0, 0, 0, carryIn, [])
  {
  }

  /** The digit the algorithm emits, and the carry it leaves. */
  ghost function Digit(carry: bool, cur: bool, next: bool): int {
    if carry == cur then 0 else if next then -1 else 1
  }

  ghost predicate CarryOut(carry: bool, cur: bool, next: bool) {
    if carry == cur then carry else next
  }

  lemma ByteStep(b: int, next: bool, carryIn: bool, j: nat, p: int, q: int, carry: bool, d: seq<int>)
    requires 0 <= b < 256 && j < 8 && ByteInv(b, next, carryIn, j, p, q, carry, d)
    ensures var c, n := BitAt(b, next, j), BitAt(b, next, j + 1);
            var x := Digit(carry, c, n);
            ByteInv(b, next, carryIn, j + 1,
                    p + (if x == 1 then Pow2(j) else 0), q + (if x == -1 then Pow2(j) else 0),
                    CarryOut(carry, c, n), d + [x])
  {
    hide Marks, DigitsVal, Pow2;
    var c, n := BitAt(b, next, j), BitAt(b, next, j + 1);
    var x := Digit(carry, c, n);
    StepDigit(d, x);
    BitFacts(b, j);
    assert Pow2(j) * x == (if x == 1 then Pow2(j) else if x == -1 then -1 * Pow2(j) else 0);
    var e := d + [x];
    assert e[j] == x && (j > 0 ==> e[j - 1] == d[j - 1]);
    assert NonAdjacent(e);
  }

  lemma StepDigit(d: seq<int>, x: int)
    ensures Marks(d + [x], 1) == Marks(d, 1) + if x == 1 then Pow2(|d|) else 0
    ensures Marks(d + [x], -1) == Marks(d, -1) + if x == -1 then Pow2(|d|) else 0
    ensures DigitsVal(d + [x]) == DigitsVal(d) + Pow2(|d|) * x
  {
    MarksAppend(d, x, 1);
    MarksAppend(d, x, -1);
    DigitsAppend(d, [x]);
    assert DigitsVal([x]) == x + 2 * DigitsVal([x][1..]);
  }

  lemma BitFacts(b: nat, j: nat)
    ensures Pow2(j) > 0 && Pow2(j + 1) == 2 * Pow2(j)
    ensures b / Pow2(j + 1) == b / Pow2(j) / 2
    ensures b % Pow2(j + 1) == b % Pow2(j) + if b / Pow2(j) % 2 == 1 then Pow2(j) else 0
  {
    Pow2Next(j);
    hide *;
    Halving(b, Pow2(j));
  }

  lemma Pow2Next(j: nat)
    ensures Pow2(j) > 0 && Pow2(j + 1) == 2 * Pow2(j)
  {
  }

  lemma Halving(b: nat, p: int)
    requires p > 0
    ensures b / (2 * p) == b / p / 2 && b % (2 * p) == b % p + if b / p % 2 == 1 then p else 0
  {
    var q: int, r: int := b / p, b % p;
    DivUnique(b, 2 * p, q / 2, r + if q % 2 == 1 then p else 0) by {
      Rejoin(b, p, q, r, q / 2, q % 2);
    }
  }

  lemma Rejoin(b: int, p: int, q: int, r: int, h: int, o: int)
    requires b == p * q + r && q == 2 * h + o
    ensures b == (2 * p) * h + p * o + r
  {
    assert p * (2 * h + o) == p * (2 * h) + p * o;
  }

  // ------------------------------------------------------------------ the loop over the bytes

  lemma {:induction false} WeightPow2(m: nat)
    ensures Weight(m) == Pow2(8 * m)
  {
    if m > 0 {
      WeightPow2(m - 1);
      var n := 8 * (m - 1);
      assert Pow2(n + 2) == 2 * Pow2(n + 1) && Pow2(n + 4) == 2 * Pow2(n + 3);
      assert Pow2(n + 6) == 2 * Pow2(n + 5) && Pow2(n + 8) == 2 * Pow2(n + 7);
    }
  }

  lemma BigEndianCons(b: int, rest: seq<int>)
    ensures BigEndian([b] + rest) == b * Pow2(8 * |rest|) + BigEndian(rest)
  {
    assert BigEndian([b]) == b by { assert BigEndian([b]) == 256 * BigEndian([b][..0]) + b; }
    hide *;
    BigEndianConcat([b], rest);
    WeightPow2(|rest|);
  }

  /** The lowest bit of byte i of k, and of no byte before the first. */
  predicate LowBit(k: seq<int>, i: int) {
    0 <= i < |k| && k[i] % 2 == 1
  }

  /** What the loop over the bytes keeps, with the lowest m bytes done. */
  ghost predicate NafInv(k: seq<int>, m: nat, pos: seq<int>, neg: seq<int>, carry: bool, d: seq<int>) {
    && m <= |k| && |pos| == |neg| == |k| + 1 && |d| == 8 * m && SignedBits(d) && NonAdjacent(d)
    && pos[0] == 0 && neg[0] == 0
    && (forall t :: 0 <= t < m ==> pos[|k| - t] == Marks(d[8 * t..8 * t + 8], 1))
    && (forall t :: 0 <= t < m ==> neg[|k| - t] == Marks(d[8 * t..8 * t + 8], -1))
    && DigitsVal(d) + (if carry then Pow2(8 * m) else 0) == BigEndian(k[|k| - m..])
    && (m == 0 ==> !carry)
    && (m > 0 && d[8 * m - 1] != 0 ==> carry == LowBit(k, |k| - m - 1))
  }

  lemma NafStep(k: seq<int>, m: nat, pos: seq<int>, neg: seq<int>, carry: bool, d: seq<int>,
                p: int, q: int, carry': bool, e: seq<int>)
    requires AreBytes(k) && m < |k| && NafInv(k, m, pos, neg, carry, d)
    requires ByteInv(k[|k| - m - 1], LowBit(k, |k| - m - 2), carry, 8, p, q, carry', e)
    ensures NafInv(k, m + 1, pos[|k| - m := p], neg[|k| - m := q], carry', d + e)
  {
    var b, d' := k[|k| - m - 1], d + e;
    ByteAdjacent(d, e);
    assert BitAt(b, LowBit(k, |k| - m - 2), 0) == LowBit(k, |k| - m - 1) by { assert Pow2(0) == 1; }
    forall t | 0 <= t < m + 1
      ensures d'[8 * t..8 * t + 8] == if t < m then d[8 * t..8 * t + 8] else e
    {
    }
    NafValue(k, m, carry, d, e, carry');
  }

  lemma ByteAdjacent(d: seq<int>, e: seq<int>)
    requires SignedBits(d) && NonAdjacent(d) && SignedBits(e) && NonAdjacent(e)
    requires d != [] && e != [] && d[|d| - 1] != 0 ==> e[0] == 0
    ensures SignedBits(d + e) && NonAdjacent(d + e)
  {
    forall t | 0 <= t < |d + e| - 1 && (d + e)[t] != 0
      ensures (d + e)[t + 1] == 0
    {
      if t < |d| - 1 {
        assert d[t] != 0;
      } else if t >= |d| {
        assert e[t - |d|] != 0;
      }
    }
  }

  lemma BytePow2(m: nat)
    ensures Pow2(8) == 256 && Pow2(8 * (m + 1)) == 256 * Pow2(8 * m)
  {
    WeightPow2(1);
    WeightPow2(m);
    WeightPow2(m + 1);
    assert Weight(1) == 256 * Weight(0);
  }

  lemma NafValue(k: seq<int>, m: nat, carry: bool, d: seq<int>, e: seq<int>, carry': bool)
    requires m < |k| && |d| == 8 * m && |e| == 8
    requires 0 <= k[|k| - m - 1] < 256
    requires DigitsVal(d) + (if carry then Pow2(8 * m) else 0) == BigEndian(k[|k| - m..])
    requires DigitsVal(e) + (if carry' then Pow2(8) else 0) == k[|k| - m - 1] % Pow2(8) + (if carry then 1 else 0)
    ensures DigitsVal(d + e) + (if carry' then Pow2(8 * (m + 1)) else 0) == BigEndian(k[|k| - m - 1..])
  {
    hide *;
    BytePow2(m);
    var b := k[|k| - m - 1];
    DigitsAppend(d, e);
    assert k[|k| - m - 1..] == [b] + k[|k| - m..];
    BigEndianCons(b, k[|k| - m..]);
    CarryValue(DigitsVal(d), DigitsVal(e), Pow2(8 * m), b, BigEndian(k[|k| - m..]), carry, carry');
  }

  lemma CarryValue(d: int, e: int, w: int, b: int, v: int, carry: bool, carry': bool)
    requires d + (if carry then w else 0) == v
    requires e + (if carry' then 256 else 0) == b + (if carry then 1 else 0)
    ensures d + w * e + (if carry' then 256 * w else 0) == b * w + v
  {
    assert w * e == w * b + (if carry then w else 0) - (if carry' then 256 * w else 0);
  }

  /** NAF: pos and neg mark the non-adjacent signed digits of k, for a k of any length. */
  method NAF(k: seq<int>) returns (pos: seq<int>, neg: seq<int>, ghost d: seq<int>)
    requires AreBytes(k)
    ensures Marked(pos, neg, d) && SignedBits(d) && NonAdjacent(d)
    ensures DigitsVal(d) == BigEndian(k)
    ensures |pos| == |k| || |pos| == |k| + 1
  {
    hide NafInv, Marked, SignedBits, NonAdjacent, DigitsVal, BigEndian, ByteInv, Pow2, Marks;
    var carry := false;
    pos := seq(|k| + 1, _ => 0);
    neg := seq(|k| + 1, _ => 0);
    d := [];
    NafStart(k, pos, neg);
    var i := |k| - 1;
    while i >= 0
      invariant -1 <= i < |k| && |pos| == |neg| == |k| + 1
      invariant NafInv(k, |k| - 1 - i, pos, neg, carry, d)
    {
      var next := if i == 0 then false else k[i - 1] % 2 == 1;
      var p, q, carryOut;
      ghost var e;
      p, q, carryOut, e := NafByte(k[i], next, carry);
      assert next == LowBit(k, i - 1);
      NafStep(k, |k| - 1 - i, pos, neg, carry, d, p, q, carryOut, e);
      pos := pos[i + 1 := p];
      neg := neg[i + 1 := q];
      carry, d := carryOut, d + e;
      i := i - 1;
    }
    NafDone(k, pos, neg, carry, d);
    if carry {
      pos := pos[0 := 1];
      d := d + TOP;
    } else {
      pos := pos[1..];
      neg := neg[1..];
    }
  }

  lemma NafStart(k: seq<int>, pos: seq<int>, neg: seq<int>)
    requires pos == seq(|k| + 1, _ => 0) && neg == seq(|k| + 1, _ => 0)
    ensures NafInv(k, 0, pos, neg, false, [])
  {
    assert k[|k|..] == [];
  }

  ghost const TOP: seq<int> := [1, 0, 0, 0, 0, 0, 0, 0]

  lemma NafDone(k: seq<int>, pos: seq<int>, neg: seq<int>, carry: bool, d: seq<int>)
    requires NafInv(k, |k|, pos, neg, carry, d)
    ensures carry ==> (&& Marked(pos[0 := 1], neg, d + TOP) && SignedBits(d + TOP) && NonAdjacent(d + TOP)
                       && DigitsVal(d + TOP) == BigEndian(k))
    ensures !carry ==> (&& Marked(pos[1..], neg[1..], d) && SignedBits(d) && NonAdjacent(d)
                        && DigitsVal(d) == BigEndian(k))
  {
    hide Pow2, DigitsVal, Marks, BigEndian;
    assert k[|k| - |k|..] == k;
    if carry {
      ByteAdjacent(d, TOP);
      DigitsAppend(d, TOP);
      TopByte();
      TopMarked(k, pos, neg, d);
    }
  }

  lemma TopMarked(k: seq<int>, pos: seq<int>, neg: seq<int>, d: seq<int>)
    requires |pos| == |neg| == |k| + 1 && |d| == 8 * |k| && neg[0] == 0
    requires forall t :: 0 <= t < |k| ==> pos[|k| - t] == Marks(d[8 * t..8 * t + 8], 1)
    requires forall t :: 0 <= t < |k| ==> neg[|k| - t] == Marks(d[8 * t..8 * t + 8], -1)
    ensures Marked(pos[0 := 1], neg, d + TOP)
  {
    hide Marks;
    TopByte();
    var d', p := d + TOP, pos[0 := 1];
    forall t | 0 <= t < |p|
      ensures p[|p| - 1 - t] == Marks(d'[8 * t..8 * t + 8], 1) && neg[|p| - 1 - t] == Marks(d'[8 * t..8 * t + 8], -1)
    {
      assert d'[8 * t..8 * t + 8] == if t < |k| then d[8 * t..8 * t + 8] else TOP;
    }
  }

  lemma TopByte()
    ensures DigitsVal(TOP) == 1 && Marks(TOP, 1) == 1 && Marks(TOP, -1) == 0
  {
    Zeros(7);
    assert TOP[1..] == ZeroDigits(7);
  }

  ghost function ZeroDigits(n: nat): (z: seq<int>)
    ensures |z| == n && forall i :: 0 <= i < n ==> z[i] == 0
  {
    seq(n, _ => 0)
  }

  lemma {:induction false} Zeros(n: nat)
    ensures var z := ZeroDigits(n); DigitsVal(z) == 0 && Marks(z, 1) == 0 && Marks(z, -1) == 0
  {
    if n > 0 {
      Zeros(n - 1);
      assert ZeroDigits(n)[1..] == ZeroDigits(n - 1);
    }
  }
}
