/**
 fieldVal as an object whose limbs are overwritten in place (crypto/field.go).  Receivers and
 arguments may be the same object, as callers rely on.
 */
module FieldVals {
  import opened Common
  import opened Congruence
  import opened Field
  import opened FieldElement
  import opened Power

  /** The value Q = (P+1)/4, big-endian, that SqrtVal walks through. */
  const Q_BYTES: seq<int> := [
    0x3f, 0xff, 0xff, 0xff, 0xff, 0xff, 0xff, 0xff,
    0xff, 0xff, 0xff, 0xff, 0xff, 0xff, 0xff, 0xff,
    0xff, 0xff, 0xff, 0xff, 0xff, 0xff, 0xff, 0xff,
    0xff, 0xff, 0xff, 0xff, 0xbf, 0xff, 0xff, 0x0c]

  class FieldVal {
    var n: Limbs

    constructor (limbs: Limbs)
      ensures n == limbs
    {
      n := limbs;
    }

    method Mul2(val: FieldVal, val2: FieldVal)
      requires Mag(val.n, 8) && Mag(val2.n, 8)
      modifies this
      ensures Mag(n, 1) && IsProduct(Val(n), Val(old(val.n)), Val(old(val2.n)))
    {
      n := MulLimbs(val.n, val2.n);
    }

    method SquareVal(val: FieldVal)
      requires Mag(val.n, 8)
      modifies this
      ensures Mag(n, 1) && IsProduct(Val(n), Val(old(val.n)), Val(old(val.n)))
    {
      n := SquareLimbs(val.n);
    }

    method Normalize()
      requires Carries(n)
      modifies this
      ensures Normalized(n) && Cong(Val(n), Val(old(n)))
    {
      n := NormalizeLimbs(n);
    }

    method NegateVal(val: FieldVal, magnitude: U32)
      requires magnitude <= 63 && Mag(val.n, magnitude)
      modifies this
      ensures Mag(n, magnitude + 1) && Val(n) == (magnitude + 1) * P - Val(old(val.n))
    {
      n := NegateLimbs(val.n, magnitude);
    }

    method Inverse()
      requires Mag(n, 8)
      modifies this
      ensures Mag(n, 1) && IsPower(Val(n), Val(old(n)), P - 2)
    {
      n := InverseLimbs(n);
    }

    /** What one step of SqrtVal's loop keeps: the receiver is v^e, or stays 1 if it is the argument. */
    ghost predicate Root(x: FieldVal, v: int, e: nat)
      reads this, x
    {
      && Mag(n, 1) && IsPow(n, v, e)
      && (if x == this then v == 1 else Mag(x.n, 8) && Val(x.n) == v)
    }

    /** One squaring, followed by a multiplication by x when bit is set. */
    method Step(x: FieldVal, bit: bool, ghost v: int, ghost e: nat) returns (ghost e': nat)
      requires Root(x, v, e)
      modifies this
      ensures Root(x, v, e') && (x != this ==> x.n == old(x.n) && e' == 2 * e + if bit then 1 else 0)
    {
      n := SquarePow(n, v, e);
      e' := 2 * e;
      if bit {
        if x == this {
          n := MulPow(n, n, v, e', e');
          e' := 2 * e';
        } else {
          SelfPow(x.n);
          n := MulPow(n, x.n, v, e', 1);
          e' := e' + 1;
        }
      }
    }

    /** The steps for the four bits of half a byte. */
    method Nibble(x: FieldVal, b3: bool, b2: bool, b1: bool, b0: bool, ghost v: int, ghost e: nat)
      returns (ghost e': nat)
      requires Root(x, v, e)
      modifies this
      ensures Root(x, v, e')
      ensures x != this ==> x.n == old(x.n) && e' == 16 * e + BitsValue(b3, b2, b1, b0)
    {
      hide IsPow;
      e' := Step(x, b3, v, e);
      e' := Step(x, b2, v, e');
      e' := Step(x, b1, v, e');
      e' := Step(x, b0, v, e');
    }

    /** f.Mul(x) without the squaring: the first bit of Q, where f is still 1. */
    method FirstBit(x: FieldVal, ghost v: int) returns (ghost e': nat)
      requires Root(x, v, 0)
      modifies this
      ensures Root(x, v, e') && (x != this ==> x.n == old(x.n) && e' == 1)
    {
      if x == this {
        n := MulPow(n, n, v, 0, 0);
        e' := 0;
      } else {
        SelfPow(x.n);
        n := MulPow(n, x.n, v, 0, 1);
        e' := 1;
      }
    }

    /**
     SqrtVal: x^((P+1)/4).  Called with the receiver as its argument, as Sqrt does, it computes 1
     whatever the value was, because the receiver is set to 1 before x is read.
     */
    method SqrtVal(x: FieldVal)
      requires Mag(x.n, 8)
      modifies this
      ensures x != this ==> Mag(n, 1) && IsPower(Val(n), Val(x.n), (P + 1) / 4)
      ensures x == this ==> Mag(n, 1) && Cong(Val(n), 1)
    {
      hide IsPow;
      n := ONE;
      ghost var v := Val(x.n);
      ghost var e: nat := 0;
      OneIsPower(v);
      for i := 0 to |Q_BYTES|
        invariant Root(x, v, e)
        invariant x != this ==> x.n == old(x.n) && e == BigEndian(Q_BYTES[..i])
        invariant i == 0 ==> e == 0
      {
        assert x != this ==> BigEndian(Q_BYTES[..i + 1]) == 256 * e + Q_BYTES[i] by {
          assert Q_BYTES[..i + 1][..i] == Q_BYTES[..i];
        }
        QBytesShape(i);
        match Q_BYTES[i] {
          case 0xff =>
            e := Nibble(x, true, true, true, true, v, e);
            e := Nibble(x, true, true, true, true, v, e);
          case 0x3f =>
            e := FirstBit(x, v);
            e := Step(x, true, v, e);
            e := Nibble(x, true, true, true, true, v, e);
          case 0xbf =>
            e := Nibble(x, true, false, true, true, v, e);
            e := Nibble(x, true, true, true, true, v, e);
          case _ =>
            e := Nibble(x, false, false, false, false, v, e);
            e := Nibble(x, true, true, false, false, v, e);
        }
      }
      QBytesValue();
      assert Q_BYTES[..|Q_BYTES|] == Q_BYTES;
      RootResult(x, v, e);
    }

    lemma RootResult(x: FieldVal, v: int, e: nat)
      requires Root(x, v, e)
      ensures Mag(n, 1) && IsPower(Val(n), v, e) && (x == this ==> Cong(Val(n), 1))
    {
      if x == this {
        PowerMeaning(Val(n), 1, e);
        PowOne(e);
      }
    }
  }

  function BitsValue(b3: bool, b2: bool, b1: bool, b0: bool): nat {
    (if b3 then 8 else 0) + (if b2 then 4 else 0) + (if b1 then 2 else 0) + if b0 then 1 else 0
  }

  lemma OneIsPower(v: int)
    ensures Mag(ONE, 1) && IsPow(ONE, v, 0) && IsPow(ONE, 1, 0) && Val(ONE) == 1
  {
    PowerZero(v);
    PowerZero(1);
  }

  lemma {:induction false} PowOne(e: nat)
    ensures Pow(1, e) == 1
  {
    if e > 0 {
      PowOne(e - 1);
    }
  }

  /** The switch of SqrtVal covers the bytes of Q, and 0x3f is only the first of them. */
  lemma QBytesShape(i: nat)
    requires i < 32
    ensures Q_BYTES[i] in {0xff, 0x3f, 0xbf, 0x0c}
    ensures Q_BYTES[i] == 0x3f ==> i == 0
  {
  }

  lemma QBytesValue()
    ensures BigEndian(Q_BYTES) == (P + 1) / 4
  {
    var a := [0x3f, 0xff, 0xff, 0xff, 0xff, 0xff];
    var b := [0xff, 0xff, 0xff, 0xff, 0xff, 0xff, 0xff, 0xff, 0xff, 0xff, 0xff, 0xff, 0xff];
    var c := [0xff, 0xff, 0xff, 0xff, 0xff, 0xff, 0xff, 0xff, 0xff, 0xbf, 0xff, 0xff, 0x0c];
    BigEndian6(a);
    BigEndian13(b);
    BigEndian13(c);
    Join32(a, b, c);
    assert Q_BYTES == a + b + c;
  }

  /** The root squares back to x whenever x is a square. */
  lemma SqrtMeaning(x: int, s: int, r: int)
    requires Fermat() && IsProduct(x, s, s) && IsPower(r, x, (P + 1) / 4)
    ensures IsProduct(x, r, r)
  {
    // r = s^((P+1)/2), so r^2 = s^(P+1) = s^2 * s^(P-1) = s^2.
    PowerOfSquare(x, s, r, (P + 1) / 4);
    var rr := r * r;
    CongRefl(rr);
    ProductMeaning(rr, r, r);
    PowerProduct(rr, r, r, s, (P + 1) / 2, (P + 1) / 2);
    SquareFermat(x, s, rr);
    ProductMeaning(x, r, r);
  }

  /** The in-place form meets its promise exactly for the value 1, as its result is always 1. */
  lemma InPlaceRoot(x: int, r: int)
    requires Cong(r, 1)
    ensures IsProduct(x, r, r) <==> Cong(x, 1)
  {
    CongMul(r, 1, r, 1);
    ProductMeaning(x, r, r);
    if IsProduct(x, r, r) {
      CongTrans(x, r * r, 1);
    }
    if Cong(x, 1) {
      CongSym(r * r, 1);
      CongTrans(x, 1, r * r);
    }
  }

  /** Four is the square of two, and its root is not found in place. */
  lemma InPlaceRootOfFour(r: int)
    requires Cong(r, 1)
    ensures IsProduct(4, 2, 2) && !IsProduct(4, r, r)
  {
    CongRefl(4);
    ProductMeaning(4, 2, 2);
    InPlaceRoot(4, r);
    if Cong(4, 1) {
      ResidueUnique(4, 1);
    }
  }

  /** s^(P+1) is s^2. */
  lemma SquareFermat(x: int, s: int, y: int)
    requires Fermat() && IsProduct(x, s, s) && IsPower(y, s, P + 1)
    ensures Cong(x, y)
  {
    PowerMeaning(y, s, P + 1);
    ProductMeaning(x, s, s);
    PowAdd(s, P - 1, 2);
    assert Pow(s, 2) == s * s by { assert Pow(s, 2) == s * Pow(s, 1) && Pow(s, 1) == s * Pow(s, 0); }
    var w := Pow(s, P - 1);
    assert Pow(s, P + 1) == w * (s * s);
    CongRefl(s * s);
    if Cong(s, 0) {
      CongMul(s, 0, s, s) by { CongRefl(s); }
      CongRefl(w);
      CongMul(w, w, s * s, 0);
      CongTrans(y, w * (s * s), 0);
      CongTrans(x, s * s, 0);
      CongSym(y, 0);
      CongTrans(x, 0, y);
    } else {
      PowerMeaning(1, s, P - 1);
      CongSym(1, w);
      CongMul(w, 1, s * s, s * s);
      CongTrans(y, w * (s * s), s * s);
      CongSym(y, s * s);
      CongTrans(x, s * s, y);
    }
  }

  /** If x = s^2 then x^e = s^(2e). */
  lemma {:induction false} PowerOfSquare(x: int, s: int, r: int, e: nat)
    requires IsProduct(x, s, s) && IsPower(r, x, e)
    ensures IsPower(r, s, 2 * e)
  {
    ProductMeaning(x, s, s);
    PowerMeaning(r, x, e);
    PowSquare(x, s, e);
    CongTrans(r, Pow(x, e), Pow(s, 2 * e));
    PowerMeaning(r, s, 2 * e);
  }

  lemma {:induction false} PowSquare(x: int, s: int, e: nat)
    requires Cong(x, s * s)
    ensures Cong(Pow(x, e), Pow(s, 2 * e))
  {
    if e == 0 {
      CongRefl(1);
    } else {
      PowSquare(x, s, e - 1);
      CongMul(x, s * s, Pow(x, e - 1), Pow(s, 2 * (e - 1)));
      assert Pow(s, 2 * e) == s * s * Pow(s, 2 * (e - 1)) by {
        assert Pow(s, 2 * e) == s * Pow(s, 2 * e - 1) && Pow(s, 2 * e - 1) == s * Pow(s, 2 * e - 2);
      }
    }
  }
}
