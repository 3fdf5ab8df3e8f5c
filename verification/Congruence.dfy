/**
 Arithmetic modulo the secp256k1 field prime.

 The definitions here are wrapped in trivially true guards.  They do not change the meaning (see
 CongMeaning, ProductMeaning), but keep the solver from unfolding products of 256-bit numbers
 wherever a congruence is merely mentioned.
 */
module Congruence {

  /** 2^256 - 4294968273, the characteristic of the field (crypto/s256crypto.go, constant P). */
  const P: int := 0xFFFFFFFFFFFFFFFFFFFFFFFFFFFFFFFFFFFFFFFFFFFFFFFFFFFFFFFEFFFFFC2F

  ghost predicate Key<T(!new)>(t: T, u: int) { true }

  ghost predicate Lock<T(!new)>(t: T, u: int) { true }

  /** x and y differ by a multiple of P. */
  ghost predicate Cong(x: int, y: int) {
    exists q {:trigger Key((x, y), q)} ::
      Key((x, y), q) && forall u {:trigger Lock((x, y), u)} :: Lock((x, y), u) ==> x - y == q * P
  }

  lemma CongIntro(x: int, y: int, q: int)
    requires x == y + q * P
    ensures Cong(x, y)
  {
    assert Key((x, y), q);
  }

  lemma CongElim(x: int, y: int) returns (q: int)
    requires Cong(x, y)
    ensures x == y + q * P
  {
    q :| Key((x, y), q) && forall u {:trigger Lock((x, y), u)} :: Lock((x, y), u) ==> x - y == q * P;
    assert Lock((x, y), 0);
  }

  lemma CongMeaning(x: int, y: int)
    ensures Cong(x, y) <==> x % P == y % P
  {
    if Cong(x, y) {
      var q := CongElim(x, y);
    }
    if x % P == y % P {
      CongIntro(x, y, x / P - y / P);
    }
  }

  lemma CongRefl(x: int)
    ensures Cong(x, x)
  {
    CongIntro(x, x, 0);
  }

  lemma CongSym(x: int, y: int)
    requires Cong(x, y)
    ensures Cong(y, x)
  {
    var q := CongElim(x, y);
    CongIntro(y, x, -q);
  }

  lemma CongTrans(x: int, y: int, z: int)
    requires Cong(x, y) && Cong(y, z)
    ensures Cong(x, z)
  {
    var a := CongElim(x, y);
    var b := CongElim(y, z);
    CongIntro(x, z, a + b);
  }

  lemma CongAdd(x: int, x': int, y: int, y': int)
    requires Cong(x, x') && Cong(y, y')
    ensures Cong(x + y, x' + y')
  {
    var a := CongElim(x, x');
    var b := CongElim(y, y');
    CongIntro(x + y, x' + y', a + b);
  }

  lemma CongSub(x: int, x': int, y: int, y': int)
    requires Cong(x, x') && Cong(y, y')
    ensures Cong(x - y, x' - y')
  {
    var a := CongElim(x, x');
    var b := CongElim(y, y');
    CongIntro(x - y, x' - y', a - b);
  }

  lemma CongMul(x: int, x': int, y: int, y': int)
    requires Cong(x, x') && Cong(y, y')
    ensures Cong(x * y, x' * y')
  {
    var a := CongElim(x, x');
    var b := CongElim(y, y');
    calc {
      x * y;
      (x' + a * P) * (y' + b * P);
      x' * y' + (a * y' + b * x' + a * b * P) * P;
    }
    CongIntro(x * y, x' * y', a * y' + b * x' + a * b * P);
  }

  lemma CongScale(k: int, x: int, y: int)
    requires Cong(x, y)
    ensures Cong(k * x, k * y)
  {
    CongRefl(k);
    CongMul(k, k, x, y);
  }

  lemma CongMod(x: int)
    ensures Cong(x % P, x)
  {
    CongIntro(x % P, x, -(x / P));
  }

  /** A residue in [0, P) is unique. */
  lemma ResidueUnique(x: int, y: int)
    requires 0 <= x < P && 0 <= y < P && Cong(x, y)
    ensures x == y
  {
    CongMeaning(x, y);
  }

  /** z is the product of x and y modulo P. */
  ghost predicate IsProduct(z: int, x: int, y: int) {
    exists w {:trigger Key((z, x, y), w)} ::
      && Key((z, x, y), w) && Cong(z, w)
      && forall u {:trigger Lock((z, x, y), u)} :: Lock((z, x, y), u) ==> w == x * y
  }

  lemma ProductMeaning(z: int, x: int, y: int)
    ensures IsProduct(z, x, y) <==> Cong(z, x * y)
  {
    assert Lock((z, x, y), 0);
    if Cong(z, x * y) {
      assert Key((z, x, y), x * y);
    }
  }
}
