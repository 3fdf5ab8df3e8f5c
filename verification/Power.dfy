/** Powers modulo the field prime, and Fermat's little theorem as a hypothesis. */
module Power {
  import opened Congruence

  ghost function Pow(x: int, e: nat): int {
    if e == 0 then 1 else x * Pow(x, e - 1)
  }

  /** z is x^e modulo P (guarded like the definitions of module Congruence). */
  ghost predicate IsPower(z: int, x: int, e: nat) {
    exists w {:trigger Key((z, x, e), w)} ::
      && Key((z, x, e), w) && Cong(z, w)
      && forall u {:trigger Lock((z, x, e), u)} :: Lock((z, x, e), u) ==> w == Pow(x, e)
  }

  lemma PowerMeaning(z: int, x: int, e: nat)
    ensures IsPower(z, x, e) <==> Cong(z, Pow(x, e))
  {
    assert Lock((z, x, e), 0);
    if Cong(z, Pow(x, e)) {
      assert Key((z, x, e), Pow(x, e));
    }
  }

  lemma {:induction false} PowAdd(x: int, d: nat, e: nat)
    ensures Pow(x, d + e) == Pow(x, d) * Pow(x, e)
  {
    if d == 0 {
    } else {
      PowAdd(x, d - 1, e);
      assert x * (Pow(x, d - 1) * Pow(x, e)) == x * Pow(x, d - 1) * Pow(x, e);
    }
  }

  /** Exponents add when powers are multiplied. */
  lemma PowerProduct(z: int, u: int, v: int, x: int, d: nat, e: nat)
    requires IsPower(u, x, d) && IsPower(v, x, e) && IsProduct(z, u, v)
    ensures IsPower(z, x, d + e)
  {
    PowerMeaning(u, x, d);
    PowerMeaning(v, x, e);
    ProductMeaning(z, u, v);
    CongMul(u, Pow(x, d), v, Pow(x, e));
    PowAdd(x, d, e);
    CongTrans(z, u * v, Pow(x, d + e));
    PowerMeaning(z, x, d + e);
  }

  lemma PowerZero(x: int)
    ensures IsPower(1, x, 0)
  {
    CongRefl(1);
    PowerMeaning(1, x, 0);
  }

  lemma PowerOne(x: int)
    ensures IsPower(x, x, 1)
  {
    assert Pow(x, 1) == x * Pow(x, 0);
    CongRefl(x);
    PowerMeaning(x, x, 1);
  }

  /** P is prime, in the form the code relies on (crypto/field.go, comment of Inverse). */
  ghost predicate Fermat() {
    forall x: int :: Cong(x, 0) || IsPower(1, x, P - 1)
  }

  /** x^(P-2) is the inverse of x. */
  lemma InverseExists(x: int, y: int)
    requires Fermat() && !Cong(x, 0) && IsPower(y, x, P - 2)
    ensures IsProduct(1, x, y)
  {
    PowerOne(x);
    var z := x * y;
    CongRefl(z);
    ProductMeaning(z, x, y);
    PowerProduct(z, x, y, x, 1, P - 2);
    PowerMeaning(z, x, P - 1);
    PowerMeaning(1, x, P - 1);
    CongSym(z, Pow(x, P - 1));
    CongTrans(1, Pow(x, P - 1), z);
    ProductMeaning(1, x, y);
  }

  /** Zero to the power P-2 is zero. */
  lemma ZeroPower(x: int, y: int)
    requires Cong(x, 0) && IsPower(y, x, P - 2)
    ensures Cong(y, 0)
  {
    PowerMeaning(y, x, P - 2);
    var w := Pow(x, P - 3);
    assert Pow(x, P - 2) == x * w;
    CongRefl(w);
    CongMul(x, 0, w, w);
    CongTrans(y, x * w, 0);
  }

  /** Congruent factors cancel: a field has no zero divisors. */
  lemma Cancel(k: int, x: int, y: int)
    requires Fermat() && !Cong(k, 0) && Cong(k * x, k * y)
    ensures Cong(x, y)
  {
    var i := Pow(k, P - 2);
    CongRefl(i);
    PowerMeaning(i, k, P - 2);
    InverseExists(k, i);
    ProductMeaning(1, k, i);
    CongSym(1, k * i);
    CongMul(k * x, k * y, i, i);
    Inverted(k, i, x);
    Inverted(k, i, y);
    CongSym(k * x * i, x);
    CongTrans(x, k * x * i, k * y * i);
    CongTrans(x, k * y * i, y);
  }

  lemma Inverted(k: int, i: int, x: int)
    requires Cong(k * i, 1)
    ensures Cong(k * x * i, x)
  {
    CongRefl(x);
    CongMul(k * i, 1, x, x);
    assert k * i * x == k * x * i;
  }
}
