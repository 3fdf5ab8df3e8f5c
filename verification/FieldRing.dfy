/** The limb operations seen as ring operations: which magnitude and which residue each result has. */
module FieldRing {
  import opened Congruence
  import opened Field
  import opened FieldElement

  /** a has magnitude k and stands for u. */
  ghost predicate Is(a: Limbs, k: nat, u: int) {
    Mag(a, k) && Cong(Val(a), u)
  }

  method Mul(a: Limbs, b: Limbs, ghost i: nat, ghost u: int, ghost j: nat, ghost v: int) returns (r: Limbs)
    requires Is(a, i, u) && Is(b, j, v) && i <= 8 && j <= 8
    ensures Is(r, 1, u * v)
  {
    MagMono(a, i, 8);
    MagMono(b, j, 8);
    r := MulLimbs(a, b);
    ProductMeaning(Val(r), Val(a), Val(b));
    CongMul(Val(a), u, Val(b), v);
    CongTrans(Val(r), Val(a) * Val(b), u * v);
  }

  method Sqr(a: Limbs, ghost i: nat, ghost u: int) returns (r: Limbs)
    requires Is(a, i, u) && i <= 8
    ensures Is(r, 1, u * u)
  {
    MagMono(a, i, 8);
    r := SquareLimbs(a);
    ProductMeaning(Val(r), Val(a), Val(a));
    CongMul(Val(a), u, Val(a), u);
    CongTrans(Val(r), Val(a) * Val(a), u * u);
  }

  method Add(a: Limbs, b: Limbs, ghost i: nat, ghost u: int, ghost j: nat, ghost v: int) returns (r: Limbs)
    requires Is(a, i, u) && Is(b, j, v) && i + j <= 63
    ensures Is(r, i + j, u + v)
  {
    r := AddLimbs(a, b, i, j);
    CongAdd(Val(a), u, Val(b), v);
  }

  /** MulInt, for the factors the curve routines use. */
  method Scale(a: Limbs, k: U32, ghost i: nat, ghost u: int) returns (r: Limbs)
    requires Is(a, i, u) && i <= 8 && k in {2, 3, 4, 8} && (k == 8 ==> i <= 7)
    ensures k == 2 ==> Is(r, 2 * i, 2 * u)
    ensures k == 3 ==> Is(r, 3 * i, 3 * u)
    ensures k == 4 ==> Is(r, 4 * i, 4 * u)
    ensures k == 8 ==> Is(r, 8 * i, 8 * u)
  {
    r := MulIntLimbs(a, k, i, k * i);
    ProductMeaning(Val(r), k, Val(a));
    CongScale(k, Val(a), u);
    CongTrans(Val(r), k * Val(a), k * u);
  }

  method Neg(a: Limbs, magnitude: U32, ghost u: int) returns (r: Limbs)
    requires magnitude <= 63 && Is(a, magnitude, u)
    ensures Is(r, magnitude + 1, -u)
  {
    r := NegateLimbs(a, magnitude);
    CongScale(-1, Val(a), u);
    CongIntro(Val(r), -1 * Val(a), magnitude + 1);
    CongTrans(Val(r), -1 * Val(a), -1 * u);
  }

  method Norm(a: Limbs, ghost i: nat, ghost u: int) returns (r: Limbs)
    requires Is(a, i, u) && i <= 63
    ensures Normalized(r) && Is(r, 1, u)
  {
    MagMono(a, i, 63);
    r := NormalizeLimbs(a);
    CongTrans(Val(r), Val(a), u);
  }

  /** Normalized elements are equal exactly when they stand for congruent numbers. */
  lemma NormEqual(a: Limbs, b: Limbs, u: int, v: int)
    requires Normalized(a) && Normalized(b) && Is(a, 1, u) && Is(b, 1, v)
    ensures a == b <==> Cong(u, v)
  {
    CongSym(Val(a), u);
    if a == b {
      CongTrans(u, Val(a), v);
    }
    if Cong(u, v) {
      CongSym(Val(b), v);
      CongTrans(Val(a), u, v);
      CongTrans(Val(a), v, Val(b));
      NormalizedUnique(a, b);
    }
  }

  lemma IsMono(a: Limbs, i: nat, j: nat, u: int)
    ensures Is(a, i, u) && i <= j ==> Is(a, j, u)
  {
    if Is(a, i, u) && i <= j {
      MagMono(a, i, j);
    }
  }
}
