/**
 The curve points as an abelian group, and multiples of a point.  That the chord-and-tangent rule is
 closed, commutative and associative is a hypothesis (GroupLaw); the rest is derived.
 */
module Group {
  import opened Congruence
  import opened Power
  import opened Curve

  lemma SumExistsSomewhere(p: Point, q: Point)
    requires Fermat() && OnCurve(p) && OnCurve(q)
    ensures exists r :: IsSum(p, q, r)
  {
    var r := SumExists(p, q);
  }

  /** The chord-and-tangent sum. */
  ghost function Plus(p: Point, q: Point): Point {
    if Fermat() && OnCurve(p) && OnCurve(q) then
      SumExistsSomewhere(p, q);
      var r :| IsSum(p, q, r);
      r
    else
      Infinity
  }

  ghost predicate Law(p: Point, q: Point, r: Point) { true }

  /** The group axioms for the points of the curve. */
  ghost predicate GroupLaw() {
    && Fermat()
    && forall p, q, r {:trigger Law(p, q, r)} :: Law(p, q, r) && OnCurve(p) && OnCurve(q) && OnCurve(r) ==>
         && OnCurve(Plus(p, q))
         && Plus(p, q) == Plus(q, p)
         && Plus(Plus(p, q), r) == Plus(p, Plus(q, r))
  }

  lemma PlusIsSum(p: Point, q: Point)
    requires GroupLaw() && OnCurve(p) && OnCurve(q)
    ensures IsSum(p, q, Plus(p, q)) && OnCurve(Plus(p, q))
  {
    assert Law(p, q, q);
  }

  lemma Commute(p: Point, q: Point)
    requires GroupLaw() && OnCurve(p) && OnCurve(q)
    ensures Plus(p, q) == Plus(q, p) && OnCurve(Plus(p, q))
  {
    assert Law(p, q, q);
  }

  lemma Associate(p: Point, q: Point, r: Point)
    requires GroupLaw() && OnCurve(p) && OnCurve(q) && OnCurve(r)
    ensures Plus(Plus(p, q), r) == Plus(p, Plus(q, r))
    ensures OnCurve(Plus(p, q)) && OnCurve(Plus(q, r)) && OnCurve(Plus(p, Plus(q, r)))
  {
    assert Law(p, q, r);
    Commute(q, r);
    Commute(p, Plus(q, r));
  }

  lemma Neutral(p: Point)
    requires GroupLaw() && OnCurve(p)
    ensures Plus(Infinity, p) == p && Plus(p, Infinity) == p
  {
    PlusIsSum(Infinity, p);
    SumMeaning(Infinity, p, Plus(Infinity, p));
    Commute(p, Infinity);
  }

  /** The opposite point has the negated y (ScalarMult). */
  ghost function Opposed(p: Point): Point {
    match p
    case Infinity => Infinity
    case Affine(x, y) => Affine(x, if y == 0 then 0 else P - y)
  }

  lemma OpposedOnCurve(p: Point)
    requires OnCurve(p)
    ensures OnCurve(Opposed(p))
  {
    if p.Affine? && p.y != 0 {
      EquationMeaning(p.x, p.y);
      EquationMeaning(p.x, P - p.y);
      CongIntro((P - p.y) * (P - p.y), p.y * p.y, P - 2 * p.y);
      CongTrans((P - p.y) * (P - p.y), p.y * p.y, p.x * p.x * p.x + 7);
    }
  }

  lemma Inverse(p: Point)
    requires GroupLaw() && OnCurve(p)
    ensures Plus(p, Opposed(p)) == Infinity && OnCurve(Opposed(p))
  {
    OpposedOnCurve(p);
    PlusIsSum(p, Opposed(p));
    SumMeaning(p, Opposed(p), Plus(p, Opposed(p)));
  }

  /** k times p. */
  ghost function Times(k: int, p: Point): Point
    decreases if k < 0 then -k else k
  {
    if k == 0 then Infinity
    else if k > 0 then Plus(Times(k - 1, p), p)
    else Plus(Times(k + 1, p), Opposed(p))
  }

  lemma {:induction false} TimesOnCurve(k: int, p: Point)
    requires GroupLaw() && OnCurve(p)
    ensures OnCurve(Times(k, p))
    decreases if k < 0 then -k else k
  {
    if k > 0 {
      TimesOnCurve(k - 1, p);
      PlusIsSum(Times(k - 1, p), p);
    } else if k < 0 {
      TimesOnCurve(k + 1, p);
      OpposedOnCurve(p);
      PlusIsSum(Times(k + 1, p), Opposed(p));
    }
  }

  /** One step up, for every integer. */
  lemma TimesSucc(k: int, p: Point)
    requires GroupLaw() && OnCurve(p)
    ensures Times(k + 1, p) == Plus(Times(k, p), p)
  {
    if k < 0 {
      var t := Times(k + 1, p);
      TimesOnCurve(k + 1, p);
      Inverse(p);
      Commute(Opposed(p), p);
      Associate(t, Opposed(p), p);
      Neutral(t);
    }
  }

  lemma {:induction false} TimesAdd(j: int, k: int, p: Point)
    requires GroupLaw() && OnCurve(p)
    ensures Times(j + k, p) == Plus(Times(j, p), Times(k, p))
    decreases if k < 0 then -k else k
  {
    hide GroupLaw, Plus, OnCurve;
    var tj := Times(j, p);
    TimesOnCurve(j, p);
    if k == 0 {
      Neutral(tj);
    } else if k > 0 {
      TimesAdd(j, k - 1, p);
      TimesSucc(j + k - 1, p);
      TimesOnCurve(k - 1, p);
      Associate(tj, Times(k - 1, p), p);
    } else {
      TimesAdd(j, k + 1, p);
      TimesOnCurve(k + 1, p);
      TimesOnCurve(j + k, p);
      OpposedOnCurve(p);
      TimesPred(j + k + 1, p);
      Associate(tj, Times(k + 1, p), Opposed(p));
    }
  }

  /** One step down, for every integer. */
  lemma TimesPred(k: int, p: Point)
    requires GroupLaw() && OnCurve(p)
    ensures Times(k - 1, p) == Plus(Times(k, p), Opposed(p))
  {
    if k > 0 {
      var t := Times(k - 1, p);
      TimesOnCurve(k - 1, p);
      Inverse(p);
      Associate(t, p, Opposed(p));
      Neutral(t);
    }
  }

  lemma TimesOne(p: Point)
    requires GroupLaw() && OnCurve(p)
    ensures Times(1, p) == p
  {
    Neutral(p);
    assert Times(1, p) == Plus(Times(0, p), p);
  }

  lemma {:induction false} TimesMul(j: int, k: int, p: Point)
    requires GroupLaw() && OnCurve(p)
    ensures Times(j * k, p) == Times(j, Times(k, p))
    decreases if j < 0 then -j else j
  {
    hide GroupLaw, Plus, OnCurve;
    var q := Times(k, p);
    TimesOnCurve(k, p);
    if j > 0 {
      TimesMul(j - 1, k, p);
      TimesAdd((j - 1) * k, k, p);
      assert (j - 1) * k + k == j * k;
      TimesSucc(j - 1, q);
    } else if j < 0 {
      TimesMul(j + 1, k, p);
      TimesOpposed(k, p);
      TimesAdd((j + 1) * k, -k, p);
      assert (j + 1) * k + -k == j * k;
      TimesPred(j + 1, q);
    }
  }

  /** -k times p is the opposite of k times p. */
  lemma TimesOpposed(k: int, p: Point)
    requires GroupLaw() && OnCurve(p)
    ensures Times(-k, p) == Opposed(Times(k, p))
  {
    hide GroupLaw, Plus, OnCurve;
    var q := Times(k, p);
    var r := Times(-k, p);
    TimesOnCurve(k, p);
    TimesOnCurve(-k, p);
    TimesAdd(k, -k, p);
    assert Times(0, p) == Infinity;
    Inverse(q);
    Commute(Opposed(q), q);
    Associate(Opposed(q), q, r);
    Neutral(r);
    Neutral(Opposed(q));
  }

  /** k times the opposite is -k times the point. */
  lemma TimesOfOpposed(k: int, p: Point)
    requires GroupLaw() && OnCurve(p)
    ensures Times(k, Opposed(p)) == Times(-k, p)
  {
    hide GroupLaw, Plus, OnCurve;
    TimesOne(p);
    TimesOpposed(1, p);
    TimesMul(k, -1, p);
    assert k * -1 == -k;
  }

  /** Multiples depend on the multiplier only modulo the order. */
  lemma TimesModulo(j: int, k: int, n: int, q: int, p: Point)
    requires GroupLaw() && OnCurve(p) && Times(n, p) == Infinity && j == k + q * n
    ensures Times(j, p) == Times(k, p)
  {
    hide GroupLaw, Plus, OnCurve;
    TimesMul(q, n, p);
    TimesInfinity(q);
    TimesAdd(k, q * n, p);
    TimesOnCurve(k, p);
    Neutral(Times(k, p));
  }

  lemma {:induction false} TimesInfinity(k: int)
    requires GroupLaw()
    ensures Times(k, Infinity) == Infinity
    decreases if k < 0 then -k else k
  {
    OnCurveInfinity();
    Neutral(Infinity);
    if k > 0 {
      TimesInfinity(k - 1);
    } else if k < 0 {
      TimesInfinity(k + 1);
    }
  }

  lemma OnCurveInfinity()
    ensures OnCurve(Infinity)
  {
  }

  /** (a + b) + (c + d) = (a + c) + (b + d). */
  lemma Interchange(a: Point, b: Point, c: Point, d: Point)
    requires GroupLaw() && OnCurve(a) && OnCurve(b) && OnCurve(c) && OnCurve(d)
    ensures Plus(Plus(a, b), Plus(c, d)) == Plus(Plus(a, c), Plus(b, d))
  {
    hide GroupLaw, Plus, OnCurve;
    Commute(b, c);
    Commute(b, d);
    Commute(c, d);
    Associate(a, b, Plus(c, d));
    Associate(b, c, d);
    Associate(c, b, d);
    Associate(a, c, Plus(b, d));
  }
}
