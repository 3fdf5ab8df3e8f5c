/**
 EndomorphismVectors (crypto/gensecp256k1.go): the extended Euclidean algorithm that finds a short
 basis of the lattice of pairs (a, b) with a + b * lambda divisible by the group order.
 */
module Lattice {

  /** (a, b) is a lattice vector: a + b * lambda is the multiple m of n. */
  ghost predicate InLattice(a: int, b: int, n: int, lambda: int, m: int) {
    a + b * lambda == m * n
  }

  /** One equation of the algorithm: s * n + t * lambda == r. */
  datatype Row = Row(r: int, s: int, t: int)

  ghost predicate Equation(p: Row, n: int, lambda: int) {
    0 <= p.r && p.r == p.s * n + p.t * lambda
  }

  ghost function Det(p: Row, c: Row): int { p.r * c.t - c.r * p.t }

  /** Consecutive rows: the determinant is the order up to its sign, and the signs of t alternate. */
  ghost predicate Rows(p: Row, c: Row, n: int, lambda: int) {
    && Equation(p, n, lambda) && Equation(c, n, lambda)
    && (Det(p, c) == n || Det(p, c) == -n)
    && (p.t <= 0 <= c.t || c.t <= 0 <= p.t)
  }

  function Next(p: Row, c: Row): Row
    requires c.r != 0
  {
    var q := p.r / c.r;
    Row(p.r - q * c.r, p.s - q * c.s, p.t - q * c.t)
  }

  lemma NextRow(p: Row, c: Row, n: int, lambda: int)
    requires Rows(p, c, n, lambda) && c.r > 0
    ensures Rows(c, Next(p, c), n, lambda) && Next(p, c).r < c.r
  {
    var q := p.r / c.r;
    assert 0 <= q && p.r - q * c.r == p.r % c.r;
    Combine(p, c, n, lambda, q);
    Determinant(p, c, q);
    Alternate(c.t, q);
  }

  lemma Combine(p: Row, c: Row, n: int, lambda: int, q: int)
    requires Equation(p, n, lambda) && Equation(c, n, lambda)
    ensures p.r - q * c.r == (p.s - q * c.s) * n + (p.t - q * c.t) * lambda
  {
    Subtract(p.s, c.s, n, q);
    Subtract(p.t, c.t, lambda, q);
    Distribute(q, c.s * n, c.t * lambda);
  }

  lemma Determinant(p: Row, c: Row, q: int)
    ensures Det(c, Row(p.r - q * c.r, p.s - q * c.s, p.t - q * c.t)) == -Det(p, c)
  {
    Subtract(p.t, c.t, c.r, q);
    Subtract(p.r, c.r, c.t, q);
  }

  lemma Subtract(x: int, y: int, n: int, q: int)
    ensures (x - q * y) * n == x * n - q * (y * n)
  {
  }

  lemma Distribute(q: int, x: int, y: int)
    ensures q * (x + y) == q * x + q * y
  {
  }

  lemma Alternate(y: int, q: int)
    requires 0 <= q
    ensures y >= 0 ==> q * y >= 0
    ensures y <= 0 ==> q * y <= 0
  {
  }

  /** A row that follows one whose remainder is at least root has a coefficient of at most n / root. */
  lemma ShortCoefficient(p: Row, c: Row, n: int, lambda: int, root: int)
    requires Rows(p, c, n, lambda) && 0 < n && 0 <= root <= p.r
    ensures -n <= root * c.t <= n
  {
    Alternate(c.t, root);
    Alternate(c.t, p.r - root);
    Alternate(p.t, c.r);
    Distribute(c.t, root, p.r - root);
  }

  /** The vector (r, -t) of a row. */
  lemma RowInLattice(p: Row, n: int, lambda: int)
    requires Equation(p, n, lambda)
    ensures InLattice(p.r, -p.t, n, lambda, p.s)
  {
    assert -p.t * lambda == -(p.t * lambda);
  }

  lemma FirstRows(n: int, lambda: int)
    requires 0 < lambda < n
    ensures Rows(Row(lambda, 0, 1), Row(n, 1, 0), n, lambda)
    ensures Next(Row(lambda, 0, 1), Row(n, 1, 0)) == Row(lambda, 0, 1)
  {
  }

  /** The vectors have the order, up to its sign, as their determinant. */
  ghost predicate Span(a1: int, b1: int, a2: int, b2: int, n: int) {
    a1 * b2 - a2 * b1 == n || a1 * b2 - a2 * b1 == -n
  }

  ghost predicate Short(b: int, n: int, root: int) { -n <= root * b <= n }

  lemma RowFacts(p: Row, c: Row, n: int, lambda: int, root: int)
    requires Rows(p, c, n, lambda) && 0 < n
    ensures 0 <= p.r && 0 <= c.r && InLattice(p.r, -p.t, n, lambda, p.s) && InLattice(c.r, -c.t, n, lambda, c.s)
    ensures Span(c.r, -c.t, p.r, -p.t, n) && Span(p.r, -p.t, c.r, -c.t, n)
    ensures 0 <= root <= p.r ==> Short(-c.t, n, root)
  {
    RowInLattice(p, n, lambda);
    RowInLattice(c, n, lambda);
    assert c.r * -p.t == -(c.r * p.t) && p.r * -c.t == -(p.r * c.t);
    if 0 <= root <= p.r {
      ShortCoefficient(p, c, n, lambda, root);
      assert root * -c.t == -(root * c.t);
    }
  }

  /** The vector is the one of the two rows that is not longer. */
  ghost predicate Shorter(a: int, b: int, x: Row, y: Row) {
    if x.r * x.r + x.t * x.t <= y.r * y.r + y.t * y.t then a == x.r && b == -x.t else a == y.r && b == -y.t
  }

  /**
   EndomorphismVectors. Both vectors are in the lattice, the first is short, and unless the remainder
   that stopped the search is zero the two span the lattice: their determinant is the order itself.
   The second is the shorter of the vectors on either side of the first.
   */
  method EndomorphismVectors(n: int, lambda: int, nSqrt: int)
    returns (a1: int, b1: int, a2: int, b2: int, ghost m1: int, ghost m2: int, ghost before: Row)
    requires 0 < nSqrt <= lambda < n
    ensures InLattice(a1, b1, n, lambda, m1) && InLattice(a2, b2, n, lambda, m2)
    ensures 0 <= a1 < nSqrt && Short(b1, n, nSqrt)
    ensures a1 == 0 || Span(a1, b1, a2, b2, n)
    ensures a1 == 0 || (Rows(before, Row(a1, m1, -b1), n, lambda) && nSqrt <= before.r)
    ensures a1 == 0 || Shorter(a2, b2, before, Next(before, Row(a1, m1, -b1)))
  {
    var c, p := Row(n, 1, 0), Row(lambda, 0, 1);
    FirstRows(n, lambda);
    var i := Row(0, 0, 0);
    var found, oneMore := false, false;
    a1, b1, a2, b2 := 0, 0, 0, 0;
    m1, m2 := 0, 0;
    before := i;
    assert InLattice(a2, b2, n, lambda, m2);
    hide Rows, Next, InLattice, Det, Short, Span, Shorter;
    while c.r != 0
      invariant c.r >= 0 && Rows(p, c, n, lambda) && oneMore == found
      invariant !found ==> nSqrt <= c.r && (i == c || Next(p, c) == Row(lambda, 0, 1))
      invariant found ==> i == p == before && nSqrt <= p.r && a1 == c.r < nSqrt && b1 == -c.t && m1 == c.s
      invariant found ==> Short(b1, n, nSqrt) && InLattice(a1, b1, n, lambda, m1) && Span(a1, b1, i.r, -i.t, n)
      invariant found ==> InLattice(i.r, -i.t, n, lambda, i.s)
      invariant a2 == 0 && b2 == 0 && InLattice(a2, b2, n, lambda, m2)
      decreases c.r
    {
      NextRow(p, c, n, lambda);
      p, c := c, Next(p, c);
      RowFacts(p, c, n, lambda, nSqrt);
      if !found && c.r < nSqrt {
        before := p;
        a1, b1, m1 := c.r, c.t * -1, c.s;
        found, oneMore := true, true;
        continue;
      } else if oneMore {
        a2, b2, m2 := Pick(i, c, n, lambda);
        break;
      }
      i := c;
    }
  }

  method Pick(x: Row, y: Row, ghost n: int, ghost lambda: int) returns (a: int, b: int, ghost m: int)
    requires InLattice(x.r, -x.t, n, lambda, x.s) && InLattice(y.r, -y.t, n, lambda, y.s)
    ensures Shorter(a, b, x, y) && InLattice(a, b, n, lambda, m)
    ensures (a, b) == (x.r, -x.t) || (a, b) == (y.r, -y.t)
  {
    hide InLattice;
    if x.r * x.r + x.t * x.t <= y.r * y.r + y.t * y.t {
      a, b, m := x.r, x.t * -1, x.s;
    } else {
      a, b, m := y.r, y.t * -1, y.s;
    }
  }
}
