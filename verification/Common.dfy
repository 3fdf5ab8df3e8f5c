/** What several modules share: options, coins and assets, sums, powers of two, bytes, and unique quotients. */
module Common {
  datatype Option<T> = None | Some(value: T)

  type Script = seq<int>

  datatype Asset = Asset(property: int, id: int)

  /** What is recorded of an output that can be spent. */
  datatype Coin = Coin(amount: int, script: Script, height: int, coinbase: bool, asset: Asset)

  predicate NoDup<T(==)>(s: seq<T>) {
    forall i, j :: 0 <= i < j < |s| ==> s[i] != s[j]
  }

  function Pow2(n: nat): (r: nat)
    ensures r > 0
  {
    if n == 0 then 1 else 2 * Pow2(n - 1)
  }

  lemma {:induction false} Pow2Add(m: nat, n: nat)
    ensures Pow2(m + n) == Pow2(m) * Pow2(n)
    decreases m
  {
    if m > 0 {
      Pow2Add(m - 1, n);
      assert 2 * (Pow2(m - 1) * Pow2(n)) == Pow2(m) * Pow2(n);
    }
  }

  /** Big-endian value of a byte string. */
  function BigEndian(b: seq<int>): int {
    if b == [] then 0 else 256 * BigEndian(b[..|b| - 1]) + b[|b| - 1]
  }

  /** 256^n. */
  ghost function Weight(n: nat): (r: int)
    ensures r > 0
  {
    if n == 0 then 1 else 256 * Weight(n - 1)
  }

  function Sum(s: seq<int>): int {
    if s == [] then 0 else Sum(s[..|s| - 1]) + s[|s| - 1]
  }

  lemma SumGrow(s: seq<int>, x: int)
    ensures Sum(s + [x]) == Sum(s) + x
  {
    assert (s + [x])[..|s|] == s;
  }

  function Min(a: int, b: int): int { if a < b then a else b }

  lemma DivUnique(a: int, n: int, q: int, r: int)
    requires 0 <= r < n && a == n * q + r
    ensures a / n == q && a % n == r
  {
    NoMultiple(n, a / n - q, r - a % n);
  }

  /** Dividing twice is dividing by the product. */
  lemma DivTwice(n: nat, a: nat, b: nat)
    requires a > 0 && b > 0
    ensures a * b > 0 && n / a / b == n / (a * b)
  {
    var q, r := n / a, n % a;
    Distribute(a, b, q / b, q % b);
    DivUnique(n, a * b, q / b, a * (q % b) + r);
  }

  lemma Distribute(a: nat, b: nat, s: nat, t: nat)
    requires t < b
    ensures a * (b * s + t) == a * b * s + a * t && 0 <= a * t <= a * b - a
  {
    assert a * t <= a * (b - 1);
  }

  /** Only zero is a multiple of n and smaller than n. */
  lemma NoMultiple(n: int, d: int, e: int)
    requires n * d == e && -n < e < n
    ensures d == 0 && e == 0
  {
    assert d < 1 by { assert d >= 1 ==> n * d >= n; }
    assert d > -1 by { assert d <= -1 ==> n * d <= -n; }
  }
}
