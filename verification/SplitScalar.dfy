/** Splitting a scalar along the endomorphism (splitK and moduloReduce in crypto/s256crypto.go). */
module SplitScalar {
  import opened Common
  import opened FieldElement

  // Section 2.4.1 of SEC 2, and the endomorphism constants of initS256.
  const N: int := 0xFFFFFFFFFFFFFFFFFFFFFFFFFFFFFFFEBAAEDCE6AF48A03BBFD25E8CD0364141
  const LAMBDA: int := 0x5363AD4CC05C30E0A5261C028812645A122E22EA20816678DF02967C1B23BD72
  const A1: int := 0x3086D221A7D46BCDE86C90E49284EB15
  const B1: int := -0xE4437ED6010E88286F547FA90ABFE4C3
  const A2: int := 0x114CA50F7A8E2F3F657C1108D9D44CFD8
  const B2: int := 0x3086D221A7D46BCDE86C90E49284EB15

  /** splitK: k1 and k2, signs included (big.Int.Div rounds down, as N is positive). */
  function SplitK(k: int): (int, int) {
    var c1 := B2 * k / N;
    var c2 := B1 * k / N;
    (k - c1 * A1 + c2 * A2, c2 * B2 - c1 * B1)
  }

  /** k = k1 + k2 * lambda (mod N), and both halves are shorter than 129 bits, for every k. */
  lemma SplitKCorrect(k: int) returns (q: int)
    ensures var (k1, k2) := SplitK(k);
            k1 + k2 * LAMBDA == k + q * N && -A2 < k1 < A2 && -A2 < k2 < A2
    ensures A2 < 0x2_0000_0000_0000_0000_0000_0000_0000_0000
  {
    var c1 := B2 * k / N;
    var c2 := B1 * k / N;
    // The vectors (A1, B1) and (A2, B2) lie in the lattice of multiples of N.
    assert A1 + B1 * LAMBDA == (A1 + B1 * LAMBDA) / N * N;
    assert A2 + B2 * LAMBDA == (A2 + B2 * LAMBDA) / N * N;
    q := c2 * ((A2 + B2 * LAMBDA) / N) - c1 * ((A1 + B1 * LAMBDA) / N);
    // They span it: the remainders of the two divisions bound both halves.
    assert A1 * B2 - A2 * B1 == N;
    var r1, r2 := B2 * k - c1 * N, B1 * k - c2 * N;
    assert (k - c1 * A1 + c2 * A2) * N == A1 * r1 - A2 * r2;
    assert (c2 * B2 - c1 * B1) * N == B1 * r1 - B2 * r2;
  }

  /** big.Int.Bytes: the shortest big-endian form. */
  function ToBytes(n: nat): (b: seq<int>)
    ensures AreBytes(b) && BigEndian(b) == n
  {
    if n == 0 then [] else ToBytes(n / 256) + [n % 256]
  }

  lemma {:induction false} ToBytesLength(n: nat, m: nat)
    requires n < Weight(m)
    ensures |ToBytes(n)| <= m
  {
    if n > 0 {
      ToBytesLength(n / 256, m - 1);
    }
  }

  /** moduloReduce: scalars of more than 32 bytes are reduced modulo N. */
  function ModuloReduce(k: seq<int>): seq<int> {
    if |k| > 32 then ToBytes(BigEndian(k) % N) else k
  }

  lemma ModuloReduceCorrect(k: seq<int>) returns (q: int)
    requires AreBytes(k)
    ensures AreBytes(ModuloReduce(k)) && |ModuloReduce(k)| <= 32
    ensures BigEndian(ModuloReduce(k)) == BigEndian(k) + q * N
  {
    q := 0;
    if |k| > 32 {
      q := -(BigEndian(k) / N);
      WeightOf32();
      ToBytesLength(BigEndian(k) % N, 32);
    }
  }

  lemma WeightOf32()
    ensures Weight(32) == 0x1_0000000000000000000000000000000000000000000000000000000000000000
  {
    assert Weight(8) == 0x1_00000000_00000000;
    assert Weight(16) == 0x1_00000000_00000000_00000000_00000000;
    assert Weight(24) == 0x1_00000000_00000000_00000000_00000000_00000000_00000000;
  }
}
