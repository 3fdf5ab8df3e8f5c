/**
 The Merkle tree of a block (blockchain/merkle.go), stored level after level in one array. The hash of
 two branches is any function of the two.
 */
module Merkle {
  import opened Common

  type Hash = int

  // ------------------------------------------------------------------ nextPowerOfTwo

  /** Bitwise and. */
  function And(a: nat, b: nat): nat {
    if a == 0 || b == 0 then 0 else 2 * And(a / 2, b / 2) + if a % 2 == 1 && b % 2 == 1 then 1 else 0
  }

  ghost predicate PowerOfTwo(n: nat) {
    n == 1 || (n > 1 && n % 2 == 0 && PowerOfTwo(n / 2))
  }

  lemma {:induction false} AndSelf(n: nat)
    ensures And(n, n) == n
  {
    if n > 0 {
      AndSelf(n / 2);
    }
  }

  /** The test n & (n - 1) == 0 recognises the powers of two, and zero. */
  lemma {:induction false} LowBitTest(n: nat)
    requires n > 0
    ensures And(n, n - 1) == 0 <==> PowerOfTwo(n)
  {
    if n > 1 {
      if n % 2 == 0 {
        LowBitTest(n / 2);
        assert (n - 1) / 2 == n / 2 - 1 && (n - 1) % 2 == 1;
      } else {
        assert (n - 1) / 2 == n / 2 && (n - 1) % 2 == 0;
        AndSelf(n / 2);
      }
    }
  }

  function FloorLog2(n: nat): nat
    requires n > 0
  {
    if n == 1 then 0 else 1 + FloorLog2(n / 2)
  }

  lemma {:induction false} Pow2Power(e: nat)
    ensures PowerOfTwo(Pow2(e))
  {
    if e > 0 {
      Pow2Power(e - 1);
    }
  }

  lemma {:induction false} LogBounds(n: nat)
    requires n > 0
    ensures Pow2(FloorLog2(n)) <= n < 2 * Pow2(FloorLog2(n))
  {
    if n > 1 {
      LogBounds(n / 2);
    }
  }

  /** nextPowerOfTwo: the least power of two that is not below n. */
  method NextPowerOfTwo(n: nat) returns (r: nat)
    requires n > 0
    ensures PowerOfTwo(r) && n <= r < 2 * n
  {
    LowBitTest(n);
    if And(n, n - 1) == 0 {
      return n;
    }
    var exponent := FloorLog2(n) + 1;
    LogBounds(n);
    Pow2Power(FloorLog2(n));
    Pow2Power(exponent);
    r := Pow2(exponent);
  }

  // ------------------------------------------------------------------ the recursive definition

  /** The level above: an odd last node is paired with itself. */
  function Up(h: (Hash, Hash) -> Hash, level: seq<Hash>): (r: seq<Hash>)
    ensures |r| == (|level| + 1) / 2
  {
    seq((|level| + 1) / 2, i requires 0 <= i < (|level| + 1) / 2 =>
      h(level[2 * i], if 2 * i + 1 < |level| then level[2 * i + 1] else level[2 * i]))
  }

  function Root(h: (Hash, Hash) -> Hash, level: seq<Hash>): Hash
    requires level != []
    decreases |level|
  {
    if |level| == 1 then level[0] else Root(h, Up(h, level))
  }

  /** Trees of one to five leaves. */
  lemma SmallTrees(h: (Hash, Hash) -> Hash, a: Hash, b: Hash, c: Hash, d: Hash, e: Hash)
    ensures Root(h, [a]) == a && Root(h, [a, b]) == h(a, b) && Root(h, [a, b, c]) == h(h(a, b), h(c, c))
    ensures Root(h, [a, b, c, d]) == h(h(a, b), h(c, d))
    ensures Root(h, [a, b, c, d, e]) == h(h(h(a, b), h(c, d)), h(h(e, e), h(e, e)))
  {
    assert Root(h, [a]) == a;
    hide *;
    PairRoot(h, a, b);
    ThreeRoot(h, a, b, c);
    FourRoot(h, a, b, c, d);
    OneUp(h, [a, b, c, d, e], [h(a, b), h(c, d), h(e, e)]);
    ThreeRoot(h, h(a, b), h(c, d), h(e, e));
  }

  lemma ThreeRoot(h: (Hash, Hash) -> Hash, a: Hash, b: Hash, c: Hash)
    ensures Root(h, [a, b, c]) == h(h(a, b), h(c, c))
  {
    hide *;
    OneUp(h, [a, b, c], [h(a, b), h(c, c)]);
    PairRoot(h, h(a, b), h(c, c));
  }

  lemma FourRoot(h: (Hash, Hash) -> Hash, a: Hash, b: Hash, c: Hash, d: Hash)
    ensures Root(h, [a, b, c, d]) == h(h(a, b), h(c, d))
  {
    hide *;
    OneUp(h, [a, b, c, d], [h(a, b), h(c, d)]);
    PairRoot(h, h(a, b), h(c, d));
  }

  lemma OneUp(h: (Hash, Hash) -> Hash, level: seq<Hash>, up: seq<Hash>)
    requires |level| > 1 && |up| == (|level| + 1) / 2
    requires forall i :: 0 <= i < |up| ==>
      up[i] == h(level[2 * i], if 2 * i + 1 < |level| then level[2 * i + 1] else level[2 * i])
    ensures Root(h, level) == Root(h, up)
  {
    assert Up(h, level) == up;
  }

  lemma PairRoot(h: (Hash, Hash) -> Hash, a: Hash, b: Hash)
    ensures Root(h, [a, b]) == h(a, b)
  {
    assert Up(h, [a, b]) == [h(a, b)];
  }

  // ------------------------------------------------------------------ the array

  /** Slot j of the array over size leaves. */
  function Slot(h: (Hash, Hash) -> Hash, txs: seq<Hash>, size: nat, j: nat): Option<Hash>
    requires j < 2 * size - 1
    decreases j
  {
    if j < size then (if j < |txs| then Some(txs[j]) else None)
    else Parent(h, Slot(h, txs, size, 2 * (j - size)), Slot(h, txs, size, 2 * (j - size) + 1))
  }

  function Parent(h: (Hash, Hash) -> Hash, left: Option<Hash>, right: Option<Hash>): Option<Hash> {
    match left
    case None => None
    case Some(l) => Some(h(l, if right.Some? then right.value else l))
  }

  /** Slot i of the level that is w slots wide; it starts at 2 * size - 2 * w. */
  function LevelSlot(h: (Hash, Hash) -> Hash, txs: seq<Hash>, size: nat, w: nat, i: nat): Option<Hash>
    requires 0 < w <= size && i < w
  {
    Slot(h, txs, size, 2 * size - 2 * w + i)
  }

  function At(level: seq<Hash>, i: nat): Option<Hash> { if i < |level| then Some(level[i]) else None }

  /** The array holds level in the w slots of its level. */
  ghost predicate Holds(h: (Hash, Hash) -> Hash, txs: seq<Hash>, size: nat, level: seq<Hash>, w: nat) {
    && 0 < w <= size
    && forall i: nat :: i < w ==> LevelSlot(h, txs, size, w, i) == At(level, i)
  }

  lemma Children(h: (Hash, Hash) -> Hash, txs: seq<Hash>, size: nat, w: nat, i: nat)
    requires 0 < w <= size && 2 * i + 1 < w && w % 2 == 0
    ensures LevelSlot(h, txs, size, w / 2, i) ==
            Parent(h, LevelSlot(h, txs, size, w, 2 * i), LevelSlot(h, txs, size, w, 2 * i + 1))
  {
    var j := 2 * size - w + i;
    assert 2 * (j - size) == 2 * size - 2 * w + 2 * i;
  }

  lemma UpAt(h: (Hash, Hash) -> Hash, level: seq<Hash>, i: nat)
    ensures At(Up(h, level), i) == Parent(h, At(level, 2 * i), At(level, 2 * i + 1))
  {
  }

  lemma NextLevel(h: (Hash, Hash) -> Hash, txs: seq<Hash>, size: nat, level: seq<Hash>, w: nat)
    requires Holds(h, txs, size, level, w) && w > 1 && w % 2 == 0
    ensures Holds(h, txs, size, Up(h, level), w / 2)
  {
    hide LevelSlot, At, Up, Parent;
    forall i: nat | i < w / 2
      ensures LevelSlot(h, txs, size, w / 2, i) == At(Up(h, level), i)
    {
      Children(h, txs, size, w, i);
      UpAt(h, level, i);
    }
  }

  lemma {:induction false} LastSlot(h: (Hash, Hash) -> Hash, txs: seq<Hash>, size: nat, level: seq<Hash>, w: nat)
    requires Holds(h, txs, size, level, w) && PowerOfTwo(w) && w < 2 * |level| && |level| <= w
    ensures Slot(h, txs, size, 2 * size - 2) == Some(Root(h, level))
    decreases w
  {
    if w == 1 {
      assert LevelSlot(h, txs, size, w, 0) == At(level, 0);
    } else {
      NextLevel(h, txs, size, level, w);
      LastSlot(h, txs, size, Up(h, level), w / 2);
    }
  }

  /** The first leaf under a slot. */
  function FirstLeaf(size: nat, j: nat): nat
    requires j < 2 * size - 1
    decreases j
  {
    if j < size then j else FirstLeaf(size, 2 * (j - size))
  }

  /** A slot is nil exactly when no transaction stands under it. */
  lemma {:induction false} NilSlots(h: (Hash, Hash) -> Hash, txs: seq<Hash>, size: nat, j: nat)
    requires j < 2 * size - 1
    ensures Slot(h, txs, size, j).None? <==> |txs| <= FirstLeaf(size, j)
    decreases j
  {
    if j >= size {
      NilSlots(h, txs, size, 2 * (j - size));
    }
  }

  /** BuildMerkleTreeStore: the last slot is the Merkle root, and empty subtrees are nil. */
  method BuildMerkleTreeStore(h: (Hash, Hash) -> Hash, txs: seq<Hash>) returns (merkles: array<Option<Hash>>)
    requires txs != []
    ensures fresh(merkles) && merkles.Length % 2 == 1 && merkles[merkles.Length - 1] == Some(Root(h, txs))
    ensures var size := (merkles.Length + 1) / 2;
            && PowerOfTwo(size) && |txs| <= size < 2 * |txs|
            && forall j :: 0 <= j < merkles.Length ==>
                 merkles[j] == Slot(h, txs, size, j) && (merkles[j].None? <==> |txs| <= FirstLeaf(size, j))
  {
    hide *;
    var size := NextPowerOfTwo(|txs|);
    var arraySize := size * 2 - 1;
    merkles := new Option<Hash>[arraySize];
    FillLeaves(merkles, txs);
    Leaves(h, txs, size, merkles[..]);
    var offset := size;
    var i := 0;
    while i < arraySize - 1
      invariant 0 <= i <= arraySize - 1 && i % 2 == 0 && offset == size + i / 2
      invariant Filled(h, txs, size, merkles[..], offset)
    {
      FilledNext(h, txs, size, merkles[..], offset, i);
      StoreParent(h, merkles, i, offset);
      offset := offset + 1;
      i := i + 2;
    }
    Finished(h, txs, size, merkles[..]);
  }

  method FillLeaves(merkles: array<Option<Hash>>, txs: seq<Hash>)
    requires |txs| <= merkles.Length
    modifies merkles
    ensures forall j :: 0 <= j < merkles.Length ==> merkles[j] == if j < |txs| then Some(txs[j]) else None
  {
    forall j | 0 <= j < merkles.Length {
      merkles[j] := None;
    }
    for i := 0 to |txs|
      invariant forall j :: 0 <= j < merkles.Length ==> merkles[j] == if j < i then Some(txs[j]) else None
    {
      merkles[i] := Some(txs[i]);
    }
  }

  /** One step of the loop: the parent of slots i and i + 1. */
  method StoreParent(h: (Hash, Hash) -> Hash, merkles: array<Option<Hash>>, i: nat, offset: nat)
    requires i + 1 < offset < merkles.Length
    modifies merkles
    ensures merkles[..] == old(merkles[..])[offset := Parent(h, old(merkles[i]), old(merkles[i + 1]))]
  {
    if merkles[i].None? {
      merkles[offset] := None;
    } else if merkles[i + 1].None? {
      merkles[offset] := Some(h(merkles[i].value, merkles[i].value));
    } else {
      merkles[offset] := Some(h(merkles[i].value, merkles[i + 1].value));
    }
  }

  /** The first n slots are in place. */
  ghost predicate Filled(h: (Hash, Hash) -> Hash, txs: seq<Hash>, size: nat, m: seq<Option<Hash>>, n: int) {
    |m| == 2 * size - 1 && forall j :: 0 <= j < n && j < |m| ==> m[j] == Slot(h, txs, size, j)
  }

  lemma Leaves(h: (Hash, Hash) -> Hash, txs: seq<Hash>, size: nat, m: seq<Option<Hash>>)
    requires |m| == 2 * size - 1 && |txs| <= size
    requires forall j :: 0 <= j < |m| ==> m[j] == if j < |txs| then Some(txs[j]) else None
    ensures Filled(h, txs, size, m, size)
  {
  }

  lemma FilledNext(h: (Hash, Hash) -> Hash, txs: seq<Hash>, size: nat, m: seq<Option<Hash>>, offset: nat, i: nat)
    requires Filled(h, txs, size, m, offset) && i % 2 == 0 && offset == size + i / 2 && i < 2 * size - 2
    ensures offset < |m| && i + 1 < offset
    ensures Filled(h, txs, size, m[offset := Parent(h, m[i], m[i + 1])], offset + 1)
  {
    assert 2 * (offset - size) == i;
    assert m[i] == Slot(h, txs, size, i) && m[i + 1] == Slot(h, txs, size, i + 1);
  }

  lemma Finished(h: (Hash, Hash) -> Hash, txs: seq<Hash>, size: nat, m: seq<Option<Hash>>)
    requires Filled(h, txs, size, m, |m|) && PowerOfTwo(size) && 0 < |txs| <= size < 2 * |txs|
    ensures |m| > 0 && m[|m| - 1] == Some(Root(h, txs))
    ensures forall j :: 0 <= j < |m| ==> m[j] == Slot(h, txs, size, j) && (m[j].None? <==> |txs| <= FirstLeaf(size, j))
  {
    forall i: nat | i < size
      ensures LevelSlot(h, txs, size, size, i) == At(txs, i)
    {
    }
    LastSlot(h, txs, size, txs, size);
    forall j | 0 <= j < |m|
      ensures m[j].None? <==> |txs| <= FirstLeaf(size, j)
    {
      NilSlots(h, txs, size, j);
    }
  }
}
