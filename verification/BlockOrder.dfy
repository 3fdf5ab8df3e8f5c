/**
 The order in which the transactions of a block and the virtual transactions they caused take effect,
 once as connecting walks them (connectTransactions) and once as MergeTxVtx lists them for undoing.
 */
module BlockOrder {
  import opened Ledger

  /** The first virtual transaction from v on that is not tagged below i. */
  function Skip(vtxs: seq<Tx>, v: nat, i: nat): (r: nat)
    requires v <= |vtxs|
    ensures v <= r <= |vtxs| && (r < |vtxs| ==> i <= vtxs[r].version)
    ensures forall k :: v <= k < r ==> vtxs[k].version < i
    decreases |vtxs| - v
  {
    if v < |vtxs| && vtxs[v].version < i then Skip(vtxs, v + 1, i) else v
  }

  /** Connecting: after transaction i at most one virtual transaction, the first one tagged i. */
  function ConnectOrder(txs: seq<Tx>, vtxs: seq<Tx>, i: nat, v: nat): seq<Tx>
    requires i <= |txs| && v <= |vtxs|
    decreases |txs| - i
  {
    if i == |txs| then []
    else
      var w := Skip(vtxs, v, i);
      if w < |vtxs| && vtxs[w].version == i then [txs[i], vtxs[w]] + ConnectOrder(txs, vtxs, i + 1, w + 1)
      else [txs[i]] + ConnectOrder(txs, vtxs, i + 1, w)
  }

  /** Merging: every virtual transaction, each after the transactions up to its tag. */
  function MergeOrder(txs: seq<Tx>, vtxs: seq<Tx>, j: nat, v: nat): seq<Tx>
    requires j <= |txs| && v <= |vtxs|
    decreases |txs| - j + |vtxs| - v
  {
    if v == |vtxs| then txs[j..]
    else if j < |txs| && j <= vtxs[v].version then [txs[j]] + MergeOrder(txs, vtxs, j + 1, v)
    else [vtxs[v]] + MergeOrder(txs, vtxs, j, v + 1)
  }

  /** Tags increase strictly and name transactions of the block. */
  predicate Tagged(vtxs: seq<Tx>, v: nat, i: nat, n: nat) {
    && (forall k :: v <= k < |vtxs| ==> i <= vtxs[k].version < n)
    && (forall j, k :: v <= j < k < |vtxs| ==> vtxs[j].version < vtxs[k].version)
  }

  lemma {:induction false} NoVirtual(txs: seq<Tx>, vtxs: seq<Tx>, i: nat)
    requires i <= |txs|
    ensures ConnectOrder(txs, vtxs, i, |vtxs|) == txs[i..]
    decreases |txs| - i
  {
    if i < |txs| {
      NoVirtual(txs, vtxs, i + 1);
      assert txs[i..] == [txs[i]] + txs[i + 1..];
    }
  }

  /** Every transaction of the block takes effect. */
  lemma {:induction false} TxsInOrder(txs: seq<Tx>, vtxs: seq<Tx>, i: nat, v: nat, k: nat)
    requires i <= k < |txs| && v <= |vtxs|
    ensures txs[k] in ConnectOrder(txs, vtxs, i, v)
    decreases |txs| - i
  {
    if i < k {
      var w := Skip(vtxs, v, i);
      TxsInOrder(txs, vtxs, i + 1, if w < |vtxs| && vtxs[w].version == i then w + 1 else w, k);
    }
  }

  lemma {:induction false} OrderMembers(txs: seq<Tx>, vtxs: seq<Tx>, i: nat, v: nat, t: Tx)
    requires i <= |txs| && v <= |vtxs| && t in ConnectOrder(txs, vtxs, i, v)
    ensures t in txs || t in vtxs
    decreases |txs| - i
  {
    if i < |txs| {
      var w := Skip(vtxs, v, i);
      if w < |vtxs| && vtxs[w].version == i {
        if t != txs[i] && t != vtxs[w] {
          OrderMembers(txs, vtxs, i + 1, w + 1, t);
        }
      } else if t != txs[i] {
        OrderMembers(txs, vtxs, i + 1, w, t);
      }
    }
  }

  /** Tagged virtual transactions are all connected. */
  lemma {:induction false} VirtualInOrder(txs: seq<Tx>, vtxs: seq<Tx>, i: nat, v: nat, k: nat)
    requires i <= |txs| && v <= k < |vtxs| && Tagged(vtxs, v, i, |txs|)
    ensures vtxs[k] in ConnectOrder(txs, vtxs, i, v)
    decreases |txs| - i
  {
    var w := Skip(vtxs, v, i);
    assert w == v;
    assert i < |txs| by { assert i <= vtxs[k].version < |txs|; }
    if vtxs[v].version == i {
      if k > v {
        VirtualInOrder(txs, vtxs, i + 1, v + 1, k);
      }
    } else {
      VirtualInOrder(txs, vtxs, i + 1, v, k);
    }
  }

  /** The coinbase is followed by nothing but its own virtual transaction. */
  lemma {:induction false} CoinbaseLast(txs: seq<Tx>, vtxs: seq<Tx>, i: nat, v: nat)
    returns (before: seq<Tx>, after: seq<Tx>)
    requires i < |txs| && v <= |vtxs|
    ensures ConnectOrder(txs, vtxs, i, v) == before + [txs[|txs| - 1]] + after
    ensures forall t :: t in after ==> t in vtxs
    decreases |txs| - i
  {
    var w := Skip(vtxs, v, i);
    var found := w < |vtxs| && vtxs[w].version == i;
    var first := if found then [txs[i], vtxs[w]] else [txs[i]];
    if i == |txs| - 1 {
      before, after := [], first[1..];
    } else {
      var rest, own := CoinbaseLast(txs, vtxs, i + 1, if found then w + 1 else w);
      before, after := first + rest, own;
      assert first + (rest + [txs[|txs| - 1]] + own) == before + [txs[|txs| - 1]] + after;
    }
  }

  lemma VirtualsIn(txs: seq<Tx>, vtxs: seq<Tx>)
    requires Tagged(vtxs, 0, 0, |txs|)
    ensures forall t :: t in vtxs ==> t in ConnectOrder(txs, vtxs, 0, 0)
  {
    hide Tagged, ConnectOrder;
    forall t | t in vtxs
      ensures t in ConnectOrder(txs, vtxs, 0, 0)
    {
      var k :| 0 <= k < |vtxs| && vtxs[k] == t;
      VirtualInOrder(txs, vtxs, 0, 0, k);
    }
  }

  /** With increasing tags, exactly the transactions and the virtual ones are connected. */
  lemma OrderHas(txs: seq<Tx>, vtxs: seq<Tx>, t: Tx)
    requires Tagged(vtxs, 0, 0, |txs|)
    ensures t in ConnectOrder(txs, vtxs, 0, 0) <==> t in txs || t in vtxs
  {
    VirtualsIn(txs, vtxs);
    hide Tagged, ConnectOrder;
    if t in txs {
      var k :| 0 <= k < |txs| && txs[k] == t;
      TxsInOrder(txs, vtxs, 0, 0, k);
    }
    if t in ConnectOrder(txs, vtxs, 0, 0) {
      OrderMembers(txs, vtxs, 0, 0, t);
    }
  }

  lemma {:induction false} TaggedAgrees(txs: seq<Tx>, vtxs: seq<Tx>, i: nat, v: nat)
    requires i <= |txs| && v <= |vtxs| && Tagged(vtxs, v, i, |txs|)
    ensures ConnectOrder(txs, vtxs, i, v) == MergeOrder(txs, vtxs, i, v)
    decreases |txs| - i
  {
    if v == |vtxs| {
      NoVirtual(txs, vtxs, i);
    } else {
      TaggedNext(vtxs, v, i, |txs|);
      hide Tagged;
      if vtxs[v].version == i {
        TaggedAgrees(txs, vtxs, i + 1, v + 1);
        assert MergeOrder(txs, vtxs, i + 1, v) == [vtxs[v]] + MergeOrder(txs, vtxs, i + 1, v + 1);
        assert [txs[i], vtxs[v]] == [txs[i]] + [vtxs[v]];
      } else {
        TaggedAgrees(txs, vtxs, i + 1, v);
      }
    }
  }

  lemma TaggedNext(vtxs: seq<Tx>, v: nat, i: nat, n: nat)
    requires v < |vtxs| && Tagged(vtxs, v, i, n)
    ensures i <= vtxs[v].version < n && Skip(vtxs, v, i) == v
    ensures Tagged(vtxs, if vtxs[v].version == i then v + 1 else v, i + 1, n)
  {
  }

  lemma {:induction false} MergeLength(txs: seq<Tx>, vtxs: seq<Tx>, j: nat, v: nat)
    requires j <= |txs| && v <= |vtxs|
    ensures |MergeOrder(txs, vtxs, j, v)| == |txs| - j + |vtxs| - v
    decreases |txs| - j + |vtxs| - v
  {
    if v < |vtxs| {
      if j < |txs| && j <= vtxs[v].version {
        MergeLength(txs, vtxs, j + 1, v);
      } else {
        MergeLength(txs, vtxs, j, v + 1);
      }
    }
  }

  lemma {:induction false} ConnectLength(txs: seq<Tx>, vtxs: seq<Tx>, i: nat, v: nat)
    requires i <= |txs| && v <= |vtxs|
    ensures |ConnectOrder(txs, vtxs, i, v)| <= |txs| - i + |vtxs| - v
    ensures |ConnectOrder(txs, vtxs, i, v)| == |txs| - i + |vtxs| - v ==> Tagged(vtxs, v, i, |txs|)
    decreases |txs| - i
  {
    if i < |txs| {
      var w := Skip(vtxs, v, i);
      ConnectLength(txs, vtxs, i + 1, if w < |vtxs| && vtxs[w].version == i then w + 1 else w);
    }
  }

  /**
   The two orders agree exactly when the tags increase strictly and stay inside the block. The example
   in MergeTxVtx's own comment, two virtual transactions for one transaction, is outside this condition.
   */
  lemma OrdersAgree(txs: seq<Tx>, vtxs: seq<Tx>)
    ensures ConnectOrder(txs, vtxs, 0, 0) == MergeOrder(txs, vtxs, 0, 0) <==> Tagged(vtxs, 0, 0, |txs|)
  {
    if Tagged(vtxs, 0, 0, |txs|) {
      TaggedAgrees(txs, vtxs, 0, 0);
    } else {
      MergeLength(txs, vtxs, 0, 0);
      ConnectLength(txs, vtxs, 0, 0);
    }
  }

  /** Two virtual transactions of one transaction: both are listed, the second is never connected. */
  lemma SecondVirtualLost(t: Tx, v: Tx, w: Tx)
    requires v.version == 0 && w.version == 0
    ensures MergeOrder([t], [v, w], 0, 0) == [t, v, w]
    ensures ConnectOrder([t], [v, w], 0, 0) == [t, v]
  {
    assert MergeOrder([t], [v, w], 1, 2) == [];
    assert MergeOrder([t], [v, w], 1, 1) == [w] + MergeOrder([t], [v, w], 1, 2);
    assert MergeOrder([t], [v, w], 1, 0) == [v] + MergeOrder([t], [v, w], 1, 1);
    assert ConnectOrder([t], [v, w], 1, 1) == [];
  }

  /** MergeTxVtx. */
  method MergeTxVtx(txs: seq<Tx>, vtxs: seq<Tx>) returns (all: seq<Tx>)
    ensures all == MergeOrder(txs, vtxs, 0, 0)
  {
    if vtxs == [] {
      assert txs[0..] == txs;
      return txs;
    }
    ghost var whole := MergeOrder(txs, vtxs, 0, 0);
    all := [];
    assert Leads(all, whole, whole);
    hide *;
    var j := 0;
    for v := 0 to |vtxs|
      invariant 0 <= j <= |txs| && Leads(all, MergeOrder(txs, vtxs, j, v), whole)
    {
      while j < |txs|
        invariant 0 <= j <= |txs| && Leads(all, MergeOrder(txs, vtxs, j, v), whole)
        invariant v < |vtxs|
      {
        MergeStep(txs, vtxs, j, v);
        if j <= vtxs[v].version {
          all := Push(all, txs[j], MergeOrder(txs, vtxs, j, v), MergeOrder(txs, vtxs, j + 1, v), whole);
          j := j + 1;
        } else {
          break;
        }
      }
      MergeStep(txs, vtxs, j, v);
      all := Push(all, vtxs[v], MergeOrder(txs, vtxs, j, v), MergeOrder(txs, vtxs, j, v + 1), whole);
    }
    MergeRest(txs, vtxs, j);
    while j < |txs|
      invariant 0 <= j <= |txs| && Leads(all, txs[j..], whole)
    {
      all := Push(all, txs[j], txs[j..], txs[j + 1..], whole);
      j := j + 1;
    }
    NothingLeft(all, txs[j..], whole);
  }

  /** What is listed so far, and what is still to come. */
  ghost predicate Leads(s: seq<Tx>, rest: seq<Tx>, whole: seq<Tx>) {
    s + rest == whole
  }

  lemma NothingLeft(s: seq<Tx>, rest: seq<Tx>, whole: seq<Tx>)
    requires Leads(s, rest, whole) && rest == []
    ensures s == whole
  {
  }

  lemma MergeStep(txs: seq<Tx>, vtxs: seq<Tx>, j: nat, v: nat)
    requires j <= |txs| && v < |vtxs|
    ensures MergeOrder(txs, vtxs, j, v) ==
            if j < |txs| && j <= vtxs[v].version then [txs[j]] + MergeOrder(txs, vtxs, j + 1, v)
            else [vtxs[v]] + MergeOrder(txs, vtxs, j, v + 1)
  {
  }

  lemma MergeRest(txs: seq<Tx>, vtxs: seq<Tx>, j: nat)
    requires j <= |txs|
    ensures MergeOrder(txs, vtxs, j, |vtxs|) == txs[j..]
  {
  }

  method Push(s: seq<Tx>, t: Tx, ghost rest: seq<Tx>, ghost rest': seq<Tx>, ghost whole: seq<Tx>)
    returns (r: seq<Tx>)
    requires rest == [t] + rest' && Leads(s, rest, whole)
    ensures r == s + [t] && Leads(r, rest', whole)
  {
    r := s + [t];
  }
}
