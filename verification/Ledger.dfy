/**
 The ledger of unspent outputs as a value: what one transaction, a block with its virtual transactions
 and the undoing of a block mean (blockchain/utxoviewpoint.go, asiutil/tx.go).
 */
module Ledger {
  import opened Common

  const MAX_UINT32: int := 0xffff_ffff
  const TRANSFER_CREATION_IDX: int := MAX_UINT32 - 1
  const TRANSFER_MINT_IDX: int := MAX_UINT32 - 2

  type Hash = int

  datatype OutPoint = OutPoint(hash: Hash, index: int)

  /** An output; unspendable is the verdict of the script engine on its script. */
  datatype Output = Output(value: int, script: Script, asset: Asset, unspendable: bool)

  /**
   A transaction. For a virtual transaction, version is the position of the transaction that caused it.
   owner is the contract that takes over output 0 when its script creates a contract.
   */
  datatype Tx = Tx(hash: Hash, ins: seq<OutPoint>, outs: seq<Output>, version: nat, owner: Option<Script>)

  type Coins = map<OutPoint, Coin>

  predicate IsMintOrCreateInput(o: OutPoint) {
    (o.index == MAX_UINT32 || o.index == TRANSFER_CREATION_IDX || o.index == TRANSFER_MINT_IDX) && o.hash == 0
  }

  predicate IsCoinBase(t: Tx) {
    |t.ins| == 1 && t.ins[0] == OutPoint(0, MAX_UINT32)
  }

  // ------------------------------------------------------------------ one transaction

  /** The outputs that enter the ledger. */
  predicate Kept(t: Tx, o: OutPoint) {
    o.hash == t.hash && 0 <= o.index < |t.outs| && !t.outs[o.index].unspendable && t.outs[o.index].value > 0
  }

  function OutPoints(t: Tx): (r: set<OutPoint>)
  {
    set i | 0 <= i < |t.outs| :: OutPoint(t.hash, i)
  }

  function ScriptOf(t: Tx, i: int): Script
    requires 0 <= i < |t.outs|
  {
    if i == 0 && t.owner.Some? && !t.outs[0].unspendable then t.owner.value else t.outs[i].script
  }

  function CoinOf(t: Tx, i: int, coinbase: bool, height: int): Coin
    requires 0 <= i < |t.outs|
  {
    Coin(t.outs[i].value, if coinbase then t.outs[i].script else ScriptOf(t, i), height, coinbase, t.outs[i].asset)
  }

  function Created(t: Tx, coinbase: bool, height: int): (r: Coins)
  {
    map o | o in OutPoints(t) && Kept(t, o) :: CoinOf(t, o.index, coinbase, height)
  }

  /** The outputs a transaction spends, in the order of its inputs. */
  function Spends(ins: seq<OutPoint>): (r: seq<OutPoint>)
    ensures |r| <= |ins|
    ensures forall o :: o in r <==> o in ins && !IsMintOrCreateInput(o)
  {
    if ins == [] then []
    else
      var rest := Spends(ins[..|ins| - 1]);
      var last := ins[|ins| - 1];
      if IsMintOrCreateInput(last) then rest else rest + [last]
  }

  function Remove(l: Coins, s: set<OutPoint>): (r: Coins)
  {
    map o | o in l && o !in s :: l[o]
  }

  function ToSet(s: seq<OutPoint>): (r: set<OutPoint>)
  {
    set o | o in s
  }

  /** A block's transactions in the order they take effect; cb is its coinbase. */
  function Apply(l: Coins, t: Tx, cb: Tx, height: int): Coins {
    Remove(l, ToSet(Spends(t.ins))) + Created(t, t == cb, height)
  }

  function CoinsAt(l: Coins, s: seq<OutPoint>): (r: seq<Coin>)
    requires forall o :: o in s ==> o in l
    ensures |r| == |s| && forall i :: 0 <= i < |s| ==> r[i] == l[s[i]]
  {
    seq(|s|, i requires 0 <= i < |s| => l[s[i]])
  }

  /** Unspends outputs from their journal records, last first. */
  function Restore(l: Coins, s: seq<OutPoint>, coins: seq<Coin>): Coins
    requires |s| == |coins|
    decreases |s|
  {
    if s == [] then l
    else Restore(l[s[|s| - 1] := coins[|s| - 1]], s[..|s| - 1], coins[..|s| - 1])
  }

  /** What undoing a transaction does: its outputs go, the outputs it spent return. */
  function Undo(l: Coins, t: Tx, coins: seq<Coin>): Coins
    requires |coins| == |Spends(t.ins)|
  {
    Restore(Remove(l, set o | o in OutPoints(t) && !t.outs[o.index].unspendable), Spends(t.ins), coins)
  }

  // ------------------------------------------------------------------ a block

  function ApplyAll(l: Coins, ts: seq<Tx>, cb: Tx, height: int): Coins {
    if ts == [] then l
    else Apply(ApplyAll(l, ts[..|ts| - 1], cb, height), ts[|ts| - 1], cb, height)
  }

  /** Every transaction spends different outputs, all of them unspent when it takes effect. */
  predicate Unspent(l: Coins, ts: seq<Tx>, cb: Tx, height: int) {
    ts == [] ||
    (var init := ts[..|ts| - 1];
     Unspent(l, init, cb, height) && Payable(ApplyAll(l, init, cb, height), ts[|ts| - 1]))
  }

  predicate Payable(l: Coins, t: Tx) {
    && (forall o :: o in Spends(t.ins) ==> o in l)
    && NoDup(Spends(t.ins))
  }

  /** The journal of a block: the spent outputs in the order they were spent. */
  function Journal(l: Coins, ts: seq<Tx>, cb: Tx, height: int): (r: seq<Coin>)
    requires Unspent(l, ts, cb, height)
    ensures |r| == CountSpends(ts)
  {
    if ts == [] then []
    else
      var init := ts[..|ts| - 1];
      Journal(l, init, cb, height) + CoinsAt(ApplyAll(l, init, cb, height), Spends(ts[|ts| - 1].ins))
  }

  function CountSpends(ts: seq<Tx>): (r: nat) {
    if ts == [] then 0 else CountSpends(ts[..|ts| - 1]) + |Spends(ts[|ts| - 1].ins)|
  }

  /** Undoes a block from its journal, last transaction first. */
  function UndoAll(l: Coins, ts: seq<Tx>, coins: seq<Coin>): Coins
    requires |coins| == CountSpends(ts)
    decreases |ts|
  {
    if ts == [] then l
    else
      var k := |coins| - |Spends(ts[|ts| - 1].ins)|;
      UndoAll(Undo(l, ts[|ts| - 1], coins[k..]), ts[..|ts| - 1], coins[..k])
  }

  // ------------------------------------------------------------------ undoing what was done

  /** Hashes are pairwise different and new to the ledger. */
  predicate Fresh(l: Coins, ts: seq<Tx>) {
    && (forall i, j :: 0 <= i < j < |ts| ==> ts[i].hash != ts[j].hash)
    && (forall o: OutPoint, t: Tx :: o in l && t in ts ==> o.hash != t.hash)
  }

  predicate InBlock(h: Hash, ts: seq<Tx>) {
    exists t: Tx :: t in ts && t.hash == h
  }

  predicate KeptByBlock(o: OutPoint, ts: seq<Tx>) {
    exists t: Tx :: t in ts && Kept(t, o)
  }

  /** l agrees with m outside the block, and inside it holds nothing but outputs the block can create. */
  ghost predicate Resembles(l: Coins, m: Coins, ts: seq<Tx>) {
    && (forall o: OutPoint :: !InBlock(o.hash, ts) ==> Same(l, m, o))
    && (forall o: OutPoint :: o in l && InBlock(o.hash, ts) ==> KeptByBlock(o, ts))
  }

  predicate Same(l: Coins, m: Coins, o: OutPoint) {
    (o in l <==> o in m) && (o in l && o in m ==> l[o] == m[o])
  }

  lemma {:induction false} RestoreAt(l: Coins, s: seq<OutPoint>, coins: seq<Coin>, m: Coins, o: OutPoint)
    requires |s| == |coins| && forall i :: 0 <= i < |s| ==> s[i] in m && m[s[i]] == coins[i]
    ensures o in s ==> Same(Restore(l, s, coins), m, o)
    ensures o !in s ==> Same(Restore(l, s, coins), l, o)
    decreases |s|
  {
    if s != [] {
      var last := |s| - 1;
      RestoreAt(l[s[last] := coins[last]], s[..last], coins[..last], m, o);
      assert s == s[..last] + [s[last]];
    }
  }

  /** An output one of the first k transactions can create. */
  ghost predicate Before(o: OutPoint, ts: seq<Tx>, k: int)
    requires 0 <= k <= |ts|
  {
    exists j :: 0 <= j < k && Kept(ts[j], o)
  }

  /** Whatever the first k transactions leave is an old output or one of theirs. */
  lemma {:induction false} Origin(l: Coins, ts: seq<Tx>, k: nat, cb: Tx, height: int, o: OutPoint)
    requires k <= |ts| && o in ApplyAll(l, ts[..k], cb, height)
    ensures o in l || Before(o, ts, k)
  {
    if k > 0 {
      assert ts[..k][..k - 1] == ts[..k - 1];
      if Kept(ts[k - 1], o) {
      } else {
        Origin(l, ts, k - 1, cb, height, o);
      }
    }
  }

  /** A transaction of the list spends the output. */
  ghost predicate SpentBy(ts: seq<Tx>, o: OutPoint) {
    exists t :: t in ts && o in t.ins && !IsMintOrCreateInput(o)
  }

  lemma SpentByLast(init: seq<Tx>, t: Tx, o: OutPoint)
    ensures SpentBy(init + [t], o) <==> SpentBy(init, o) || o in Spends(t.ins)
  {
    hide Spends;
    assert t in init + [t];
  }

  /** The transaction pays a positive value that can be spent at this output. */
  ghost predicate MadeBy(t: Tx, o: OutPoint) {
    && t.hash == o.hash && 0 <= o.index < |t.outs| && t.outs[o.index].value > 0 && !t.outs[o.index].unspendable
  }

  ghost predicate MadeIn(ts: seq<Tx>, o: OutPoint) {
    exists t :: t in ts && MadeBy(t, o)
  }

  lemma MadeInLast(init: seq<Tx>, t: Tx, o: OutPoint)
    ensures MadeIn(init + [t], o) <==> MadeIn(init, o) || MadeBy(t, o)
  {
    hide MadeBy;
    assert t in init + [t];
  }

  /** The coin at output o of the transaction; a created contract takes over output 0. */
  ghost predicate IsCoin(c: Coin, t: Tx, o: OutPoint, cb: Tx, height: int) {
    && MadeBy(t, o) && c.amount == t.outs[o.index].value && c.asset == t.outs[o.index].asset
    && c.height == height && (c.coinbase <==> t == cb)
    && c.script == if t != cb && o.index == 0 && t.owner.Some? then t.owner.value else t.outs[o.index].script
  }

  /** After a block the unspent outputs are the old and the new ones that no transaction of it spends. */
  lemma {:induction false} AfterBlock(l: Coins, ts: seq<Tx>, cb: Tx, height: int, o: OutPoint)
    requires Fresh(l, ts) && Unspent(l, ts, cb, height)
    ensures var r := ApplyAll(l, ts, cb, height);
            && (o in r <==> (o in l || MadeIn(ts, o)) && !SpentBy(ts, o))
            && (o in r && o in l ==> r[o] == l[o])
            && (o in r && o !in l ==> exists t :: t in ts && IsCoin(r[o], t, o, cb, height))
    ensures SpentBy(ts, o) ==> o in l || MadeIn(ts, o)
    ensures o in l ==> !MadeIn(ts, o)
  {
    if ts != [] {
      var init, t := ts[..|ts| - 1], ts[|ts| - 1];
      assert ts == init + [t];
      InitFresh(l, ts);
      AfterBlock(l, init, cb, height, o);
      SpentByLast(init, t, o);
      MadeInLast(init, t, o);
      OnlyMaker(l, ts, o);
      hide Fresh, Unspent, ApplyAll, SpentBy, MadeIn, Spends;
      AppliedTo(ApplyAll(l, init, cb, height), t, cb, height, o);
      assert ApplyAll(l, ts, cb, height) == Apply(ApplyAll(l, init, cb, height), t, cb, height) by {
        ApplyAllLast(l, ts, cb, height);
      }
      CoinFrom(init, t, o, cb, height, ApplyAll(l, init, cb, height), ApplyAll(l, ts, cb, height));
    }
  }

  lemma ApplyAllLast(l: Coins, ts: seq<Tx>, cb: Tx, height: int)
    requires ts != []
    ensures ApplyAll(l, ts, cb, height) ==
            Apply(ApplyAll(l, ts[..|ts| - 1], cb, height), ts[|ts| - 1], cb, height)
  {
  }

  lemma InitFresh(l: Coins, ts: seq<Tx>)
    requires ts != [] && Fresh(l, ts)
    ensures Fresh(l, ts[..|ts| - 1])
  {
    assert forall t :: t in ts[..|ts| - 1] ==> t in ts;
  }

  /** What the last transaction makes was neither there nor made before. */
  lemma OnlyMaker(l: Coins, ts: seq<Tx>, o: OutPoint)
    requires ts != [] && Fresh(l, ts)
    ensures MadeBy(ts[|ts| - 1], o) ==> o !in l && !MadeIn(ts[..|ts| - 1], o)
  {
    var n := |ts| - 1;
    assert ts[n] in ts;
    if MadeIn(ts[..n], o) {
      var t :| t in ts[..n] && MadeBy(t, o);
      var i :| 0 <= i < n && ts[..n][i] == t;
      assert ts[i].hash != ts[n].hash;
    }
  }

  lemma AppliedTo(m: Coins, t: Tx, cb: Tx, height: int, o: OutPoint)
    requires Payable(m, t)
    ensures var r := Apply(m, t, cb, height);
            && (o in r <==> MadeBy(t, o) || (o in m && o !in Spends(t.ins)))
            && (o in r && !MadeBy(t, o) ==> r[o] == m[o])
            && (MadeBy(t, o) ==> IsCoin(r[o], t, o, cb, height))
    ensures o in Spends(t.ins) ==> o in m
  {
    assert MadeBy(t, o) <==> Kept(t, o);
    assert Kept(t, o) ==> o in OutPoints(t) by {
      assert Kept(t, o) ==> o == OutPoint(t.hash, o.index);
    }
  }

  lemma CoinFrom(init: seq<Tx>, t: Tx, o: OutPoint, cb: Tx, height: int, m: Coins, r: Coins)
    requires o in r ==> MadeBy(t, o) || (o in m && r[o] == m[o])
    requires MadeBy(t, o) && o in r ==> IsCoin(r[o], t, o, cb, height)
    ensures o in r && !MadeBy(t, o) && (exists q :: q in init && IsCoin(m[o], q, o, cb, height)) ==>
      exists q :: q in init + [t] && IsCoin(r[o], q, o, cb, height)
    ensures o in r && MadeBy(t, o) ==> exists q :: q in init + [t] && IsCoin(r[o], q, o, cb, height)
  {
    assert t in init + [t];
    hide IsCoin, MadeBy;
    if o in r && !MadeBy(t, o) && exists q :: q in init && IsCoin(m[o], q, o, cb, height) {
      var q :| q in init && IsCoin(m[o], q, o, cb, height);
      assert q in init + [t];
    }
  }

  /** u is what is left after undoing all but the first k transactions. */
  ghost predicate Halfway(u: Coins, l: Coins, ts: seq<Tx>, k: int, cb: Tx, height: int)
    requires 0 <= k <= |ts|
  {
    && (forall o: OutPoint :: !InBlock(o.hash, ts) ==> Same(u, ApplyAll(l, ts[..k], cb, height), o))
    && (forall o: OutPoint :: o in u && InBlock(o.hash, ts) ==> Before(o, ts, k))
  }

  /** Undoing, output by output. */
  lemma UndoAt(u: Coins, a: Coins, t: Tx, o: OutPoint)
    requires Payable(a, t)
    ensures var v := Undo(u, t, CoinsAt(a, Spends(t.ins)));
            if o in Spends(t.ins) then Same(v, a, o)
            else (o in v ==> o in u && !Kept(t, o)) && (o.hash != t.hash ==> Same(v, u, o))
  {
    var s := Spends(t.ins);
    var w := Remove(u, set q | q in OutPoints(t) && !t.outs[q.index].unspendable);
    RestoreAt(w, s, CoinsAt(a, s), a, o);
  }

  lemma ApplyAt(a: Coins, t: Tx, cb: Tx, height: int, o: OutPoint)
    requires o.hash != t.hash && o !in Spends(t.ins)
    ensures Same(Apply(a, t, cb, height), a, o)
  {
  }

  lemma ApplyLast(l: Coins, ts: seq<Tx>, k: int, cb: Tx, height: int)
    requires 0 < k <= |ts|
    ensures ApplyAll(l, ts[..k], cb, height) == Apply(ApplyAll(l, ts[..k - 1], cb, height), ts[k - 1], cb, height)
  {
    assert ts[..k][..k - 1] == ts[..k - 1];
  }

  lemma HalfwayAt(u: Coins, l: Coins, ts: seq<Tx>, k: int, cb: Tx, height: int, o: OutPoint)
    requires 0 < k <= |ts| && Fresh(l, ts) && Halfway(u, l, ts, k, cb, height)
    requires Payable(ApplyAll(l, ts[..k - 1], cb, height), ts[k - 1])
    ensures var a := ApplyAll(l, ts[..k - 1], cb, height);
            var s := Spends(ts[k - 1].ins);
            var v := Undo(u, ts[k - 1], CoinsAt(a, s));
            (!InBlock(o.hash, ts) ==> Same(v, a, o)) && (o in v && InBlock(o.hash, ts) ==> Before(o, ts, k - 1))
  {
    hide Unspent, ApplyAll, Restore, Undo, Apply, CoinsAt, Spends, Before;
    var t, a := ts[k - 1], ApplyAll(l, ts[..k - 1], cb, height);
    assert t in ts;
    UndoAt(u, a, t, o);
    ApplyLast(l, ts, k, cb, height);
    if !InBlock(o.hash, ts) {
      if o !in Spends(t.ins) {
        ApplyAt(a, t, cb, height, o);
      }
    } else if o in Spends(t.ins) {
      Origin(l, ts, k - 1, cb, height, o);
    } else if o in u && !Kept(t, o) {
      NotLast(ts, k, o);
    }
  }

  lemma NotLast(ts: seq<Tx>, k: int, o: OutPoint)
    requires 0 < k <= |ts| && Before(o, ts, k) && !Kept(ts[k - 1], o)
    ensures Before(o, ts, k - 1)
  {
  }

  lemma HalfwayStep(u: Coins, l: Coins, ts: seq<Tx>, k: int, cb: Tx, height: int)
    requires 0 < k <= |ts| && Fresh(l, ts) && Unspent(l, ts[..k], cb, height) && Halfway(u, l, ts, k, cb, height)
    requires Payable(ApplyAll(l, ts[..k - 1], cb, height), ts[k - 1])
    ensures Halfway(Undo(u, ts[k - 1], CoinsAt(ApplyAll(l, ts[..k - 1], cb, height), Spends(ts[k - 1].ins))),
                    l, ts, k - 1, cb, height)
  {
    hide Undo, ApplyAll, Same, InBlock, Before, Unspent, Fresh;
    var a := ApplyAll(l, ts[..k - 1], cb, height);
    var v := Undo(u, ts[k - 1], CoinsAt(a, Spends(ts[k - 1].ins)));
    forall o: OutPoint
      ensures !InBlock(o.hash, ts) ==> Same(v, a, o)
      ensures o in v && InBlock(o.hash, ts) ==> Before(o, ts, k - 1)
    {
      HalfwayAt(u, l, ts, k, cb, height, o);
    }
  }

  lemma AllUndone(u: Coins, l: Coins, ts: seq<Tx>, cb: Tx, height: int)
    requires Fresh(l, ts) && Halfway(u, l, ts, 0, cb, height)
    ensures u == l
  {
    assert ApplyAll(l, ts[..0], cb, height) == l;
    forall o: OutPoint
      ensures o in u <==> o in l
      ensures o in u ==> u[o] == l[o]
    {
      if InBlock(o.hash, ts) {
        assert o !in l && o !in u;
      } else {
        assert Same(u, l, o);
      }
    }
  }

  /** One unfolding of the journal and of the undoing, for a prefix of a block. */
  lemma LastUndone(u: Coins, l: Coins, ts: seq<Tx>, k: int, cb: Tx, height: int)
    requires 0 < k <= |ts| && Unspent(l, ts[..k], cb, height)
    ensures Unspent(l, ts[..k - 1], cb, height) && Payable(ApplyAll(l, ts[..k - 1], cb, height), ts[k - 1])
    ensures UndoAll(u, ts[..k], Journal(l, ts[..k], cb, height)) ==
            UndoAll(Undo(u, ts[k - 1], CoinsAt(ApplyAll(l, ts[..k - 1], cb, height), Spends(ts[k - 1].ins))),
                    ts[..k - 1], Journal(l, ts[..k - 1], cb, height))
  {
    hide Undo, ApplyAll, Spends, NoDup;
    assert ts[..k][..k - 1] == ts[..k - 1];
    var early := Journal(l, ts[..k - 1], cb, height);
    var coins := CoinsAt(ApplyAll(l, ts[..k - 1], cb, height), Spends(ts[k - 1].ins));
    var all := early + coins;
    assert all[|early|..] == coins && all[..|early|] == early;
  }

  lemma PayableMeaning(l: Coins, ts: seq<Tx>, k: int, cb: Tx, height: int)
    requires 0 < k <= |ts| && Unspent(l, ts[..k], cb, height)
    ensures var a := ApplyAll(l, ts[..k - 1], cb, height); forall o :: o in Spends(ts[k - 1].ins) ==> o in a
  {
    assert ts[..k][..k - 1] == ts[..k - 1];
  }

  lemma {:induction false} UndoPrefix(u: Coins, l: Coins, ts: seq<Tx>, k: nat, cb: Tx, height: int)
    requires k <= |ts| && Fresh(l, ts) && Unspent(l, ts[..k], cb, height) && Halfway(u, l, ts, k, cb, height)
    ensures UndoAll(u, ts[..k], Journal(l, ts[..k], cb, height)) == l
    decreases k
  {
    if k == 0 {
      hide ApplyAll, Fresh, Halfway, Undo;
      AllUndone(u, l, ts, cb, height);
    } else {
      hide *;
      PayableMeaning(l, ts, k, cb, height);
      LastUndone(u, l, ts, k, cb, height);
      HalfwayStep(u, l, ts, k, cb, height);
      var a := ApplyAll(l, ts[..k - 1], cb, height);
      UndoPrefix(Undo(u, ts[k - 1], CoinsAt(a, Spends(ts[k - 1].ins))), l, ts, k - 1, cb, height);
    }
  }

  /**
   Undoing a block restores the ledger exactly, from any ledger that resembles the one the block left:
   outputs of the block that were loaded back meanwhile make no difference.
   */
  lemma UndoRestores(u: Coins, l: Coins, ts: seq<Tx>, cb: Tx, height: int)
    requires Fresh(l, ts) && Unspent(l, ts, cb, height) && Resembles(u, ApplyAll(l, ts, cb, height), ts)
    ensures UndoAll(u, ts, Journal(l, ts, cb, height)) == l
  {
    assert ts[..|ts|] == ts;
    hide ApplyAll, Unspent, UndoAll, Journal, Fresh, Same;
    UndoPrefix(u, l, ts, |ts|, cb, height);
  }

  // ------------------------------------------------------------------ outputs loaded ahead of time

  ghost predicate After(h: Hash, ts: seq<Tx>, k: int)
    requires 0 <= k <= |ts|
  {
    exists j :: k <= j < |ts| && ts[j].hash == h
  }

  /** u and l are the same but for outputs of transactions still to come, which only u may hold. */
  ghost predicate Ahead(u: Coins, l: Coins, ts: seq<Tx>, k: int)
    requires 0 <= k <= |ts|
  {
    forall o: OutPoint ::
      if After(o.hash, ts, k) then o !in l && (o in u ==> KeptByBlock(o, ts)) else Same(u, l, o)
  }

  lemma AheadAt(u: Coins, l: Coins, ts: seq<Tx>, k: int, cb: Tx, height: int, o: OutPoint)
    requires 0 <= k < |ts| && Ahead(u, l, ts, k) && Payable(l, ts[k])
    requires forall i, j :: 0 <= i < j < |ts| ==> ts[i].hash != ts[j].hash
    ensures var u' := Apply(u, ts[k], cb, height);
            var l' := Apply(l, ts[k], cb, height);
            if After(o.hash, ts, k + 1) then o !in l' && (o in u' ==> KeptByBlock(o, ts)) else Same(u', l', o)
  {
    if o.hash == ts[k].hash && o in u {
      assert After(o.hash, ts, k);
      var t: Tx :| t in ts && Kept(t, o);
      assert t == ts[k];
    }
    if After(o.hash, ts, k) {
      var j :| k <= j < |ts| && ts[j].hash == o.hash;
    }
  }

  lemma AheadStep(u: Coins, l: Coins, ts: seq<Tx>, k: int, cb: Tx, height: int)
    requires 0 <= k < |ts| && Ahead(u, l, ts, k) && Payable(l, ts[k])
    requires forall i, j :: 0 <= i < j < |ts| ==> ts[i].hash != ts[j].hash
    ensures Ahead(Apply(u, ts[k], cb, height), Apply(l, ts[k], cb, height), ts, k + 1)
    ensures Payable(u, ts[k]) && CoinsAt(u, Spends(ts[k].ins)) == CoinsAt(l, Spends(ts[k].ins))
  {
    forall o | o in Spends(ts[k].ins)
      ensures o in u && u[o] == l[o]
    {
      assert Same(u, l, o);
    }
    hide Apply, Same, Payable, KeptByBlock;
    var u', l' := Apply(u, ts[k], cb, height), Apply(l, ts[k], cb, height);
    forall o: OutPoint
      ensures if After(o.hash, ts, k + 1) then o !in l' && (o in u' ==> KeptByBlock(o, ts)) else Same(u', l', o)
    {
      AheadAt(u, l, ts, k, cb, height, o);
    }
  }

  lemma {:induction false} ApplyAhead(u: Coins, l: Coins, ts: seq<Tx>, k: nat, cb: Tx, height: int)
    requires k <= |ts| && Fresh(l, ts) && Ahead(u, l, ts, 0) && Unspent(l, ts[..k], cb, height)
    ensures Unspent(u, ts[..k], cb, height) && Journal(u, ts[..k], cb, height) == Journal(l, ts[..k], cb, height)
    ensures Ahead(ApplyAll(u, ts[..k], cb, height), ApplyAll(l, ts[..k], cb, height), ts, k)
    decreases k
  {
    if k > 0 {
      assert ts[..k][..k - 1] == ts[..k - 1];
      var a, b := ApplyAll(u, ts[..k - 1], cb, height), ApplyAll(l, ts[..k - 1], cb, height);
      hide Ahead, Apply, Payable, CoinsAt, Spends;
      ApplyAhead(u, l, ts, k - 1, cb, height);
      AheadStep(a, b, ts, k - 1, cb, height);
    }
  }

  /** Outputs of the block that were loaded before it is connected make no difference. */
  lemma ApplyResembles(u: Coins, l: Coins, ts: seq<Tx>, cb: Tx, height: int)
    requires Fresh(l, ts) && Unspent(l, ts, cb, height) && Resembles(u, l, ts)
    ensures Unspent(u, ts, cb, height) && Journal(u, ts, cb, height) == Journal(l, ts, cb, height)
    ensures ApplyAll(u, ts, cb, height) == ApplyAll(l, ts, cb, height)
  {
    assert ts[..|ts|] == ts;
    assert Ahead(u, l, ts, 0) by {
      forall o: OutPoint
        ensures if After(o.hash, ts, 0) then o !in l && (o in u ==> KeptByBlock(o, ts)) else Same(u, l, o)
      {
        BlockHash(o.hash, ts);
        if After(o.hash, ts, 0) {
          var j :| 0 <= j < |ts| && ts[j].hash == o.hash;
          assert ts[j] in ts;
        }
      }
    }
    ApplyAhead(u, l, ts, |ts|, cb, height);
    NothingAhead(ApplyAll(u, ts, cb, height), ApplyAll(l, ts, cb, height), ts);
  }

  lemma BlockHash(h: Hash, ts: seq<Tx>)
    ensures After(h, ts, 0) <==> InBlock(h, ts)
  {
    if InBlock(h, ts) {
      var t: Tx :| t in ts && t.hash == h;
      var j :| 0 <= j < |ts| && ts[j] == t;
    }
  }

  lemma NothingAhead(u: Coins, l: Coins, ts: seq<Tx>)
    requires Ahead(u, l, ts, |ts|)
    ensures u == l
  {
    forall o: OutPoint
      ensures o in u <==> o in l
      ensures o in u ==> u[o] == l[o]
    {
      assert !After(o.hash, ts, |ts|);
      assert Same(u, l, o);
    }
  }

  lemma {:induction false} UnspentPrefix(l: Coins, ts: seq<Tx>, k: nat, cb: Tx, height: int)
    requires k <= |ts| && Unspent(l, ts, cb, height)
    ensures Unspent(l, ts[..k], cb, height)
    ensures k < |ts| ==> Payable(ApplyAll(l, ts[..k], cb, height), ts[k])
    decreases |ts|
  {
    if k < |ts| {
      var init := ts[..|ts| - 1];
      if k < |init| {
        UnspentPrefix(l, init, k, cb, height);
      }
      assert init[..k] == ts[..k];
    } else {
      assert ts[..k] == ts;
    }
  }
}
