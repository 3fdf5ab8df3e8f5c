/**
 What is in circulation: the sum of the unspent coins of an asset in the stored set, and how connecting
 blocks whose values were accepted changes it.
 */
module Supply {
  import opened Common
  import opened Ledger
  import opened BlockOrder
  import opened UtxoView
  import opened Connecting
  import opened Disconnecting
  import C = Conservation
  import V = BlockValue

  // ------------------------------------------------------------------ sums over the ledger

  function Worth(c: Coin, a: Asset): int { if c.asset == a then c.amount else 0 }

  /** The sum of the unspent coins of an asset. */
  ghost function Circulating(l: Coins, a: Asset): int {
    if l == map[] then 0 else
      var o :| o in l;
      Worth(l[o], a) + Circulating(l - {o}, a)
  }

  lemma {:induction false} CirculatingRemove(l: Coins, o: OutPoint, a: Asset)
    requires o in l
    ensures Circulating(l, a) == Worth(l[o], a) + Circulating(l - {o}, a)
    decreases |l|
  {
    var p :| p in l && Circulating(l, a) == Worth(l[p], a) + Circulating(l - {p}, a);
    if p != o {
      var x, y := l - {p}, l - {o};
      assert x.Keys == l.Keys - {p} && y.Keys == l.Keys - {o};
      CirculatingRemove(x, o, a);
      CirculatingRemove(y, p, a);
      assert x - {o} == y - {p};
    }
  }

  lemma CirculatingAdd(l: Coins, o: OutPoint, c: Coin, a: Asset)
    requires o !in l
    ensures Circulating(l[o := c], a) == Circulating(l, a) + Worth(c, a)
  {
    CirculatingRemove(l[o := c], o, a);
    assert l[o := c] - {o} == l;
  }

  /** What the outputs to be spent are worth. */
  function Spent(l: Coins, s: seq<OutPoint>, a: Asset): int {
    if s == [] then 0
    else
      var o := s[|s| - 1];
      Spent(l, s[..|s| - 1], a) + if o in l then Worth(l[o], a) else 0
  }

  lemma {:induction false} Spending(l: Coins, s: seq<OutPoint>, a: Asset)
    requires NoDup(s) && forall o :: o in s ==> o in l
    ensures Circulating(Remove(l, ToSet(s)), a) == Circulating(l, a) - Spent(l, s, a)
  {
    if s == [] {
      assert Remove(l, ToSet(s)) == l;
    } else {
      var init, o := s[..|s| - 1], s[|s| - 1];
      Spending(l, init, a);
      var m := Remove(l, ToSet(init));
      assert o in s && o in m && m[o] == l[o];
      CirculatingRemove(m, o, a);
      assert m - {o} == Remove(l, ToSet(s));
    }
  }

  /** What the first n outputs of a transaction put into circulation. */
  function KeptWorth(t: Tx, n: nat, a: Asset): int
    requires n <= |t.outs|
  {
    if n == 0 then 0
    else KeptWorth(t, n - 1, a)
         + if Kept(t, OutPoint(t.hash, n - 1)) && t.outs[n - 1].asset == a then t.outs[n - 1].value else 0
  }

  lemma {:induction false} Creating(m: Coins, t: Tx, n: nat, coinbase: bool, height: int, a: Asset)
    requires n <= |t.outs| && forall o :: o in m ==> o.hash != t.hash
    ensures Circulating(m + CreatedUpTo(t, n, coinbase, height), a) == Circulating(m, a) + KeptWorth(t, n, a)
  {
    hide CreatedUpTo, Circulating, Kept, CoinOf;
    if n == 0 {
      CreatedAll(t, coinbase, height);
      assert m + map[] == m;
    } else {
      Creating(m, t, n - 1, coinbase, height, a);
      CreatedNext(m, t, n - 1, coinbase, height);
      var o := OutPoint(t.hash, n - 1);
      if Kept(t, o) {
        NotYetCreated(t, n - 1, coinbase, height);
        CoinWorth(t, n - 1, coinbase, height, a);
        CirculatingAdd(m + CreatedUpTo(t, n - 1, coinbase, height), o, CoinOf(t, n - 1, coinbase, height), a);
      }
    }
  }

  lemma NotYetCreated(t: Tx, n: nat, coinbase: bool, height: int)
    ensures OutPoint(t.hash, n) !in CreatedUpTo(t, n, coinbase, height)
  {
  }

  lemma CoinWorth(t: Tx, i: nat, coinbase: bool, height: int, a: Asset)
    requires i < |t.outs|
    ensures Worth(CoinOf(t, i, coinbase, height), a) == if t.outs[i].asset == a then t.outs[i].value else 0
  {
  }

  /** One transaction: what it spends leaves, what it creates and keeps enters. */
  lemma Applying(l: Coins, t: Tx, cb: Tx, height: int, a: Asset)
    requires Payable(l, t) && forall o :: o in l ==> o.hash != t.hash
    ensures Circulating(Apply(l, t, cb, height), a) == Circulating(l, a) - Spent(l, Spends(t.ins), a) +
        KeptWorth(t, |t.outs|, a)
  {
    var m := Remove(l, ToSet(Spends(t.ins)));
    Spending(l, Spends(t.ins), a);
    Creating(m, t, |t.outs|, t == cb, height, a);
    CreatedAll(t, t == cb, height);
  }

  // ------------------------------------------------------------------ transactions as their values are checked

  /** An output as the checks on values see it, with what the script engine says of its script. */
  type Reader = Output -> C.Output

  ghost predicate Reads(f: Reader) {
    forall o :: f(o).value == o.value && f(o).asset == o.asset
  }

  function Paying(t: Tx, f: Reader): (r: seq<C.Output>)
    ensures |r| == |t.outs|
  {
    seq(|t.outs|, i requires 0 <= i < |t.outs| => f(t.outs[i]))
  }

  function LookedUp(l: Coins, ins: seq<OutPoint>): (r: seq<Option<Coin>>)
    ensures |r| == |ins|
  {
    seq(|ins|, i requires 0 <= i < |ins| => if ins[i] in l then Some(l[ins[i]]) else None)
  }

  /** A transaction with its inputs looked up in the ledger. */
  function Looked(l: Coins, t: Tx, f: Reader): C.Tx { C.Tx(LookedUp(l, t.ins), Paying(t, f)) }

  lemma {:induction false} InputWorth(l: Coins, ins: seq<OutPoint>, a: Asset)
    requires forall o :: o in ins ==> o in l
    ensures Sum(C.Of(C.Inputs(LookedUp(l, ins)), a)) == Spent(l, ins, a)
  {
    hide C.Of, Sum;
    if ins == [] {
      NoWorth(a);
    } else {
      var n := |ins| - 1;
      var init, c := LookedUp(l, ins[..n]), l[ins[n]];
      assert ins[n] in ins;
      InputWorth(l, ins[..n], a);
      assert LookedUp(l, ins) == init + [Some(c)];
      V.InputsGrow(init, c);
      C.OfGrow(C.Inputs(init), C.Item(c.asset, c.amount), a);
      SumGrow(C.Of(C.Inputs(init), a), c.amount);
    }
  }

  lemma NoWorth(a: Asset)
    ensures Sum(C.Of(C.Inputs([]), a)) == 0 && Sum(C.Of(C.Outputs([]), a)) == 0
  {
  }

  /** What the first n outputs say they pay. */
  function OutWorth(t: Tx, n: nat, a: Asset): int
    requires n <= |t.outs|
  {
    if n == 0 then 0 else OutWorth(t, n - 1, a) + if t.outs[n - 1].asset == a then t.outs[n - 1].value else 0
  }

  lemma {:induction false} OutputWorth(t: Tx, f: Reader, n: nat, a: Asset)
    requires n <= |t.outs| && Reads(f)
    ensures Sum(C.Of(C.Outputs(Paying(t, f)[..n]), a)) == OutWorth(t, n, a)
  {
    hide C.Of, Sum, C.Outputs;
    var p := Paying(t, f);
    if n == 0 {
      assert p[..0] == [];
      NoWorth(a);
    } else {
      OutputWorth(t, f, n - 1, a);
      assert p[..n] == p[..n - 1] + [p[n - 1]];
      C.OutputGrow(p[..n - 1], p[n - 1], a);
    }
  }

  /** What the outputs pay and does not stay in circulation, because it cannot be spent. */
  function Burned(t: Tx, a: Asset): int { OutWorth(t, |t.outs|, a) - KeptWorth(t, |t.outs|, a) }

  lemma {:induction false} BurnedUpTo(t: Tx, n: nat, a: Asset)
    requires n <= |t.outs| && forall i :: 0 <= i < |t.outs| ==> 0 <= t.outs[i].value
    ensures KeptWorth(t, n, a) <= OutWorth(t, n, a)
    ensures (forall i :: 0 <= i < n ==> !t.outs[i].unspendable) ==> KeptWorth(t, n, a) == OutWorth(t, n, a)
  {
    if n > 0 {
      BurnedUpTo(t, n - 1, a);
    }
  }

  // ------------------------------------------------------------------ a block

  /** The ordinary transactions of a block, each looked up when it takes effect. */
  function Ordinary(l: Coins, ts: seq<Tx>, vtxs: seq<Tx>, cb: Tx, height: int, f: Reader): seq<C.Tx> {
    if ts == [] then []
    else
      var init, t := ts[..|ts| - 1], ts[|ts| - 1];
      Ordinary(l, init, vtxs, cb, height, f)
      + if t in vtxs || t == cb then [] else [Looked(ApplyAll(l, init, cb, height), t, f)]
  }

  /** What the virtual transactions put into circulation, less what they take out. */
  function VirtualWorth(l: Coins, ts: seq<Tx>, vtxs: seq<Tx>, cb: Tx, height: int, a: Asset): int {
    if ts == [] then 0
    else
      var init, t := ts[..|ts| - 1], ts[|ts| - 1];
      VirtualWorth(l, init, vtxs, cb, height, a)
      + if t in vtxs then KeptWorth(t, |t.outs|, a) - Spent(ApplyAll(l, init, cb, height), Spends(t.ins), a) else 0
  }

  /** What the ordinary transactions and the coinbase burn. */
  function BurnedBy(ts: seq<Tx>, vtxs: seq<Tx>, a: Asset): int {
    if ts == [] then 0
    else
      var t := ts[|ts| - 1];
      BurnedBy(ts[..|ts| - 1], vtxs, a) + if t in vtxs then 0 else Burned(t, a)
  }

  function CoinbaseWorth(ts: seq<Tx>, vtxs: seq<Tx>, cb: Tx, a: Asset): int {
    if ts == [] then 0
    else
      var t := ts[|ts| - 1];
      CoinbaseWorth(ts[..|ts| - 1], vtxs, cb, a) + if t == cb && t !in vtxs then OutWorth(t, |t.outs|, a) else 0
  }

  /** Ordinary transactions mint nothing, and the coinbase spends nothing. */
  ghost predicate Plainly(ts: seq<Tx>, vtxs: seq<Tx>, cb: Tx) {
    forall t :: t in ts && t !in vtxs ==> if t == cb then Spends(t.ins) == [] else Spends(t.ins) == t.ins
  }

  /** The change of what circulates, transaction by transaction. */
  lemma {:induction false} OrderWorth(l: Coins, ts: seq<Tx>, vtxs: seq<Tx>, cb: Tx, height: int, f: Reader, a: Asset)
    requires Fresh(l, ts) && Unspent(l, ts, cb, height) && Plainly(ts, vtxs, cb) && Reads(f)
    ensures Circulating(ApplyAll(l, ts, cb, height), a) ==
            Circulating(l, a) - V.Collected(Ordinary(l, ts, vtxs, cb, height, f), a) + CoinbaseWorth(ts, vtxs, cb, a)
              + VirtualWorth(l, ts, vtxs, cb, height, a) - BurnedBy(ts, vtxs, a)
  {
    hide Circulating, ApplyAll, Fresh, Plainly, Looked, KeptWorth, Spent, OutWorth, Burned, Reads, V.Collected;
    if ts == [] {
      NothingApplied(l, cb, height, a);
    } else {
      var init, t := ts[..|ts| - 1], ts[|ts| - 1];
      FreshInit(l, ts);
      PlainlyInit(ts, vtxs, cb);
      OrderWorth(l, init, vtxs, cb, height, f, a);
      LastWorth(l, ts, vtxs, cb, height, f, a);
      V.CollectedNext(Ordinary(l, init, vtxs, cb, height, f), Looked(ApplyAll(l, init, cb, height), t, f), a);
      assert t in vtxs || t == cb ==>
        Ordinary(l, ts, vtxs, cb, height, f) == Ordinary(l, init, vtxs, cb, height, f);
    }
  }

  lemma NothingApplied(l: Coins, cb: Tx, height: int, a: Asset)
    ensures ApplyAll(l, [], cb, height) == l && V.Collected([], a) == 0
  {
  }

  lemma PlainlyInit(ts: seq<Tx>, vtxs: seq<Tx>, cb: Tx)
    requires ts != [] && Plainly(ts, vtxs, cb)
    ensures Plainly(ts[..|ts| - 1], vtxs, cb)
  {
    assert forall t :: t in ts[..|ts| - 1] ==> t in ts;
  }

  lemma FreshInit(l: Coins, ts: seq<Tx>)
    requires Fresh(l, ts) && ts != []
    ensures Fresh(l, ts[..|ts| - 1])
  {
    assert forall t :: t in ts[..|ts| - 1] ==> t in ts;
  }

  lemma LastWorth(l: Coins, ts: seq<Tx>, vtxs: seq<Tx>, cb: Tx, height: int, f: Reader, a: Asset)
    requires ts != [] && Fresh(l, ts) && Unspent(l, ts, cb, height) && Plainly(ts, vtxs, cb) && Reads(f)
    ensures var init, t := ts[..|ts| - 1], ts[|ts| - 1];
            var m := ApplyAll(l, init, cb, height);
            && Payable(m, t)
            && Circulating(ApplyAll(l, ts, cb, height), a) - Circulating(m, a)
               == if t in vtxs then KeptWorth(t, |t.outs|, a) - Spent(m, Spends(t.ins), a)
                  else if t == cb then OutWorth(t, |t.outs|, a) - Burned(t, a)
                  else Sum(C.Out(Looked(m, t, f), a)) - Sum(C.In(Looked(m, t, f), a)) - Burned(t, a)
  {
    var init, t := ts[..|ts| - 1], ts[|ts| - 1];
    var m := ApplyAll(l, init, cb, height);
    NewHash(l, ts, cb, height);
    Applying(m, t, cb, height, a);
    assert t in ts;
    if t !in vtxs && t != cb {
      InputWorth(m, t.ins, a);
      OutputWorth(t, f, |t.outs|, a);
      assert Paying(t, f)[..|t.outs|] == Paying(t, f);
    }
  }

  lemma NewHash(l: Coins, ts: seq<Tx>, cb: Tx, height: int)
    requires ts != [] && Fresh(l, ts)
    ensures forall o :: o in ApplyAll(l, ts[..|ts| - 1], cb, height) ==> o.hash != ts[|ts| - 1].hash
  {
    var n := |ts| - 1;
    forall o | o in ApplyAll(l, ts[..n], cb, height)
      ensures o.hash != ts[n].hash
    {
      Origin(l, ts, n, cb, height, o);
      assert ts[n] in ts;
    }
  }

  lemma ShapePlainly(txs: seq<Tx>, vtxs: seq<Tx>)
    requires BlockShape(txs, vtxs)
    ensures var cb := txs[|txs| - 1]; Plainly(ConnectOrder(txs, vtxs, 0, 0), vtxs, cb) && cb !in vtxs
  {
    hide ConnectOrder;
    var cb, order := txs[|txs| - 1], ConnectOrder(txs, vtxs, 0, 0);
    assert cb in txs;
    assert cb.ins == [OutPoint(0, MAX_UINT32)];
    assert Spends(cb.ins) == Spends(cb.ins[..0]);
    forall t | t in order && t !in vtxs
      ensures if t == cb then Spends(t.ins) == [] else Spends(t.ins) == t.ins
    {
      OrderMembers(txs, vtxs, 0, 0, t);
      var i :| 0 <= i < |txs| && txs[i] == t;
    }
  }

  lemma {:induction false} CoinbaseOnce(ts: seq<Tx>, vtxs: seq<Tx>, cb: Tx, a: Asset)
    requires cb !in vtxs && forall i, j :: 0 <= i < j < |ts| ==> ts[i].hash != ts[j].hash
    ensures CoinbaseWorth(ts, vtxs, cb, a) == if cb in ts then OutWorth(cb, |cb.outs|, a) else 0
  {
    if ts != [] {
      var init, t := ts[..|ts| - 1], ts[|ts| - 1];
      CoinbaseOnce(init, vtxs, cb, a);
      assert ts == init + [t];
      assert t == cb ==> cb !in init;
    }
  }

  lemma HasCoinbase(db: Coins, txs: seq<Tx>, vtxs: seq<Tx>, height: int)
    requires Connectable(db, txs, vtxs, height)
    ensures |txs| > 0
  {
  }

  /** A block as its values are checked. */
  function Valued(l: Coins, txs: seq<Tx>, vtxs: seq<Tx>, height: nat, f: Reader): V.Block
    requires |txs| > 0
  {
    var cb := txs[|txs| - 1];
    V.Block(height, Ordinary(l, ConnectOrder(txs, vtxs, 0, 0), vtxs, cb, height, f), Paying(cb, f))
  }

  /** The transactions of a block in order, before the coinbase outputs are added once more. */
  lemma AppliedWorth(db: Coins, txs: seq<Tx>, vtxs: seq<Tx>, height: nat, f: Reader, a: Asset)
    requires Connectable(db, txs, vtxs, height) && Reads(f)
    ensures var cb, order := txs[|txs| - 1], ConnectOrder(txs, vtxs, 0, 0);
            Circulating(ApplyAll(db, order, cb, height), a) ==
            Circulating(db, a) + V.Added(Valued(db, txs, vtxs, height, f), a)
              + VirtualWorth(db, order, vtxs, cb, height, a) - BurnedBy(order, vtxs, a)
  {
    hide Circulating, ApplyAll, BlockShape, Tagged, Unspent, Ordinary, VirtualWorth, BurnedBy, ConnectOrder,
        OutWorth, Plainly;
    hide V.Collected, C.Of, Sum, C.Outputs;
    HasCoinbase(db, txs, vtxs, height);
    var cb, order := txs[|txs| - 1], ConnectOrder(txs, vtxs, 0, 0);
    ShapePlainly(txs, vtxs);
    OrderWorth(db, order, vtxs, cb, height, f, a);
    CoinbaseOnce(order, vtxs, cb, a);
    TxsInOrder(txs, vtxs, 0, 0, |txs| - 1);
    OutputWorth(cb, f, |cb.outs|, a);
    assert Paying(cb, f)[..|cb.outs|] == Paying(cb, f);
  }

  // ------------------------------------------------------------------ the coinbase outputs added once more

  /** Whatever a block leaves of its coinbase is as the coinbase created it. */
  ghost predicate AsCreated(r: Coins, cb: Tx, height: int) {
    forall o :: o in r && o.hash == cb.hash ==> Kept(cb, o) && r[o] == CoinOf(cb, o.index, true, height)
  }

  /** The first n outputs of the coinbase, as far as they come back because r has them no more. */
  function Revived(r: Coins, cb: Tx, n: nat, a: Asset): int
    requires n <= |cb.outs|
  {
    if n == 0 then 0 else Revived(r, cb, n - 1, a) + if Returns(r, cb, n - 1, a) then cb.outs[n - 1].value else 0
  }

  predicate Returns(r: Coins, cb: Tx, i: nat, a: Asset)
    requires i < |cb.outs|
  {
    Kept(cb, OutPoint(cb.hash, i)) && OutPoint(cb.hash, i) !in r && cb.outs[i].asset == a
  }

  lemma {:induction false} Reviving(r: Coins, cb: Tx, n: nat, height: int, a: Asset)
    requires n <= |cb.outs| && AsCreated(r, cb, height)
    ensures Circulating(r + CreatedUpTo(cb, n, true, height), a) == Circulating(r, a) + Revived(r, cb, n, a)
  {
    hide CreatedUpTo, Circulating, Kept, CoinOf;
    if n == 0 {
      CreatedAll(cb, true, height);
      assert r + map[] == r;
    } else {
      Reviving(r, cb, n - 1, height, a);
      CreatedNext(r, cb, n - 1, true, height);
      NotYetCreated(cb, n - 1, true, height);
      var o, x := OutPoint(cb.hash, n - 1), r + CreatedUpTo(cb, n - 1, true, height);
      var c := CoinOf(cb, n - 1, true, height);
      if Kept(cb, o) {
        if o in r {
          assert x[o := c] == x;
        } else {
          CoinWorth(cb, n - 1, true, height, a);
          CirculatingAdd(x, o, c, a);
        }
      }
    }
  }

  lemma {:induction false} RevivedZero(r: Coins, cb: Tx, n: nat, a: Asset)
    requires n <= |cb.outs|
    ensures 0 <= Revived(r, cb, n, a)
    ensures Revived(r, cb, n, a) == 0 <==> forall i :: 0 <= i < n ==> !Returns(r, cb, i, a)
  {
    if n > 0 {
      RevivedZero(r, cb, n - 1, a);
    }
  }

  /** An output of the coinbase is in the ledger from the coinbase on until it is spent, as it was created. */
  lemma {:induction false} CoinbaseCoins(l: Coins, ts: seq<Tx>, cb: Tx, height: int, o: OutPoint)
    requires Unspent(l, ts, cb, height) && o.hash == cb.hash && o !in l
    requires forall t :: t in ts && t != cb ==> t.hash != cb.hash
    requires forall i, j :: 0 <= i < j < |ts| ==> ts[i] != ts[j]
    ensures var r := ApplyAll(l, ts, cb, height);
            && (o in r <==> cb in ts && Kept(cb, o) && !SpentBy(ts, o))
            && (o in r ==> r[o] == CoinOf(cb, o.index, true, height))
    ensures SpentBy(ts, o) ==> cb in ts && Kept(cb, o)
  {
    hide Kept, CoinOf;
    if ts != [] {
      var init, t := ts[..|ts| - 1], ts[|ts| - 1];
      assert ts == init + [t];
      CoinbaseCoins(l, init, cb, height, o);
      SpentByLast(init, t, o);
      CoinbaseStep(ApplyAll(l, init, cb, height), t, cb, height, o);
    }
  }

  lemma CoinbaseStep(m: Coins, t: Tx, cb: Tx, height: int, o: OutPoint)
    requires Payable(m, t) && o.hash == cb.hash && (t != cb ==> t.hash != cb.hash)
    ensures var r := Apply(m, t, cb, height);
            && (o in r <==> (t == cb && Kept(cb, o)) || (o in m && o !in Spends(t.ins)))
            && (o in r ==> r[o] == if t == cb && Kept(cb, o) then CoinOf(cb, o.index, true, height) else m[o])
    ensures o in Spends(t.ins) ==> o in m
  {
    hide CoinOf;
    assert Kept(cb, o) ==> o in OutPoints(cb) by {
      assert Kept(cb, o) ==> o == OutPoint(cb.hash, o.index);
    }
  }

  /** The coinbase outputs that a virtual transaction of the block spends, and that are stored nevertheless. */
  function RevivedBy(db: Coins, txs: seq<Tx>, vtxs: seq<Tx>, height: int, a: Asset): int
    requires |txs| > 0
  {
    var cb := txs[|txs| - 1];
    Revived(ApplyAll(db, ConnectOrder(txs, vtxs, 0, 0), cb, height), cb, |cb.outs|, a)
  }

  /** A virtual transaction spends an output of the coinbase. */
  ghost predicate SpendsCoinbase(vtxs: seq<Tx>, cb: Tx, a: Asset) {
    exists i :: 0 <= i < |cb.outs| && cb.outs[i].asset == a && SpentBy(vtxs, OutPoint(cb.hash, i))
  }

  /**
   Connecting a block: what circulates changes by what its values add, by what its virtual transactions do,
   by what is burned, and by the coinbase outputs that come back.
   */
  lemma BlockWorth(db: Coins, txs: seq<Tx>, vtxs: seq<Tx>, height: nat, f: Reader, a: Asset)
    requires Connectable(db, txs, vtxs, height) && Reads(f)
    ensures var cb, order := txs[|txs| - 1], ConnectOrder(txs, vtxs, 0, 0);
            Circulating(Connected(db, txs, vtxs, height), a) ==
            Circulating(db, a) + V.Added(Valued(db, txs, vtxs, height, f), a)
              + VirtualWorth(db, order, vtxs, cb, height, a) - BurnedBy(order, vtxs, a)
              + RevivedBy(db, txs, vtxs, height, a)
  {
    hide Circulating, ApplyAll, Connectable, VirtualWorth, BurnedBy, ConnectOrder, V.Added, Valued, Created, Reads;
    HasCoinbase(db, txs, vtxs, height);
    var cb, order := txs[|txs| - 1], ConnectOrder(txs, vtxs, 0, 0);
    AppliedWorth(db, txs, vtxs, height, f, a);
    CoinbaseLeft(db, txs, vtxs, height);
    Reviving(ApplyAll(db, order, cb, height), cb, |cb.outs|, height, a);
    CreatedAll(cb, true, height);
  }

  lemma Distinct(db: Coins, txs: seq<Tx>, vtxs: seq<Tx>, height: int)
    requires Connectable(db, txs, vtxs, height)
    ensures var cb, order := txs[|txs| - 1], ConnectOrder(txs, vtxs, 0, 0);
            && Unspent(db, order, cb, height) && cb in order
            && (forall t :: t in order && t != cb ==> t.hash != cb.hash)
            && (forall i, j :: 0 <= i < j < |order| ==> order[i] != order[j])
            && (forall o :: o in db ==> o.hash != cb.hash)
  {
    TxsInOrder(txs, vtxs, 0, 0, |txs| - 1);
    hide BlockShape, Tagged, Unspent, ConnectOrder, Fresh;
    FreshDistinct(db, ConnectOrder(txs, vtxs, 0, 0), txs[|txs| - 1]);
  }

  lemma FreshDistinct(db: Coins, ts: seq<Tx>, cb: Tx)
    requires Fresh(db, ts) && cb in ts
    ensures forall t :: t in ts && t != cb ==> t.hash != cb.hash
    ensures forall i, j :: 0 <= i < j < |ts| ==> ts[i] != ts[j]
    ensures forall o :: o in db ==> o.hash != cb.hash
  {
    var k :| 0 <= k < |ts| && ts[k] == cb;
    forall t | t in ts && t != cb
      ensures t.hash != cb.hash
    {
      var i :| 0 <= i < |ts| && ts[i] == t;
      assert i < k || k < i;
    }
  }

  lemma CoinbaseLeft(db: Coins, txs: seq<Tx>, vtxs: seq<Tx>, height: int)
    requires Connectable(db, txs, vtxs, height)
    ensures var cb := txs[|txs| - 1]; AsCreated(ApplyAll(db, ConnectOrder(txs, vtxs, 0, 0), cb, height), cb, height)
  {
    hide ApplyAll, Unspent, ConnectOrder, CoinOf, SpentBy;
    Distinct(db, txs, vtxs, height);
    hide Connectable;
    var cb, order := txs[|txs| - 1], ConnectOrder(txs, vtxs, 0, 0);
    var r := ApplyAll(db, order, cb, height);
    forall o | o in r && o.hash == cb.hash
      ensures Kept(cb, o) && r[o] == CoinOf(cb, o.index, true, height)
    {
      CoinbaseCoins(db, order, cb, height, o);
    }
  }

  /** Of the outputs of the coinbase the block spends those that its virtual transactions spend. */
  lemma OnlyVirtual(db: Coins, txs: seq<Tx>, vtxs: seq<Tx>, height: int, o: OutPoint)
    requires Connectable(db, txs, vtxs, height) && o.hash == txs[|txs| - 1].hash
    ensures SpentBy(ConnectOrder(txs, vtxs, 0, 0), o) <==> SpentBy(vtxs, o)
  {
    var cb, order := txs[|txs| - 1], ConnectOrder(txs, vtxs, 0, 0);
    ShapePlainly(txs, vtxs);
    Distinct(db, txs, vtxs, height);
    VirtualsIn(txs, vtxs);
    var before, after := CoinbaseLast(txs, vtxs, 0, 0);
    NotBefore(db, order, before, after, cb, height, o);
    hide *;
    SpentSomewhere(before, cb, after, order, vtxs, o);
  }

  lemma SpentSomewhere(before: seq<Tx>, cb: Tx, after: seq<Tx>, order: seq<Tx>, vtxs: seq<Tx>, o: OutPoint)
    requires order == before + [cb] + after && !SpentBy(before, o) && Plainly(order, vtxs, cb) && cb !in vtxs
    requires (forall t :: t in after ==> t in vtxs) && forall t :: t in vtxs ==> t in order
    ensures SpentBy(order, o) <==> SpentBy(vtxs, o)
  {
    if SpentBy(order, o) {
      var t :| t in order && o in t.ins && !IsMintOrCreateInput(o);
      assert o in Spends(t.ins);
      assert cb in order && Spends(cb.ins) == [];
      assert t !in before;
    }
  }

  lemma NotBefore(db: Coins, order: seq<Tx>, before: seq<Tx>, after: seq<Tx>, cb: Tx, height: int, o: OutPoint)
    requires order == before + [cb] + after && Unspent(db, order, cb, height) && o.hash == cb.hash && o !in db
    requires forall t :: t in order && t != cb ==> t.hash != cb.hash
    requires forall i, j :: 0 <= i < j < |order| ==> order[i] != order[j]
    ensures !SpentBy(before, o)
  {
    hide Unspent, ApplyAll, SpentBy;
    UnspentPrefix(db, order, |before|, cb, height);
    assert order[..|before|] == before;
    forall i, j | 0 <= i < j < |before|
      ensures before[i] != before[j]
    {
      assert order[i] == before[i] && order[j] == before[j];
    }
    forall i | 0 <= i < |before|
      ensures before[i] != cb
    {
      assert order[i] == before[i] && order[|before|] == cb;
    }
    CoinbaseCoins(db, before, cb, height, o);
  }

  /** Coinbase outputs come back exactly if a virtual transaction of their block spends one. */
  lemma NothingRevived(db: Coins, txs: seq<Tx>, vtxs: seq<Tx>, height: int, a: Asset)
    requires Connectable(db, txs, vtxs, height)
    ensures 0 <= RevivedBy(db, txs, vtxs, height, a)
    ensures RevivedBy(db, txs, vtxs, height, a) == 0 <==> !SpendsCoinbase(vtxs, txs[|txs| - 1], a)
  {
    HasCoinbase(db, txs, vtxs, height);
    hide ApplyAll, Unspent, ConnectOrder, Kept, CoinOf, SpentBy, Revived;
    Distinct(db, txs, vtxs, height);
    hide BlockShape, Tagged, Fresh;
    var cb, order := txs[|txs| - 1], ConnectOrder(txs, vtxs, 0, 0);
    var r := ApplyAll(db, order, cb, height);
    forall i | 0 <= i < |cb.outs|
      ensures Returns(r, cb, i, a) <==> cb.outs[i].asset == a && SpentBy(vtxs, OutPoint(cb.hash, i))
    {
      CoinbaseCoins(db, order, cb, height, OutPoint(cb.hash, i));
      OnlyVirtual(db, txs, vtxs, height, OutPoint(cb.hash, i));
    }
    RevivedZero(r, cb, |cb.outs|, a);
  }

  /** Values that were checked are not negative, so nothing is burned that was not paid. */
  lemma {:induction false} BurnedSane(l: Coins, ts: seq<Tx>, vtxs: seq<Tx>, cb: Tx, height: int, f: Reader, a: Asset)
    requires Reads(f) && V.AllSane(Ordinary(l, ts, vtxs, cb, height, f)) && C.SaneOutputs(Paying(cb, f))
    ensures 0 <= BurnedBy(ts, vtxs, a)
  {
    hide C.SaneOutputs, ApplyAll, Burned;
    if ts != [] {
      var init, t := ts[..|ts| - 1], ts[|ts| - 1];
      var before, all := Ordinary(l, init, vtxs, cb, height, f), Ordinary(l, ts, vtxs, cb, height, f);
      forall i | 0 <= i < |before|
        ensures C.SaneOutputs(before[i].outs)
      {
        assert before[i] == all[i];
      }
      BurnedSane(l, init, vtxs, cb, height, f, a);
      if t !in vtxs {
        assert t != cb ==> all[|before|].outs == Paying(t, f);
        BurnedOne(t, f, a);
      }
    }
  }

  lemma BurnedOne(t: Tx, f: Reader, a: Asset)
    requires Reads(f) && C.SaneOutputs(Paying(t, f))
    ensures 0 <= Burned(t, a)
  {
    forall i | 0 <= i < |t.outs|
      ensures 0 <= t.outs[i].value
    {
      assert C.SaneValue(Paying(t, f)[i]);
    }
    BurnedUpTo(t, |t.outs|, a);
  }

  /**
   A block whose values were accepted: of a divisible asset, no more than the subsidy, what the virtual
   transactions make and the coinbase outputs that come back is added to what circulates; and exactly that
   if and only if nothing is burned and what is due fits signed 64 bits.
   */
  lemma AcceptedWorth(db: Coins, txs: seq<Tx>, vtxs: seq<Tx>, height: nat, f: Reader, interval: nat, maturity: int,
                      pool: set<Asset>, a: Asset)
    requires Connectable(db, txs, vtxs, height) && Reads(f) && !C.IsIndivisible(a)
    requires V.AcceptedBlock(Valued(db, txs, vtxs, height, f), interval, maturity, pool)
    ensures var cb, order, block := txs[|txs| - 1], ConnectOrder(txs, vtxs, 0, 0), Valued(db, txs, vtxs, height, f);
            var most := Circulating(db, a) + V.Minted(block, interval, a) +
                VirtualWorth(db, order, vtxs, cb, height, a) + RevivedBy(db, txs, vtxs, height, a);
            var now := Circulating(Connected(db, txs, vtxs, height), a);
            && now <= most
            && (now == most <==> BurnedBy(order, vtxs, a) == 0
                                 && V.Collected(block.txs, a) + V.Minted(block, interval, a) < C.LIMIT)
  {
    hide Circulating, ApplyAll, Connectable, Ordinary, VirtualWorth, BurnedBy, ConnectOrder, V.Accepts, V.AllSane,
        V.Added, V.Minted, RevivedBy, Connected;
    hide C.SaneOutputs;
    HasCoinbase(db, txs, vtxs, height);
    var cb, order, block := txs[|txs| - 1], ConnectOrder(txs, vtxs, 0, 0), Valued(db, txs, vtxs, height, f);
    BlockWorth(db, txs, vtxs, height, f, a);
    BurnedSane(db, order, vtxs, cb, height, f, a);
    AcceptsParts(block, interval, maturity, pool);
    V.BlockConserves(block, interval, maturity, a);
  }

  lemma AcceptsParts(block: V.Block, interval: nat, maturity: int, pool: set<Asset>)
    requires V.Accepts(block, interval, maturity, pool)
    ensures V.AllPass(block.txs, block.height, maturity) && V.PaysDue(block, interval)
  {
  }

  // ------------------------------------------------------------------ a coinbase output stored after it was spent

  const REWARD: Output := Output(C.BASE_SUBSIDY, [], C.ASIMOV, false)

  const PAID: Tx := Tx(1, [OutPoint(0, MAX_UINT32)], [REWARD], 0, None)

  /** A virtual transaction that moves the reward of its own block. */
  const MOVED: Tx := Tx(2, [OutPoint(1, 0)], [REWARD], 0, None)

  function ReadPlainly(o: Output): C.Output { C.Output(o.value, o.asset, false, false) }

  lemma MovedOrder()
    ensures ConnectOrder([PAID], [MOVED], 0, 0) == [PAID, MOVED]
    ensures Spends(PAID.ins) == [] && Spends(MOVED.ins) == [OutPoint(1, 0)]
  {
    assert ConnectOrder([PAID], [MOVED], 1, 1) == [];
    assert PAID.ins[..0] == [] && MOVED.ins[..0] == [];
  }

  lemma MovedLedger()
    ensures ApplyAll(map[], [], PAID, 1) == map[]
    ensures ApplyAll(map[], [PAID], PAID, 1) == map[OutPoint(1, 0) := CoinOf(PAID, 0, true, 1)]
    ensures ApplyAll(map[], [PAID, MOVED], PAID, 1) == map[OutPoint(2, 0) := CoinOf(MOVED, 0, false, 1)]
    ensures Created(PAID, true, 1) == map[OutPoint(1, 0) := CoinOf(PAID, 0, true, 1)]
  {
    hide CoinOf;
    MovedOrder();
    assert OutPoints(PAID) == {OutPoint(1, 0)} && OutPoints(MOVED) == {OutPoint(2, 0)};
    assert [PAID][..0] == [] && [PAID, MOVED][..1] == [PAID];
    assert Apply(map[], PAID, PAID, 1) == map[OutPoint(1, 0) := CoinOf(PAID, 0, true, 1)];
  }

  lemma MovedConnectable()
    ensures Connectable(map[], [PAID], [MOVED], 1)
  {
    MovedOrder();
    MovedLedger();
    hide ConnectOrder, ApplyAll, Spends, CoinOf, Created;
    assert [PAID][..0] == [] && [PAID, MOVED][..1] == [PAID];
    assert Unspent(map[], [PAID], PAID, 1);
  }

  lemma MovedAccepted()
    ensures V.AcceptedBlock(Valued(map[], [PAID], [MOVED], 1, ReadPlainly), 5, 0, {})
  {
    MovedOrder();
    var block := Valued(map[], [PAID], [MOVED], 1, ReadPlainly);
    hide ConnectOrder, ApplyAll, Spends;
    assert [PAID][..0] == [] && [PAID, MOVED][..1] == [PAID];
    assert Ordinary(map[], [PAID], [MOVED], PAID, 1, ReadPlainly) == [];
    assert block.txs == [] && block.coinbase == [ReadPlainly(REWARD)];
    RewardPaid(block);
  }

  lemma RewardPaid(block: V.Block)
    requires block == V.Block(1, [], [ReadPlainly(REWARD)])
    ensures V.AcceptedBlock(block, 5, 0, {})
  {
    hide C.Of, Sum, C.Outputs, V.Collected;
    forall a: Asset
      ensures V.PaysDueAt(block, 5, a) && Sum(C.Of(C.Outputs(block.coinbase), a)) <= C.MAX_XING
    {
      NoWorth(a);
      NothingApplied(map[], PAID, 1, a);
      V.NobodyYet(a);
      assert [] + [ReadPlainly(REWARD)] == block.coinbase;
      C.OutputGrow([], ReadPlainly(REWARD), a);
      RewardItems(a);
    }
  }

  lemma RewardItems(a: Asset)
    ensures C.Of(C.Outputs([ReadPlainly(REWARD)]), a) == if a == C.ASIMOV then [C.BASE_SUBSIDY] else []
  {
  }

  /**
   The reward of this accepted block is spent by the block's own virtual transaction, and stored all the
   same: twice the subsidy circulates.
   */
  lemma RewardTwice()
    ensures Connectable(map[], [PAID], [MOVED], 1) && Reads(ReadPlainly)
    ensures V.AcceptedBlock(Valued(map[], [PAID], [MOVED], 1, ReadPlainly), 5, 0, {})
    ensures Circulating(map[], C.ASIMOV) == 0
    ensures Circulating(Connected(map[], [PAID], [MOVED], 1), C.ASIMOV) == 2 * C.BASE_SUBSIDY
  {
    MovedConnectable();
    MovedAccepted();
    MovedOrder();
    MovedLedger();
    hide ConnectOrder, ApplyAll, Created, Connectable, V.AcceptedBlock, Valued;
    var o, p := OutPoint(2, 0), OutPoint(1, 0);
    var c, d := CoinOf(MOVED, 0, false, 1), CoinOf(PAID, 0, true, 1);
    CirculatingAdd(map[], o, c, C.ASIMOV);
    CirculatingAdd(map[o := c], p, d, C.ASIMOV);
    assert map[o := c] + map[p := d] == map[o := c][p := d];
  }

  // ------------------------------------------------------------------ a chain

  /** A block of the chain: its transactions, the virtual ones, and the fee assets. */
  datatype StoredBlock = StoredBlock(txs: seq<Tx>, vtxs: seq<Tx>, pool: set<Asset>)

  function Coinbase(b: StoredBlock): Tx
    requires |b.txs| > 0
  {
    b.txs[|b.txs| - 1]
  }

  function Order(b: StoredBlock): seq<Tx> { ConnectOrder(b.txs, b.vtxs, 0, 0) }

  ghost predicate HaveTxs(chain: seq<StoredBlock>) {
    forall i :: 0 <= i < |chain| ==> |chain[i].txs| > 0
  }

  /** The stored set after the blocks, the first of which has height 1. */
  function Stored(db: Coins, chain: seq<StoredBlock>): Coins
    requires HaveTxs(chain)
  {
    if chain == [] then db
    else
      var n := |chain| - 1;
      Connected(Stored(db, chain[..n]), chain[n].txs, chain[n].vtxs, n + 1)
  }

  /** Every block can be connected where it stands, and its values are accepted there. */
  ghost predicate Checks(db: Coins, chain: seq<StoredBlock>, f: Reader, interval: nat, maturity: int)
    requires HaveTxs(chain)
  {
    chain == [] ||
    (var n := |chain| - 1;
     var b, l := chain[n], Stored(db, chain[..n]);
     && Checks(db, chain[..n], f, interval, maturity)
     && Connectable(l, b.txs, b.vtxs, n + 1)
     && V.AcceptedBlock(Valued(l, b.txs, b.vtxs, n + 1, f), interval, maturity, b.pool))
  }

  function VirtualChange(db: Coins, chain: seq<StoredBlock>, a: Asset): int
    requires HaveTxs(chain)
  {
    if chain == [] then 0
    else
      var n := |chain| - 1;
      var b, l := chain[n], Stored(db, chain[..n]);
      VirtualChange(db, chain[..n], a) + VirtualWorth(l, Order(b), b.vtxs, Coinbase(b), n + 1, a)
  }

  /** All the coinbase outputs that came back after they were spent. */
  function RevivedIn(db: Coins, chain: seq<StoredBlock>, a: Asset): int
    requires HaveTxs(chain)
  {
    if chain == [] then 0
    else
      var n := |chain| - 1;
      var b, l := chain[n], Stored(db, chain[..n]);
      RevivedIn(db, chain[..n], a) + RevivedBy(l, b.txs, b.vtxs, n + 1, a)
  }

  /** The most that can circulate: what is stored at first, the subsidies, and what virtual transactions did. */
  ghost function Most(db: Coins, chain: seq<StoredBlock>, interval: nat, a: Asset): int
    requires HaveTxs(chain)
  {
    Circulating(db, a) + (if a == C.ASIMOV then V.Rewarded(|chain|, interval) else 0) + VirtualChange(db, chain, a)
      + RevivedIn(db, chain, a)
  }

  /** Whatever is stored at first, the subsidies and the virtual transactions bound what is added to it. */
  lemma {:induction false} ChainWorth(db: Coins, chain: seq<StoredBlock>, f: Reader, interval: nat, maturity: int,
                                      a: Asset)
    requires HaveTxs(chain)
    requires Checks(db, chain, f, interval, maturity) && Reads(f) && !C.IsIndivisible(a)
    ensures Circulating(Stored(db, chain), a) <= Most(db, chain, interval, a)
  {
    hide Circulating, ApplyAll, Connectable, VirtualWorth, Connected, V.AcceptedBlock, Valued, Reads, RevivedBy,
        V.CalcBlockSubsidy;
    if chain != [] {
      var n := |chain| - 1;
      var b, l := chain[n], Stored(db, chain[..n]);
      ChainWorth(db, chain[..n], f, interval, maturity, a);
      AcceptedWorth(l, b.txs, b.vtxs, n + 1, f, interval, maturity, b.pool, a);
      BlockHeight(l, b.txs, b.vtxs, n + 1, f);
    }
  }

  lemma BlockHeight(l: Coins, txs: seq<Tx>, vtxs: seq<Tx>, height: nat, f: Reader)
    requires |txs| > 0
    ensures Valued(l, txs, vtxs, height, f).height == height
  {
  }

  /** Nothing comes back exactly if no block has a virtual transaction that spends the block's coinbase. */
  lemma {:induction false} ChainRests(db: Coins, chain: seq<StoredBlock>, f: Reader, interval: nat, maturity: int,
                                      a: Asset)
    requires HaveTxs(chain) && Checks(db, chain, f, interval, maturity)
    ensures 0 <= RevivedIn(db, chain, a)
    ensures RevivedIn(db, chain, a) == 0 <==> CoinbasesRest(chain, a)
  {
    hide Connectable, V.AcceptedBlock, Valued, RevivedBy, SpendsCoinbase, Connected, CoinbasesRest, Stored;
    CoinbasesRestNext(chain, a);
    if chain != [] {
      var n := |chain| - 1;
      var b, l := chain[n], Stored(db, chain[..n]);
      ChainRests(db, chain[..n], f, interval, maturity, a);
      NothingRevived(l, b.txs, b.vtxs, n + 1, a);
    }
  }

  ghost predicate CoinbasesRest(chain: seq<StoredBlock>, a: Asset)
    requires HaveTxs(chain)
  {
    forall i :: 0 <= i < |chain| ==> !SpendsCoinbase(chain[i].vtxs, Coinbase(chain[i]), a)
  }

  lemma CoinbasesRestNext(chain: seq<StoredBlock>, a: Asset)
    requires HaveTxs(chain)
    ensures chain == [] ==> CoinbasesRest(chain, a)
    ensures chain != [] ==>
      var n := |chain| - 1;
      CoinbasesRest(chain, a) <==> CoinbasesRest(chain[..n], a) && !SpendsCoinbase(chain[n].vtxs, Coinbase(chain[n]), a)
  {
    hide SpendsCoinbase;
    if chain != [] {
      var init := chain[..|chain| - 1];
      assert forall i :: 0 <= i < |init| ==> init[i] == chain[i];
    }
  }

  /** connectBlock, block by block, and what then circulates. */
  method ConnectChain(view: UtxoViewpoint, db: Coins, chain: seq<StoredBlock>,
                      ghost f: Reader, ghost interval: nat, ghost maturity: int)
    returns (db': Coins)
    requires HaveTxs(chain)
    requires Synced(view.entries, db) && Checks(db, chain, f, interval, maturity) && Reads(f)
    modifies view
    ensures Synced(view.entries, db') && db' == Stored(db, chain)
    ensures forall a: Asset :: !C.IsIndivisible(a) ==> Circulating(db', a) <= Most(db, chain, interval, a)
  {
    hide Circulating, ApplyAll, Connectable, VirtualWorth, Connected, V.AcceptedBlock, Valued, Reads, Synced, Most;
    db' := db;
    assert chain[..0] == [];
    for i := 0 to |chain|
      invariant Synced(view.entries, db') && db' == Stored(db, chain[..i])
    {
      ChecksAt(db, chain, i + 1, f, interval, maturity);
      assert chain[..i + 1][..i] == chain[..i];
      var ok, stxos;
      ok, db', stxos := ConnectBlock(view, db', chain[i].txs, chain[i].vtxs, i + 1);
    }
    assert chain[..|chain|] == chain;
    forall a: Asset | !C.IsIndivisible(a)
      ensures Circulating(db', a) <= Most(db, chain, interval, a)
    {
      ChainWorth(db, chain, f, interval, maturity, a);
    }
  }

  lemma {:induction false} ChecksAt(db: Coins, chain: seq<StoredBlock>, k: nat, f: Reader, interval: nat, maturity: int)
    requires k <= |chain| && HaveTxs(chain) && Checks(db, chain, f, interval, maturity)
    ensures Checks(db, chain[..k], f, interval, maturity)
    decreases |chain|
  {
    hide Connectable, V.AcceptedBlock, Valued, Stored;
    if k < |chain| {
      var init := chain[..|chain| - 1];
      ChecksAt(db, init, k, f, interval, maturity);
      assert init[..k] == chain[..k];
    } else {
      assert chain[..k] == chain;
    }
  }
}
