/**
 Connecting and disconnecting a whole block (connectTransactions, disconnectTransactions and
 fetchInputUtxos in blockchain/utxoviewpoint.go).
 */
module Connecting {
  import opened Common
  import opened Ledger
  import opened BlockOrder
  import opened UtxoView

  /** The shape of an accepted block: the coinbase comes last, and no other transaction mints. */
  ghost predicate BlockShape(txs: seq<Tx>, vtxs: seq<Tx>) {
    && |txs| > 0 && IsCoinBase(txs[|txs| - 1])
    && (forall i :: 0 <= i < |txs| - 1 ==>
          !IsCoinBase(txs[i]) && WellFormed(txs[i]) && Spends(txs[i].ins) == txs[i].ins)
    && (forall v :: v in vtxs ==> v.owner.None?)
    && (forall t, v :: t in txs && v in vtxs ==> t.hash != v.hash)
  }

  /** Every input of the block that the ledger has is in the view. */
  ghost predicate InputsLoaded(txs: seq<Tx>, l: Coins, e: Entries) {
    forall i, o :: 0 <= i < |txs| - 1 && o in txs[i].ins && o in l ==> o in e
  }

  /** The ledger after a block: updateFeeLockItems adds the outputs of the coinbase once more. */
  function Connected(l: Coins, txs: seq<Tx>, vtxs: seq<Tx>, height: int): Coins
    requires |txs| > 0
  {
    var cb := txs[|txs| - 1];
    ApplyAll(l, ConnectOrder(txs, vtxs, 0, 0), cb, height) + Created(cb, true, height)
  }

  /** A virtual transaction: fails exactly when it cannot be paid for. */
  method ConnectVirtual(view: UtxoViewpoint, db: Coins, vtx: Tx, height: int, ghost cb: Tx)
    returns (ok: bool, r: seq<Coin>)
    requires Clean(view.entries, db) && vtx.owner.None? && vtx != cb
    modifies view
    ensures Clean(view.entries, db) && view.entries.Keys >= old(view.entries.Keys)
    ensures ok <==> Payable(old(Effective(view.entries, db)), vtx)
    ensures ok ==> r == CoinsAt(old(Effective(view.entries, db)), Spends(vtx.ins))
    ensures ok ==> Effective(view.entries, db) == Apply(old(Effective(view.entries, db)), vtx, cb, height)
  {
    assert Plain(vtx) == vtx;
    ghost var l := Effective(view.entries, db);
    assert Apply(l, vtx, cb, height) == Remove(l, ToSet(Spends(vtx.ins))) + Created(vtx, false, height);
    hide *;
    view.FetchVtxInputUtxos(db, vtx);
    ok, r := view.SpendVirtual(vtx, db);
    if ok {
      view.AddTxOuts(vtx, false, height, db);
    }
  }

  /** What connecting has done after the transactions in done. */
  ghost predicate Progress(l: Coins, e: Entries, db: Coins, done: seq<Tx>, stxos: seq<Coin>, cb: Tx, height: int) {
    && Clean(e, db) && Unspent(l, done, cb, height)
    && Effective(e, db) == ApplyAll(l, done, cb, height)
    && stxos == Journal(l, done, cb, height)
  }

  lemma ProgressNext(l: Coins, e: Entries, e': Entries, db: Coins, done: seq<Tx>, t: Tx, stxos: seq<Coin>,
                     r: seq<Coin>, cb: Tx, height: int)
    requires Progress(l, e, db, done, stxos, cb, height) && Clean(e', db) && Payable(Effective(e, db), t)
    requires r == CoinsAt(Effective(e, db), Spends(t.ins)) &&
        Effective(e', db) == Apply(Effective(e, db), t, cb, height)
    ensures Progress(l, e', db, done + [t], stxos + r, cb, height)
  {
    assert (done + [t])[..|done|] == done && (done + [t])[|done|] == t;
    hide Apply, Effective, Clean, Payable, CoinsAt, Spends;
  }

  /** Inputs of a transaction that can be paid for are in the view: loaded, or added by the block. */
  lemma InputsPresent(l: Coins, e0: Entries, e: Entries, db: Coins, t: Tx, txs: seq<Tx>, i: int)
    requires l == Effective(e0, db) && InputsLoaded(txs, l, e0) && e.Keys >= e0.Keys
    requires 0 <= i < |txs| - 1 && t == txs[i] && Spends(t.ins) == t.ins && Payable(Effective(e, db), t)
    ensures Loaded(t.ins, e)
  {
    forall k | 0 <= k < |t.ins|
      ensures t.ins[k] in e
    {
      var o := t.ins[k];
      assert o in Effective(e, db);
      assert o in e0 || o in e || o in l;
    }
  }

  /** The scan of connectTransactions for the virtual transaction of transaction i. */
  method FindVirtual(vtxs: seq<Tx>, vIdx: nat, i: nat) returns (w: nat, found: bool)
    requires vIdx <= |vtxs|
    ensures w == Skip(vtxs, vIdx, i) && (found <==> w < |vtxs| && vtxs[w].version == i)
  {
    w, found := vIdx, false;
    while true
      invariant w <= |vtxs| && Skip(vtxs, w, i) == Skip(vtxs, vIdx, i) && !found
      decreases |vtxs| - w
    {
      if w >= |vtxs| || vtxs[w].version > i {
        break;
      }
      if vtxs[w].version == i {
        found := true;
        break;
      }
      w := w + 1;
    }
  }

  lemma SkipPast(txs: seq<Tx>, vtxs: seq<Tx>, i: nat, w: nat)
    requires i < |txs| && w < |vtxs| && vtxs[w].version == i
    ensures ConnectOrder(txs, vtxs, i + 1, w) == ConnectOrder(txs, vtxs, i + 1, w + 1)
  {
    assert Skip(vtxs, w, i + 1) == Skip(vtxs, w + 1, i + 1);
  }

  /** updateFeeLockItems, as far as the ledger sees it; locks says whether the map of fee locks is not nil. */
  method UpdateFeeLockItems(view: UtxoViewpoint, cb: Tx, height: int, locks: bool, ghost db: Coins)
    requires Clean(view.entries, db)
    modifies view
    ensures Clean(view.entries, db)
    ensures Effective(view.entries, db) ==
      if locks then old(Effective(view.entries, db)) + Created(cb, true, height) else old(Effective(view.entries, db))
  {
    hide *;
    if !locks {
      return;
    }
    ghost var l := Effective(view.entries, db);
    AddingEnds(l, cb, height);
    for i := 0 to |cb.outs|
      invariant Clean(view.entries, db) && Adding(l, Effective(view.entries, db), cb, i, height)
    {
      AddCoinbaseOutput(view, cb, i, height, l, db);
    }
    AddingDone(l, Effective(view.entries, db), cb, height);
  }

  /** The first i coinbase outputs have been added once more. */
  ghost predicate Adding(l: Coins, now: Coins, cb: Tx, i: int, height: int) {
    now == l + CreatedUpTo(cb, i, true, height)
  }

  lemma AddingEnds(l: Coins, cb: Tx, height: int)
    ensures Adding(l, l, cb, 0, height)
  {
    CreatedAll(cb, true, height);
  }

  lemma AddingDone(l: Coins, now: Coins, cb: Tx, height: int)
    requires Adding(l, now, cb, |cb.outs|, height)
    ensures now == l + Created(cb, true, height)
  {
    CreatedAll(cb, true, height);
  }

  method AddCoinbaseOutput(view: UtxoViewpoint, cb: Tx, i: int, height: int, ghost l: Coins, ghost db: Coins)
    requires Clean(view.entries, db) && 0 <= i < |cb.outs| && Adding(l, Effective(view.entries, db), cb, i, height)
    modifies view
    ensures Clean(view.entries, db) && Adding(l, Effective(view.entries, db), cb, i + 1, height)
  {
    CreatedNext(l, cb, i, true, height);
    hide Clean, Effective, CreatedUpTo;
    if cb.outs[i].value > 0 {
      view.AddTxOut(OutPoint(cb.hash, i), cb.outs[i], true, height, db);
    }
  }

  /** Ordinary transactions were checked before: each can be paid for once those before it took effect. */
  ghost predicate Checked(l: Coins, order: seq<Tx>, vtxs: seq<Tx>, cb: Tx, height: int) {
    forall k :: 0 <= k < |order| && order[k] !in vtxs && Unspent(l, order[..k], cb, height) ==>
      Payable(ApplyAll(l, order[..k], cb, height), order[k])
  }

  lemma NextInOrder(l: Coins, order: seq<Tx>, done: seq<Tx>, t: Tx, rest: seq<Tx>, e: Entries, db: Coins,
                    stxos: seq<Coin>, vtxs: seq<Tx>, cb: Tx, height: int)
    requires order == done + ([t] + rest) && Progress(l, e, db, done, stxos, cb, height)
    ensures Clean(e, db) && order == (done + [t]) + rest
    ensures Checked(l, order, vtxs, cb, height) && t !in vtxs ==> Payable(Effective(e, db), t)
    ensures Unspent(l, order, cb, height) ==> Payable(Effective(e, db), t)
  {
    assert order[..|done|] == done && order[|done|] == t;
    hide Payable, Effective, ApplyAll, Clean;
    if Unspent(l, order, cb, height) {
      UnspentPrefix(l, order, |done|, cb, height);
    }
  }

  lemma ReadyToConnect(txs: seq<Tx>, vtxs: seq<Tx>, i: int, l: Coins, e0: Entries, e: Entries, db: Coins)
    requires BlockShape(txs, vtxs) && 0 <= i < |txs| && l == Effective(e0, db) && e.Keys >= e0.Keys
    ensures IsCoinBase(txs[i]) <==> txs[i] == txs[|txs| - 1]
    ensures !IsCoinBase(txs[i]) ==> Spends(txs[i].ins) == txs[i].ins && WellFormed(txs[i])
    ensures InputsLoaded(txs, l, e0) && Payable(Effective(e, db), txs[i]) ==>
              IsCoinBase(txs[i]) || Loaded(txs[i].ins, e)
  {
    if i < |txs| - 1 && InputsLoaded(txs, l, e0) && Payable(Effective(e, db), txs[i]) {
      InputsPresent(l, e0, e, db, txs[i], txs, i);
    }
  }

  /** One ordinary transaction of the block. */
  method ConnectOne(view: UtxoViewpoint, db: Coins, txs: seq<Tx>, i: int, height: int, stxos: seq<Coin>,
                    ghost l: Coins, ghost e0: Entries, ghost vtxs: seq<Tx>, ghost done: seq<Tx>, ghost cb: Tx,
                    ghost order: seq<Tx>, ghost rest: seq<Tx>)
    returns (ok: bool, r: seq<Coin>)
    requires BlockShape(txs, vtxs) && 0 <= i < |txs| && cb == txs[|txs| - 1] && txs[i] !in vtxs
    requires l == Effective(e0, db) && view.entries.Keys >= e0.Keys
    requires Progress(l, view.entries, db, done, stxos, cb, height) && Checked(l, order, vtxs, cb, height)
    requires order == done + ([txs[i]] + rest)
    modifies view
    ensures view.entries.Keys >= old(view.entries.Keys)
    ensures InputsLoaded(txs, l, e0) ==> ok
    ensures order == (done + [txs[i]]) + rest
    ensures ok ==> Progress(l, view.entries, db, done + [txs[i]], r, cb, height)
  {
    hide *;
    ghost var e := view.entries;
    var t := txs[i];
    ReadyToConnect(txs, vtxs, i, l, e0, e, db);
    NextInOrder(l, order, done, t, rest, e, db, stxos, vtxs, cb, height);
    ok, r := view.ConnectTransaction(t, height, cb, db);
    if ok {
      ProgressNext(l, e, view.entries, db, done, t, stxos, r, cb, height);
      r := stxos + r;
    }
  }

  /** One virtual transaction of the block. */
  method ConnectCaused(view: UtxoViewpoint, db: Coins, vtx: Tx, height: int, stxos: seq<Coin>,
                       ghost l: Coins, ghost done: seq<Tx>, ghost cb: Tx, ghost order: seq<Tx>, ghost rest: seq<Tx>)
    returns (ok: bool, r: seq<Coin>)
    requires vtx.owner.None? && vtx != cb && Progress(l, view.entries, db, done, stxos, cb, height)
    requires order == done + ([vtx] + rest)
    modifies view
    ensures view.entries.Keys >= old(view.entries.Keys)
    ensures ok ==> order == (done + [vtx]) + rest && Progress(l, view.entries, db, done + [vtx], r, cb, height)
    ensures !ok ==> !Unspent(l, order, cb, height)
  {
    hide *;
    ghost var e := view.entries;
    NextInOrder(l, order, done, vtx, rest, e, db, stxos, [], cb, height);
    ok, r := ConnectVirtual(view, db, vtx, height, cb);
    if ok {
      ProgressNext(l, e, view.entries, db, done, vtx, stxos, r, cb, height);
      r := stxos + r;
    }
  }

  /**
   connectTransactions. When the inputs were loaded it fails exactly if a virtual transaction cannot be
   paid for; when it succeeds every spend was of an unspent output, and the journal records each in order.
   */
  method ConnectTransactions(view: UtxoViewpoint, db: Coins, txs: seq<Tx>, vtxs: seq<Tx>, height: int)
    returns (ok: bool, stxos: seq<Coin>)
    requires Clean(view.entries, db) && BlockShape(txs, vtxs)
    requires Checked(Effective(view.entries, db), ConnectOrder(txs, vtxs, 0, 0), vtxs, txs[|txs| - 1], height)
    modifies view
    ensures InputsLoaded(txs, old(Effective(view.entries, db)), old(view.entries)) ==>
      (ok <==> Unspent(old(Effective(view.entries, db)), ConnectOrder(txs, vtxs, 0, 0), txs[|txs| - 1], height))
    ensures ok ==>
      && Unspent(old(Effective(view.entries, db)), ConnectOrder(txs, vtxs, 0, 0), txs[|txs| - 1], height)
      && Clean(view.entries, db)
      && stxos == Journal(old(Effective(view.entries, db)), ConnectOrder(txs, vtxs, 0, 0), txs[|txs| - 1], height)
      && Effective(view.entries, db) == Connected(old(Effective(view.entries, db)), txs, vtxs, height)
  {
    hide *;
    ShapeAt(txs, vtxs);
    ghost var l, e0 := Effective(view.entries, db), view.entries;
    ghost var order, done: seq<Tx>, cb := ConnectOrder(txs, vtxs, 0, 0), [], txs[|txs| - 1];
    stxos := [];
    var vIdx := 0;
    var locks := false;
    NoProgress(l, view.entries, db, cb, height);
    for i := 0 to |txs|
      invariant 0 <= vIdx <= |vtxs| && order == done + ConnectOrder(txs, vtxs, i, vIdx)
      invariant Progress(l, view.entries, db, done, stxos, cb, height) && view.entries.Keys >= e0.Keys
      invariant i == |txs| && !locks ==> cb.outs == []
    {
      ok, stxos, vIdx, done := ConnectStep(view, db, txs, vtxs, i, vIdx, height, stxos, l, e0, order, done, cb);
      if !ok {
        return;
      }
      locks := locks || txs[i].outs != [];  // a map of locks, empty or not, for a transaction with outputs
    }
    FinishedOrder(l, order, done, txs, vtxs, vIdx, view.entries, db, stxos, cb, height);
    UpdateFeeLockItems(view, txs[|txs| - 1], height, locks, db);
    ConnectedMeaning(l, txs, vtxs, height);
    NothingCreated(cb, height);
    ok := true;
  }

  /** A transaction and the virtual transaction it caused, if any. */
  method ConnectStep(view: UtxoViewpoint, db: Coins, txs: seq<Tx>, vtxs: seq<Tx>, i: nat, vIdx0: nat, height: int,
                     stxos0: seq<Coin>, ghost l: Coins, ghost e0: Entries, ghost order: seq<Tx>,
                     ghost done0: seq<Tx>, ghost cb: Tx)
    returns (ok: bool, stxos: seq<Coin>, vIdx: nat, ghost done: seq<Tx>)
    requires BlockShape(txs, vtxs) && cb == txs[|txs| - 1]
    requires i < |txs| && vIdx0 <= |vtxs| && order == done0 + ConnectOrder(txs, vtxs, i, vIdx0)
    requires l == Effective(e0, db) && view.entries.Keys >= e0.Keys && Checked(l, order, vtxs, cb, height)
    requires Progress(l, view.entries, db, done0, stxos0, cb, height)
    modifies view
    ensures vIdx <= |vtxs| && view.entries.Keys >= old(view.entries.Keys)
    ensures ok ==> order == done + ConnectOrder(txs, vtxs, i + 1, vIdx)
    ensures ok ==> Progress(l, view.entries, db, done, stxos, cb, height)
    ensures !ok && InputsLoaded(txs, l, e0) ==> !Unspent(l, order, cb, height)
  {
    ShapeAt(txs, vtxs);
    hide *;
    var w, found := FindVirtual(vtxs, vIdx0, i);
    OrderAt(txs, vtxs, i, vIdx0);
    vIdx, done, stxos := w, done0, stxos0;
    ghost var after := ConnectOrder(txs, vtxs, i + 1, w);
    ghost var rest := if found then [vtxs[w]] + after else after;
    ok, stxos := ConnectOne(view, db, txs, i, height, stxos, l, e0, vtxs, done, cb, order, rest);
    if !ok {
      return;
    }
    done := done + [txs[i]];
    if found {
      ok, stxos := ConnectCaused(view, db, vtxs[w], height, stxos, l, done, cb, order, after);
      done := done + [vtxs[w]];
    }
  }

  lemma ShapeAt(txs: seq<Tx>, vtxs: seq<Tx>)
    requires BlockShape(txs, vtxs)
    ensures |txs| > 0
    ensures forall i :: 0 <= i < |txs| ==> txs[i] !in vtxs
    ensures forall w :: 0 <= w < |vtxs| ==> vtxs[w].owner.None? && vtxs[w] != txs[|txs| - 1]
  {
    assert txs[|txs| - 1] in txs;
    forall w | 0 <= w < |vtxs|
      ensures vtxs[w].owner.None? && vtxs[w] != txs[|txs| - 1]
    {
      assert vtxs[w] in vtxs;
    }
  }

  /** One unfolding of the connection order. */
  lemma OrderAt(txs: seq<Tx>, vtxs: seq<Tx>, i: nat, v: nat)
    requires i < |txs| && v <= |vtxs|
    ensures var w := Skip(vtxs, v, i);
            ConnectOrder(txs, vtxs, i, v) ==
            [txs[i]] + if w < |vtxs| && vtxs[w].version == i then [vtxs[w]] + ConnectOrder(txs, vtxs, i + 1, w)
                       else ConnectOrder(txs, vtxs, i + 1, w)
  {
    var w := Skip(vtxs, v, i);
    if w < |vtxs| && vtxs[w].version == i {
      SkipPast(txs, vtxs, i, w);
      assert [txs[i], vtxs[w]] == [txs[i]] + [vtxs[w]];
    }
  }

  lemma NoProgress(l: Coins, e: Entries, db: Coins, cb: Tx, height: int)
    requires Clean(e, db) && l == Effective(e, db)
    ensures Progress(l, e, db, [], [], cb, height)
  {
  }

  lemma ConnectedMeaning(l: Coins, txs: seq<Tx>, vtxs: seq<Tx>, height: int)
    requires |txs| > 0
    ensures var cb := txs[|txs| - 1];
            Connected(l, txs, vtxs, height) ==
            ApplyAll(l, ConnectOrder(txs, vtxs, 0, 0), cb, height) + Created(cb, true, height)
  {
  }

  lemma NothingCreated(cb: Tx, height: int)
    ensures cb.outs == [] ==> forall l: Coins :: l + Created(cb, true, height) == l
  {
  }

  lemma FinishedOrder(l: Coins, order: seq<Tx>, done: seq<Tx>, txs: seq<Tx>, vtxs: seq<Tx>, v: nat, e: Entries,
                      db: Coins, stxos: seq<Coin>, cb: Tx, height: int)
    requires |txs| > 0 && v <= |vtxs| && order == done + ConnectOrder(txs, vtxs, |txs|, v)
    requires Progress(l, e, db, done, stxos, cb, height)
    ensures done == order && Clean(e, db) && Unspent(l, order, cb, height)
    ensures stxos == Journal(l, order, cb, height) && Effective(e, db) == ApplyAll(l, order, cb, height)
  {
  }

  // ------------------------------------------------------------------ fetchInputUtxos

  /** Outside the block nothing changes; inside it only outputs of the block may appear. */
  ghost predicate OnlyAdds(l: Coins, m: Coins, txs: seq<Tx>) {
    forall o: OutPoint :: Same(m, l, o) || (o in m && KeptByBlock(o, txs))
  }

  /** The position of every transaction of the block. */
  ghost predicate Positions(m: map<Hash, nat>, txs: seq<Tx>, n: int)
    requires 0 <= n <= |txs|
  {
    && (forall h :: h in m ==> m[h] < n && txs[m[h]].hash == h)
    && (forall k :: 0 <= k < n ==> txs[k].hash in m)
  }

  method TxInFlight(txs: seq<Tx>) returns (m: map<Hash, nat>)
    ensures Positions(m, txs, |txs|)
  {
    m := map[];
    for i := 0 to |txs|
      invariant Positions(m, txs, i)
    {
      m := m[txs[i].hash := i];
    }
  }

  lemma AddsOnly(l: Coins, m: Coins, txs: seq<Tx>, j: int, height: int)
    requires 0 <= j < |txs| && OnlyAdds(l, m, txs)
    ensures OnlyAdds(l, m + Created(Plain(txs[j]), false, height), txs)
  {
    var c := Created(Plain(txs[j]), false, height);
    forall o: OutPoint
      ensures Same(m + c, l, o) || (o in m + c && KeptByBlock(o, txs))
    {
      assert Same(m, l, o) || (o in m && KeptByBlock(o, txs));
      if o in c {
        assert Kept(Plain(txs[j]), o);
        assert txs[j] in txs && Kept(txs[j], o);
      }
    }
  }

  /** What the scan knows: outputs still needed are shown by the stored set alone. */
  ghost predicate Scanned(e0: Entries, e: Entries, db: Coins, txs: seq<Tx>, needed: set<OutPoint>) {
    && Clean(e, db) && e.Keys >= e0.Keys && needed !! e0.Keys
    && OnlyAdds(Effective(e0, db), Effective(e, db), txs)
  }

  /** Input o was dealt with: it is in the view, will be fetched, or belongs to the block. */
  ghost predicate Handled(o: OutPoint, e: Entries, needed: set<OutPoint>, txs: seq<Tx>) {
    o in e || o in needed || InBlock(o.hash, txs)
  }

  method ScanInput(view: UtxoViewpoint, txs: seq<Tx>, i: nat, o: OutPoint, inFlight: map<Hash, nat>, height: int,
                   needed: set<OutPoint>, ghost e0: Entries, ghost db: Coins) returns (r: set<OutPoint>)
    requires i < |txs| && Positions(inFlight, txs, |txs|) && Scanned(e0, view.entries, db, txs, needed)
    modifies view
    ensures Scanned(e0, view.entries, db, txs, r) && r >= needed
    ensures view.entries.Keys >= old(view.entries.Keys) && Handled(o, view.entries, r, txs)
  {
    r := needed;
    if o.hash in inFlight && i >= inFlight[o.hash] {
      var j := inFlight[o.hash];
      assert txs[j] in txs;
      AddsOnly(Effective(e0, db), Effective(view.entries, db), txs, j, height);
      hide Clean, Effective, OnlyAdds, Created;
      view.AddTxOuts(txs[j], false, height, db);
    } else if o !in view.entries {
      r := needed + {o};
    }
  }

  lemma StillHandled(s: seq<OutPoint>, e: Entries, needed: set<OutPoint>, txs: seq<Tx>, e': Entries,
          needed': set<OutPoint>)
    requires e'.Keys >= e.Keys && needed' >= needed && AllHandled(s, e, needed, txs)
    ensures AllHandled(s, e', needed', txs)
  {
  }

  ghost predicate AllHandled(s: seq<OutPoint>, e: Entries, needed: set<OutPoint>, txs: seq<Tx>) {
    forall k :: 0 <= k < |s| ==> Handled(s[k], e, needed, txs)
  }

  method ScanInputs(view: UtxoViewpoint, txs: seq<Tx>, i: nat, inFlight: map<Hash, nat>, height: int,
                    needed: set<OutPoint>, ghost e0: Entries, ghost db: Coins) returns (r: set<OutPoint>)
    requires i < |txs| && Positions(inFlight, txs, |txs|) && Scanned(e0, view.entries, db, txs, needed)
    modifies view
    ensures Scanned(e0, view.entries, db, txs, r) && r >= needed
    ensures view.entries.Keys >= old(view.entries.Keys) && AllHandled(txs[i].ins, view.entries, r, txs)
  {
    r := needed;
    hide Scanned, Handled, Positions;
    for k := 0 to |txs[i].ins|
      invariant Scanned(e0, view.entries, db, txs, r) && r >= needed
      invariant view.entries.Keys >= old(view.entries.Keys) && AllHandled(txs[i].ins[..k], view.entries, r, txs)
    {
      ghost var e, n := view.entries, r;
      r := ScanInput(view, txs, i, txs[i].ins[k], inFlight, height, r, e0, db);
      StillHandled(txs[i].ins[..k], e, n, txs, view.entries, r);
      assert txs[i].ins[..k + 1] == txs[i].ins[..k] + [txs[i].ins[k]];
    }
    assert txs[i].ins[..|txs[i].ins|] == txs[i].ins;
  }

  /**
   fetchInputUtxos: afterwards every input is in the view or names a transaction of the block, and the
   ledger has changed by nothing but outputs of the block.
   */
  method FetchInputUtxos(view: UtxoViewpoint, db: Coins, txs: seq<Tx>, height: int)
    requires Clean(view.entries, db) && |txs| > 0
    modifies view
    ensures Clean(view.entries, db) && view.entries.Keys >= old(view.entries.Keys)
    ensures OnlyAdds(old(Effective(view.entries, db)), Effective(view.entries, db), txs)
    ensures forall i :: 0 <= i < |txs| - 1 ==> AllHandled(txs[i].ins, view.entries, {}, txs)
  {
    ghost var e0 := view.entries;
    var inFlight := TxInFlight(txs);
    var needed: set<OutPoint> := {};
    hide Handled, Clean, Effective, OnlyAdds, Positions;
    assert OnlyAdds(Effective(e0, db), Effective(e0, db), txs) by { NoAdds(Effective(e0, db), txs); }
    for i := 0 to |txs| - 1
      invariant Scanned(e0, view.entries, db, txs, needed)
      invariant forall k :: 0 <= k < i ==> AllHandled(txs[k].ins, view.entries, needed, txs)
    {
      ghost var e, n := view.entries, needed;
      needed := ScanInputs(view, txs, i, inFlight, height, needed, e0, db);
      forall k | 0 <= k < i
        ensures AllHandled(txs[k].ins, view.entries, needed, txs)
      {
        StillHandled(txs[k].ins, e, n, txs, view.entries, needed);
      }
    }
    ghost var e := view.entries;
    view.FetchUtxosMain(db, needed);
    FetchedAdds(e0, e, view.entries, db, txs, needed);
    forall k | 0 <= k < |txs| - 1
      ensures AllHandled(txs[k].ins, view.entries, {}, txs)
    {
      NowLoaded(txs[k].ins, e, needed, txs, view.entries);
    }
  }

  lemma NoAdds(l: Coins, txs: seq<Tx>)
    ensures OnlyAdds(l, l, txs)
  {
  }

  lemma NowLoaded(s: seq<OutPoint>, e: Entries, needed: set<OutPoint>, txs: seq<Tx>, e': Entries)
    requires AllHandled(s, e, needed, txs) && e'.Keys == e.Keys + needed
    ensures AllHandled(s, e', {}, txs)
  {
  }

  lemma FetchedAdds(e0: Entries, e: Entries, e': Entries, db: Coins, txs: seq<Tx>, needed: set<OutPoint>)
    requires Scanned(e0, e, db, txs, needed)
    requires forall o :: Look(e', db, o) == if o in needed then Look(map[], db, o) else Look(e, db, o)
    ensures OnlyAdds(Effective(e0, db), Effective(e', db), txs)
  {
    var l, m, m' := Effective(e0, db), Effective(e, db), Effective(e', db);
    forall o: OutPoint
      ensures Same(m', l, o) || (o in m' && KeptByBlock(o, txs))
    {
      assert Look(e', db, o) == if o in needed then Look(map[], db, o) else Look(e, db, o);
      if o in needed {
        assert Look(e0, db, o) == Look(map[], db, o);
      } else {
        assert Same(m, l, o) || (o in m && KeptByBlock(o, txs));
      }
    }
  }
}
