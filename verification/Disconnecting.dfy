/**
 Disconnecting a block (disconnectTransactions in blockchain/utxoviewpoint.go), storing the view
 (dbPutUtxoView, Commit), and the theorem that a block connected and disconnected leaves no trace.
 */
module Disconnecting {
  import opened Common
  import opened Ledger
  import opened BlockOrder
  import opened UtxoView
  import opened Connecting

  /** Outputs without value that could be spent are in no stored set the view does not know of. */
  ghost predicate Worthless(t: Tx, e: Entries, db: Coins) {
    forall i :: 0 <= i < |t.outs| && !t.outs[i].unspendable && t.outs[i].value == 0 ==>
      OutPoint(t.hash, i) in e || OutPoint(t.hash, i) !in db
  }

  function SpendableUpTo(t: Tx, k: int): (r: set<OutPoint>) {
    set o | o in OutPoints(t) && o.index < k && !t.outs[o.index].unspendable
  }

  /** Removes the outputs the transaction created. */
  method UndoOutputs(view: UtxoViewpoint, t: Tx, coinbase: bool, height: int, ghost db: Coins)
    requires Clean(view.entries, db) && Worthless(t, view.entries, db)
    modifies view
    ensures Clean(view.entries, db) && view.entries.Keys >= old(view.entries.Keys)
    ensures Effective(view.entries, db) ==
            Remove(old(Effective(view.entries, db)), set o | o in OutPoints(t) && !t.outs[o.index].unspendable)
  {
    ghost var l := Effective(view.entries, db);
    RemoveBounds(l, t);
    hide Clean, Effective, Remove, SpendableUpTo;
    for i := 0 to |t.outs|
      invariant Clean(view.entries, db) && Worthless(t, view.entries, db)
      invariant view.entries.Keys >= old(view.entries.Keys)
      invariant Effective(view.entries, db) == Remove(l, SpendableUpTo(t, i))
    {
      UndoOutput(view, t, i, coinbase, height, l, db);
    }
  }

  method UndoOutput(view: UtxoViewpoint, t: Tx, i: int, coinbase: bool, height: int, ghost l: Coins, ghost db: Coins)
    requires 0 <= i < |t.outs| && Clean(view.entries, db) && Worthless(t, view.entries, db)
    requires Effective(view.entries, db) == Remove(l, SpendableUpTo(t, i))
    modifies view
    ensures Clean(view.entries, db) && view.entries.Keys >= old(view.entries.Keys)
    ensures Effective(view.entries, db) == Remove(l, SpendableUpTo(t, i + 1))
  {
    var o := OutPoint(t.hash, i);
    RemoveMore(l, t, i);
    if t.outs[i].unspendable {
      return;
    }
    if o !in view.entries || view.entries[o].None? {
      var amount := t.outs[i].value;
      if amount == 0 {
        AbsentAlready(view.entries, db, o);
        return;
      }
      hide *;
      view.AddSpent(o, Coin(amount, t.outs[i].script, height, coinbase, t.outs[i].asset), db);
    } else {
      hide *;
      view.Spend(o, db);
    }
  }

  lemma AbsentAlready(e: Entries, db: Coins, o: OutPoint)
    requires (o in e && e[o].None?) || (o !in e && o !in db)
    ensures Remove(Effective(e, db), {o}) == Effective(e, db)
  {
    assert Look(e, db, o) == None;
  }

  lemma RemoveMore(l: Coins, t: Tx, i: int)
    requires 0 <= i < |t.outs|
    ensures Remove(l, SpendableUpTo(t, i + 1)) ==
            if t.outs[i].unspendable then Remove(l, SpendableUpTo(t, i))
            else Remove(Remove(l, SpendableUpTo(t, i)), {OutPoint(t.hash, i)})
  {
    var o := OutPoint(t.hash, i);
    assert SpendableUpTo(t, i + 1) ==
           if t.outs[i].unspendable then SpendableUpTo(t, i) else SpendableUpTo(t, i) + {o};
  }

  lemma RemoveBounds(l: Coins, t: Tx)
    ensures Remove(l, SpendableUpTo(t, 0)) == l
    ensures SpendableUpTo(t, |t.outs|) == set o | o in OutPoints(t) && !t.outs[o.index].unspendable
  {
  }

  /** Brings back the outputs the transaction spent, last input first; rest are the records still unused. */
  method UndoInputs(view: UtxoViewpoint, t: Tx, stxos: seq<Coin>, n: nat, ghost db: Coins) returns (rest: nat)
    requires Clean(view.entries, db) && |Spends(t.ins)| <= n <= |stxos|
    modifies view
    ensures Clean(view.entries, db) && view.entries.Keys >= old(view.entries.Keys)
    ensures rest == n - |Spends(t.ins)|
    ensures Effective(view.entries, db) == Restore(old(Effective(view.entries, db)), Spends(t.ins), stxos[rest..n])
  {
    hide *;
    ghost var l := Effective(view.entries, db);
    ghost var coins := stxos[n - |Spends(t.ins)|..n];
    rest := n;
    var k := |t.ins|;
    RestoreStart(l, t.ins, coins);
    while k > 0
      invariant 0 <= k <= |t.ins| && Clean(view.entries, db) && view.entries.Keys >= old(view.entries.Keys)
      invariant rest == n - |Spends(t.ins)| + |Spends(t.ins[..k])|
      invariant Restoring(l, t.ins, k, coins, Effective(view.entries, db))
    {
      k := k - 1;
      rest := UndoInput(view, t.ins, k, stxos, rest, l, coins, n - |Spends(t.ins)|, db);
    }
    RestoreEnd(l, t.ins, coins, Effective(view.entries, db));
  }

  /** Input k; base is where the records of the transaction begin. */
  method UndoInput(view: UtxoViewpoint, ins: seq<OutPoint>, k: nat, stxos: seq<Coin>, n: nat,
                   ghost l: Coins, ghost coins: seq<Coin>, ghost base: nat, ghost db: Coins) returns (rest: nat)
    requires k < |ins| && Clean(view.entries, db) && Restoring(l, ins, k + 1, coins, Effective(view.entries, db))
    requires base + |coins| <= |stxos| && coins == stxos[base..base + |coins|]
    requires n == base + |Spends(ins[..k + 1])|
    modifies view
    ensures Clean(view.entries, db) && view.entries.Keys >= old(view.entries.Keys)
    ensures Restoring(l, ins, k, coins, Effective(view.entries, db)) && rest == base + |Spends(ins[..k])|
  {
    hide *;
    SpendsLast(ins, k);
    RestoreStep(l, ins, k, coins, Effective(view.entries, db));
    rest := n;
    if !IsMintOrCreateInput(ins[k]) {
      rest := rest - 1;
      view.Update(ins[k], stxos[rest], db);
    }
  }

  /** Bringing back the spends of the first k inputs completes the restoration. */
  ghost predicate Restoring(l: Coins, ins: seq<OutPoint>, k: int, coins: seq<Coin>, now: Coins)
    requires 0 <= k <= |ins|
  {
    && |coins| == |Spends(ins)| && |Spends(ins[..k])| <= |coins|
    && Restore(l, Spends(ins), coins) == Restore(now, Spends(ins[..k]), coins[..|Spends(ins[..k])|])
  }

  lemma RestoreStart(l: Coins, ins: seq<OutPoint>, coins: seq<Coin>)
    requires |coins| == |Spends(ins)|
    ensures Restoring(l, ins, |ins|, coins, l)
    ensures |Spends(ins[..|ins|])| == |Spends(ins)| && |Spends(ins[..0])| == 0
  {
    assert ins[..|ins|] == ins && coins[..|coins|] == coins;
  }

  lemma RestoreStep(l: Coins, ins: seq<OutPoint>, k: int, coins: seq<Coin>, now: Coins)
    requires 0 <= k < |ins| && Restoring(l, ins, k + 1, coins, now)
    ensures IsMintOrCreateInput(ins[k]) ==> Restoring(l, ins, k, coins, now)
    ensures !IsMintOrCreateInput(ins[k]) ==>
      |Spends(ins[..k])| < |coins| && Restoring(l, ins, k, coins, now[ins[k] := coins[|Spends(ins[..k])|]])
  {
    SpendsLast(ins, k);
    var s := Spends(ins[..k]);
    hide Spends;
    if IsMintOrCreateInput(ins[k]) {
      assert s + [] == s;
    } else {
      RestoreLast(now, s, ins[k], coins);
    }
  }

  lemma RestoreEnd(l: Coins, ins: seq<OutPoint>, coins: seq<Coin>, now: Coins)
    requires Restoring(l, ins, 0, coins, now)
    ensures now == Restore(l, Spends(ins), coins)
  {
  }

  lemma SpendsLast(ins: seq<OutPoint>, k: int)
    requires 0 <= k < |ins|
    ensures Spends(ins[..k + 1]) == Spends(ins[..k]) + if IsMintOrCreateInput(ins[k]) then [] else [ins[k]]
  {
    assert ins[..k + 1][..k] == ins[..k];
  }

  lemma RestoreLast(l: Coins, s: seq<OutPoint>, o: OutPoint, coins: seq<Coin>)
    requires |s| < |coins|
    ensures Restore(l, s + [o], coins[..|s| + 1]) == Restore(l[o := coins[|s|]], s, coins[..|s|])
  {
    assert (s + [o])[..|s|] == s && coins[..|s| + 1][..|s|] == coins[..|s|];
  }

  // ------------------------------------------------------------------ the number of journal records

  /** countSpentOutputs. */
  method CountSpentOutputs(txs: seq<Tx>, ghost vtxs: seq<Tx>) returns (n: nat)
    requires BlockShape(txs, vtxs)
    ensures n == CountSpends(txs)
  {
    n := 0;
    for i := 0 to |txs| - 1
      invariant n == CountSpends(txs[..i])
    {
      assert txs[..i + 1][..i] == txs[..i];
      n := n + |txs[i].ins|;
    }
    ApplyParts(map[], txs[|txs| - 1], txs[|txs| - 1], 0);
  }

  /** countVtxSpentOutpus. */
  method CountVtxSpentOutputs(vtxs: seq<Tx>) returns (n: nat)
    ensures n == CountSpends(vtxs)
  {
    n := 0;
    for i := 0 to |vtxs|
      invariant n == CountSpends(vtxs[..i])
    {
      var ins := vtxs[i].ins;
      ghost var before := n;
      for k := 0 to |ins|
        invariant n == before + |Spends(ins[..k])|
      {
        SpendsLast(ins, k);
        if IsMintOrCreateInput(ins[k]) {
          continue;
        }
        n := n + 1;
      }
      assert ins[..|ins|] == ins && vtxs[..i + 1][..i] == vtxs[..i];
    }
    assert vtxs[..|vtxs|] == vtxs;
  }

  lemma {:induction false} CountFirst(t: Tx, s: seq<Tx>)
    ensures CountSpends([t] + s) == |Spends(t.ins)| + CountSpends(s)
  {
    if s == [] {
      assert ([t] + s)[..0] == [];
    } else {
      var init := s[..|s| - 1];
      CountFirst(t, init);
      assert ([t] + s)[..|s|] == [t] + init;
    }
  }

  lemma {:induction false} CountMerged(txs: seq<Tx>, vtxs: seq<Tx>, j: nat, v: nat)
    requires j <= |txs| && v <= |vtxs|
    ensures CountSpends(MergeOrder(txs, vtxs, j, v)) == CountSpends(txs[j..]) + CountSpends(vtxs[v..])
    decreases |txs| - j + |vtxs| - v
  {
    MergeUnfold(txs, vtxs, j, v);
    hide *;
    if v < |vtxs| {
      if j < |txs| && j <= vtxs[v].version {
        CountMerged(txs, vtxs, j + 1, v);
        CountFirst(txs[j], MergeOrder(txs, vtxs, j + 1, v));
        CountFirst(txs[j], txs[j + 1..]);
      } else {
        CountMerged(txs, vtxs, j, v + 1);
        CountFirst(vtxs[v], MergeOrder(txs, vtxs, j, v + 1));
        CountFirst(vtxs[v], vtxs[v + 1..]);
      }
    }
  }

  lemma MergeUnfold(txs: seq<Tx>, vtxs: seq<Tx>, j: nat, v: nat)
    requires j <= |txs| && v <= |vtxs|
    ensures v == |vtxs| ==> MergeOrder(txs, vtxs, j, v) == txs[j..] && CountSpends(vtxs[v..]) == 0
    ensures j < |txs| ==> txs[j..] == [txs[j]] + txs[j + 1..]
    ensures v < |vtxs| ==> vtxs[v..] == [vtxs[v]] + vtxs[v + 1..]
    ensures v < |vtxs| && j < |txs| && j <= vtxs[v].version ==>
              MergeOrder(txs, vtxs, j, v) == [txs[j]] + MergeOrder(txs, vtxs, j + 1, v)
    ensures v < |vtxs| && !(j < |txs| && j <= vtxs[v].version) ==>
              MergeOrder(txs, vtxs, j, v) == [vtxs[v]] + MergeOrder(txs, vtxs, j, v + 1)
  {
    hide Spends;
  }

  // ------------------------------------------------------------------ disconnectTransactions

  /** Undoing the first k transactions completes the undoing of the block. */
  ghost predicate Undoing(l: Coins, ts: seq<Tx>, k: int, stxos: seq<Coin>, now: Coins)
    requires 0 <= k <= |ts|
  {
    && |stxos| == CountSpends(ts) && CountSpends(ts[..k]) <= |stxos|
    && UndoAll(l, ts, stxos) == UndoAll(now, ts[..k], stxos[..CountSpends(ts[..k])])
  }

  lemma UndoingStart(l: Coins, ts: seq<Tx>, stxos: seq<Coin>)
    requires |stxos| == CountSpends(ts)
    ensures Undoing(l, ts, |ts|, stxos, l) && CountSpends(ts[..|ts|]) == |stxos|
  {
    assert ts[..|ts|] == ts && stxos[..|stxos|] == stxos;
  }

  lemma UndoingStep(l: Coins, ts: seq<Tx>, k: int, stxos: seq<Coin>, now: Coins)
    requires 0 <= k < |ts| && Undoing(l, ts, k + 1, stxos, now)
    ensures CountSpends(ts[..k + 1]) == CountSpends(ts[..k]) + |Spends(ts[k].ins)| <= |stxos|
    ensures Undoing(l, ts, k, stxos,
                    Undo(now, ts[k], stxos[CountSpends(ts[..k])..CountSpends(ts[..k + 1])]))
  {
    assert ts[..k + 1][..k] == ts[..k];
    var n, m := CountSpends(ts[..k]), CountSpends(ts[..k + 1]);
    var head := stxos[..m];
    assert head[n..] == stxos[n..m] && head[..n] == stxos[..n];
    hide Undo, Spends;
  }

  lemma UndoingEnd(l: Coins, ts: seq<Tx>, stxos: seq<Coin>, now: Coins)
    requires Undoing(l, ts, 0, stxos, now)
    ensures now == UndoAll(l, ts, stxos)
  {
  }

  ghost predicate AllWorthless(ts: seq<Tx>, e: Entries, db: Coins) {
    forall k :: 0 <= k < |ts| ==> Worthless(ts[k], e, db)
  }

  lemma StillWorthless(ts: seq<Tx>, e: Entries, e': Entries, db: Coins)
    requires AllWorthless(ts, e, db) && e'.Keys >= e.Keys
    ensures AllWorthless(ts, e', db)
  {
    forall k | 0 <= k < |ts|
      ensures Worthless(ts[k], e', db)
    {
      assert Worthless(ts[k], e, db);
    }
  }

  method UndoTransaction(view: UtxoViewpoint, ts: seq<Tx>, k: nat, cb: Tx, height: int, stxos: seq<Coin>, n: nat,
                         ghost l: Coins, ghost db: Coins) returns (rest: nat)
    requires k < |ts| && Clean(view.entries, db) && AllWorthless(ts, view.entries, db)
    requires Undoing(l, ts, k + 1, stxos, Effective(view.entries, db)) && n == CountSpends(ts[..k + 1])
    requires IsCoinBase(cb)
    modifies view
    ensures Clean(view.entries, db) && AllWorthless(ts, view.entries, db)
    ensures Undoing(l, ts, k, stxos, Effective(view.entries, db)) && rest == CountSpends(ts[..k])
  {
    ghost var now, e := Effective(view.entries, db), view.entries;
    UndoingStep(l, ts, k, stxos, now);
    var t := ts[k];
    ghost var n0 := CountSpends(ts[..k]);
    assert Undo(now, t, stxos[n0..n]) ==
           Restore(Remove(now, set o | o in OutPoints(t) && !t.outs[o.index].unspendable), Spends(t.ins), stxos[n0..n]);
    ApplyParts(map[], cb, cb, 0);
    hide Clean, Effective, Undo, Restore, Remove, OutPoints, Undoing, Worthless, CountSpends, Spends, IsCoinBase;
    UndoOutputs(view, t, t == cb, height, db);
    if t == cb {
      rest := n;
      assert stxos[n0..n] == [];
      RestoreNothing(Effective(view.entries, db));
    } else {
      rest := UndoInputs(view, t, stxos, n, db);
    }
    StillWorthless(ts, e, view.entries, db);
  }

  lemma RestoreNothing(l: Coins)
    ensures Restore(l, [], []) == l
  {
  }

  /**
   disconnectTransactions: refuses, leaving the view alone, exactly when the journal does not have one
   record for each spend of the block.
   */
  method DisconnectTransactions(view: UtxoViewpoint, txs: seq<Tx>, vtxs: seq<Tx>, height: int, stxos: seq<Coin>,
                                ghost db: Coins) returns (ok: bool)
    requires Clean(view.entries, db) && BlockShape(txs, vtxs)
    requires AllWorthless(MergeOrder(txs, vtxs, 0, 0), view.entries, db)
    modifies view
    ensures Clean(view.entries, db)
    ensures ok <==> |stxos| == CountSpends(MergeOrder(txs, vtxs, 0, 0))
    ensures !ok ==> view.entries == old(view.entries)
    ensures ok ==> Effective(view.entries, db) ==
                   UndoAll(old(Effective(view.entries, db)), MergeOrder(txs, vtxs, 0, 0), stxos)
  {
    ghost var l := Effective(view.entries, db);
    CountMerged(txs, vtxs, 0, 0);
    assert txs[0..] == txs && vtxs[0..] == vtxs;
    var a := CountSpentOutputs(txs, vtxs);
    var b := CountVtxSpentOutputs(vtxs);
    var cb := txs[|txs| - 1];
    assert IsCoinBase(cb);
    hide *;
    if |stxos| != a + b {
      return false;
    }
    var ts := MergeTxVtx(txs, vtxs);
    var k, rest := |ts|, |stxos|;
    UndoingStart(l, ts, stxos);
    while k > 0
      invariant 0 <= k <= |ts| && Clean(view.entries, db) && AllWorthless(ts, view.entries, db)
      invariant Undoing(l, ts, k, stxos, Effective(view.entries, db)) && rest == CountSpends(ts[..k])
    {
      k := k - 1;
      rest := UndoTransaction(view, ts, k, cb, height, stxos, rest, l, db);
    }
    UndoingEnd(l, ts, stxos, Effective(view.entries, db));
    ok := true;
  }

  // ------------------------------------------------------------------ storing the view

  /** What dbPutUtxoView has stored after visiting the outputs in seen. */
  ghost predicate Stored(e: Entries, db: Coins, db': Coins, seen: set<OutPoint>) {
    forall o: OutPoint :: At(db', o) == if o in seen then Look(e, db, o) else At(db, o)
  }

  function At(l: Coins, o: OutPoint): Option<Coin> {
    if o in l then Some(l[o]) else None
  }

  /** dbPutUtxoView: writing the modified entries turns the stored set into the ledger the view shows. */
  method PutUtxoView(view: UtxoViewpoint, db: Coins) returns (db': Coins)
    requires Clean(view.entries, db)
    ensures db' == Effective(view.entries, db)
  {
    db' := db;
    var left := view.entries.Keys;
    while left != {}
      invariant left <= view.entries.Keys && Stored(view.entries, db, db', view.entries.Keys - left)
    {
      var o :| o in left;
      left := left - {o};
      if view.entries[o].None? || !view.entries[o].value.modified {
        continue;
      }
      var x := view.entries[o].value;
      if x.spent {
        db' := db' - {o};
        continue;
      }
      db' := db'[o := x.coin];
    }
    AllStored(view.entries, db, db');
  }

  lemma AllStored(e: Entries, db: Coins, db': Coins)
    requires Stored(e, db, db', e.Keys)
    ensures db' == Effective(e, db)
  {
    var r := Effective(e, db);
    forall o: OutPoint
      ensures o in db' <==> o in r
      ensures o in db' ==> db'[o] == r[o]
    {
      assert At(db', o) == Look(e, db, o);
    }
  }

  /**
   Commit, after the view was stored: drops what is gone and toggles the modified flag of the rest. An
   entry that was not modified comes out flagged, so it is written once more, but with its stored value:
   the view still shows exactly the stored set.
   */
  method Commit(view: UtxoViewpoint, ghost before: Coins, ghost db: Coins)
    requires Clean(view.entries, before) && db == Effective(view.entries, before)
    modifies view
    ensures Clean(view.entries, db) && Effective(view.entries, db) == db
  {
    var e := view.entries;
    var left := e.Keys;
    while left != {}
      invariant left <= e.Keys && left <= view.entries.Keys
      invariant forall o :: o in left ==> view.entries[o] == e[o]
      invariant forall o :: o in view.entries && o !in left ==>
                  && o in e && e[o].Some? && !(e[o].value.modified && e[o].value.spent)
                  && view.entries[o] == Some(e[o].value.(modified := !e[o].value.modified))
      invariant forall o :: o in e && o !in view.entries ==>
                  e[o].None? || (e[o].value.modified && e[o].value.spent)
    {
      var o :| o in left;
      left := left - {o};
      if e[o].None? || (e[o].value.modified && e[o].value.spent) {
        view.entries := view.entries - {o};
        continue;
      }
      view.entries := view.entries[o := Some(e[o].value.(modified := !e[o].value.modified))];
    }
    Committed(e, view.entries, before, db);
  }

  lemma Committed(e: Entries, f: Entries, before: Coins, db: Coins)
    requires Clean(e, before) && db == Effective(e, before)
    requires forall o :: o in f ==>
               && o in e && e[o].Some? && !(e[o].value.modified && e[o].value.spent)
               && f[o] == Some(e[o].value.(modified := !e[o].value.modified))
    requires forall o :: o in e && o !in f ==> e[o].None? || (e[o].value.modified && e[o].value.spent)
    ensures Clean(f, db) && Effective(f, db) == db
  {
    forall o: OutPoint
      ensures Look(f, db, o) == At(db, o)
    {
      assert Look(e, before, o) == At(db, o);
    }
    forall o | o in f
      ensures f[o].Some? && (f[o].value.modified || (!f[o].value.spent && o in db && db[o] == f[o].value.coin))
    {
      assert Look(e, before, o) == At(db, o);
    }
    AllStored(f, db, db);
  }

  // ------------------------------------------------------------------ no trace

  /** The hypotheses of the theorem: new distinct hashes, increasing tags, unspent inputs. */
  ghost predicate Connectable(db: Coins, txs: seq<Tx>, vtxs: seq<Tx>, height: int) {
    && BlockShape(txs, vtxs) && Tagged(vtxs, 0, 0, |txs|)
    && Fresh(db, ConnectOrder(txs, vtxs, 0, 0))
    && Unspent(db, ConnectOrder(txs, vtxs, 0, 0), txs[|txs| - 1], height)
  }

  /** The view holds nothing that differs from the stored set. */
  ghost predicate Synced(e: Entries, db: Coins) {
    Clean(e, db) && Effective(e, db) == db
  }

  lemma InOrder(txs: seq<Tx>, vtxs: seq<Tx>, o: OutPoint)
    ensures KeptByBlock(o, txs) ==> KeptByBlock(o, ConnectOrder(txs, vtxs, 0, 0))
    ensures InBlock(o.hash, txs) ==> InBlock(o.hash, ConnectOrder(txs, vtxs, 0, 0))
    ensures KeptByBlock(o, txs) ==> InBlock(o.hash, txs)
  {
    if KeptByBlock(o, txs) {
      var t: Tx :| t in txs && Kept(t, o);
    }
    if InBlock(o.hash, txs) {
      var t: Tx :| t in txs && t.hash == o.hash;
      var k :| 0 <= k < |txs| && txs[k] == t;
      TxsInOrder(txs, vtxs, 0, 0, k);
    }
    forall k | 0 <= k < |txs|
      ensures txs[k] in ConnectOrder(txs, vtxs, 0, 0)
    {
      TxsInOrder(txs, vtxs, 0, 0, k);
    }
  }

  /** Loading inputs ahead leaves a ledger that resembles the stored set. */
  lemma LoadedResembles(l: Coins, m: Coins, u: Coins, txs: seq<Tx>, vtxs: seq<Tx>)
    requires OnlyAdds(l, u, txs)
    requires forall o: OutPoint :: o in l && InBlock(o.hash, ConnectOrder(txs, vtxs, 0, 0)) ==>
               KeptByBlock(o, ConnectOrder(txs, vtxs, 0, 0))
    requires forall o: OutPoint :: !InBlock(o.hash, ConnectOrder(txs, vtxs, 0, 0)) ==> Same(l, m, o)
    ensures Resembles(u, m, ConnectOrder(txs, vtxs, 0, 0))
  {
    var order := ConnectOrder(txs, vtxs, 0, 0);
    forall o: OutPoint
      ensures !InBlock(o.hash, order) ==> Same(u, m, o)
      ensures o in u && InBlock(o.hash, order) ==> KeptByBlock(o, order)
    {
      InOrder(txs, vtxs, o);
      assert Same(u, l, o) || (o in u && KeptByBlock(o, txs));
    }
  }

  lemma FreshResembles(db: Coins, u: Coins, txs: seq<Tx>, vtxs: seq<Tx>)
    requires OnlyAdds(db, u, txs) && Fresh(db, ConnectOrder(txs, vtxs, 0, 0))
    ensures Resembles(u, db, ConnectOrder(txs, vtxs, 0, 0))
  {
    forall o: OutPoint
      ensures Same(db, db, o) && (InBlock(o.hash, ConnectOrder(txs, vtxs, 0, 0)) ==> o !in db)
    {
    }
    hide Fresh, OnlyAdds, ConnectOrder;
    LoadedResembles(db, db, u, txs, vtxs);
  }

  lemma ReadyView(db: Coins, e: Entries, e0: Entries, txs: seq<Tx>, vtxs: seq<Tx>, height: int)
    requires Connectable(db, txs, vtxs, height) && Effective(e0, db) == db && e.Keys >= e0.Keys
    requires OnlyAdds(db, Effective(e, db), txs)
    requires forall i :: 0 <= i < |txs| - 1 ==> AllHandled(txs[i].ins, e, {}, txs)
    ensures var u, order, cb := Effective(e, db), ConnectOrder(txs, vtxs, 0, 0), txs[|txs| - 1];
            && InputsLoaded(txs, u, e) && Checked(u, order, vtxs, cb, height) && Unspent(u, order, cb, height)
            && Journal(u, order, cb, height) == Journal(db, order, cb, height)
            && Connected(u, txs, vtxs, height) == Connected(db, txs, vtxs, height)
  {
    var u, order, cb := Effective(e, db), ConnectOrder(txs, vtxs, 0, 0), txs[|txs| - 1];
    FreshResembles(db, u, txs, vtxs);
    hide Effective, OnlyAdds, BlockShape, Tagged, ConnectOrder, Unspent, Checked, Journal, InputsLoaded, Created;
    ApplyResembles(u, db, order, cb, height);
    CheckedWhenUnspent(u, order, vtxs, cb, height);
    LoadedWhenFresh(db, e, txs, vtxs);
  }

  lemma CheckedWhenUnspent(u: Coins, order: seq<Tx>, vtxs: seq<Tx>, cb: Tx, height: int)
    requires Unspent(u, order, cb, height)
    ensures Checked(u, order, vtxs, cb, height)
  {
    forall k | 0 <= k < |order|
      ensures Payable(ApplyAll(u, order[..k], cb, height), order[k])
    {
      UnspentPrefix(u, order, k, cb, height);
    }
  }

  lemma LoadedWhenFresh(db: Coins, e: Entries, txs: seq<Tx>, vtxs: seq<Tx>)
    requires Fresh(db, ConnectOrder(txs, vtxs, 0, 0))
    requires forall i :: 0 <= i < |txs| - 1 ==> AllHandled(txs[i].ins, e, {}, txs)
    ensures InputsLoaded(txs, Effective(e, db), e)
  {
    forall i, o | 0 <= i < |txs| - 1 && o in txs[i].ins && o in Effective(e, db)
      ensures o in e
    {
      var k :| 0 <= k < |txs[i].ins| && txs[i].ins[k] == o;
      assert AllHandled(txs[i].ins, e, {}, txs);
      assert Handled(o, e, {}, txs);
      InOrder(txs, vtxs, o);
    }
  }

  /** connectBlock, as far as the utxo set is concerned. */
  method ConnectBlock(view: UtxoViewpoint, db: Coins, txs: seq<Tx>, vtxs: seq<Tx>, height: int)
    returns (ok: bool, db': Coins, stxos: seq<Coin>)
    requires Synced(view.entries, db) && Connectable(db, txs, vtxs, height)
    modifies view
    ensures ok && Synced(view.entries, db') && db' == Connected(db, txs, vtxs, height)
    ensures stxos == Journal(db, ConnectOrder(txs, vtxs, 0, 0), txs[|txs| - 1], height)
  {
    ghost var e0 := view.entries;
    assert BlockShape(txs, vtxs);
    hide *;
    FetchInputUtxos(view, db, txs, height);
    ReadyView(db, view.entries, e0, txs, vtxs, height);
    ok, stxos := ConnectTransactions(view, db, txs, vtxs, height);
    db' := PutUtxoView(view, db);
    Commit(view, db, db');
  }

  /**
   What is stored after a block: the outputs of the coinbase, and those outputs, old or of the block, that
   no transaction and no virtual transaction of it spends; each with its own coin.
   */
  lemma StoredAfter(db: Coins, txs: seq<Tx>, vtxs: seq<Tx>, height: int, o: OutPoint)
    requires Connectable(db, txs, vtxs, height)
    ensures var cb, after := txs[|txs| - 1], Connected(db, txs, vtxs, height);
            && (o in after <==>
                  MadeBy(cb, o) ||
                  ((o in db || MadeIn(txs, o) || MadeIn(vtxs, o)) && !SpentBy(txs, o) && !SpentBy(vtxs, o)))
            && (o in after && o in db ==> after[o] == db[o])
            && (o in after && o !in db ==> exists t :: (t in txs || t in vtxs) && IsCoin(after[o], t, o, cb, height))
  {
    assert BlockShape(txs, vtxs);
    var cb, order := txs[|txs| - 1], ConnectOrder(txs, vtxs, 0, 0);
    assert Fresh(db, order) && Unspent(db, order, cb, height) && Tagged(vtxs, 0, 0, |txs|);
    assert cb in txs;
    hide *;
    forall t
      ensures t in order <==> t in txs || t in vtxs
    {
      OrderHas(txs, vtxs, t);
    }
    AfterBlock(db, order, cb, height, o);
    ConnectedMeaning(db, txs, vtxs, height);
    SplitOrder(txs, vtxs, order, o);
    CoinbaseAdded(db, order, cb, height, o);
  }

  lemma SplitOrder(txs: seq<Tx>, vtxs: seq<Tx>, order: seq<Tx>, o: OutPoint)
    requires forall t :: t in order <==> t in txs || t in vtxs
    ensures MadeIn(order, o) <==> MadeIn(txs, o) || MadeIn(vtxs, o)
    ensures SpentBy(order, o) <==> SpentBy(txs, o) || SpentBy(vtxs, o)
  {
    hide MadeBy, IsMintOrCreateInput;
    if MadeIn(order, o) {
      var t :| t in order && MadeBy(t, o);
      assert t in txs || t in vtxs;
    }
    if MadeIn(txs, o) {
      var t :| t in txs && MadeBy(t, o);
      assert t in order;
    }
    if MadeIn(vtxs, o) {
      var t :| t in vtxs && MadeBy(t, o);
      assert t in order;
    }
    if SpentBy(order, o) {
      var t :| t in order && o in t.ins && !IsMintOrCreateInput(o);
      assert t in txs || t in vtxs;
    }
    if SpentBy(txs, o) {
      var t :| t in txs && o in t.ins && !IsMintOrCreateInput(o);
      assert t in order;
    }
    if SpentBy(vtxs, o) {
      var t :| t in vtxs && o in t.ins && !IsMintOrCreateInput(o);
      assert t in order;
    }
  }

  lemma CoinbaseAdded(db: Coins, order: seq<Tx>, cb: Tx, height: int, o: OutPoint)
    requires Fresh(db, order) && cb in order
    ensures var r := ApplyAll(db, order, cb, height); var after := r + Created(cb, true, height);
            && (o in after <==> o in r || MadeBy(cb, o))
            && (MadeBy(cb, o) ==> o !in db && IsCoin(after[o], cb, o, cb, height))
            && (o in after && !MadeBy(cb, o) ==> after[o] == r[o])
  {
    hide ApplyAll;
    assert MadeBy(cb, o) <==> Kept(cb, o);
    assert Kept(cb, o) ==> o in OutPoints(cb) by {
      assert Kept(cb, o) ==> o == OutPoint(cb.hash, o.index);
    }
  }

  /** Inside the block the connected ledger holds only what the block created; outside, what applying gives. */
  lemma ConnectedAt(db: Coins, txs: seq<Tx>, vtxs: seq<Tx>, height: int, o: OutPoint)
    requires Connectable(db, txs, vtxs, height)
    ensures var order, l := ConnectOrder(txs, vtxs, 0, 0), Connected(db, txs, vtxs, height);
            && (InBlock(o.hash, order) && o in l ==> KeptByBlock(o, order))
            && (!InBlock(o.hash, order) ==> Same(l, ApplyAll(db, order, txs[|txs| - 1], height), o))
  {
    TxsInOrder(txs, vtxs, 0, 0, |txs| - 1);
    assert Connectable(db, txs, vtxs, height);
    hide Unspent, ConnectOrder, BlockShape, Tagged, ApplyAll, Fresh, InBlock, KeptByBlock, Kept, Same, Created;
    AppliedAt(db, ConnectOrder(txs, vtxs, 0, 0), txs[|txs| - 1], height, o);
  }

  lemma AppliedAt(db: Coins, order: seq<Tx>, cb: Tx, height: int, o: OutPoint)
    requires Fresh(db, order) && cb in order
    ensures var a := ApplyAll(db, order, cb, height);
            var l := a + Created(cb, true, height);
            && (InBlock(o.hash, order) && (o in a || o in l) ==> KeptByBlock(o, order))
            && (!InBlock(o.hash, order) ==> Same(l, a, o) && Same(a, a, o))
  {
    assert order[..|order|] == order;
    var a := ApplyAll(db, order, cb, height);
    if o in a && InBlock(o.hash, order) {
      Origin(db, order, |order|, cb, height, o);
      var j :| 0 <= j < |order| && Kept(order[j], o);
      assert order[j] in order;
    }
    hide ApplyAll, Fresh;
    assert Kept(cb, o) ==> KeptByBlock(o, order) && InBlock(o.hash, order);
  }

  lemma ConnectedWorthless(db: Coins, txs: seq<Tx>, vtxs: seq<Tx>, height: int, e: Entries)
    requires Connectable(db, txs, vtxs, height)
    ensures AllWorthless(ConnectOrder(txs, vtxs, 0, 0), e, Connected(db, txs, vtxs, height))
  {
    var order, l := ConnectOrder(txs, vtxs, 0, 0), Connected(db, txs, vtxs, height);
    hide Connected, Unspent, ConnectOrder, BlockShape, Tagged;
    forall k, i | 0 <= k < |order| && 0 <= i < |order[k].outs| && order[k].outs[i].value == 0
      ensures OutPoint(order[k].hash, i) !in l
    {
      var o := OutPoint(order[k].hash, i);
      assert order[k] in order && InBlock(o.hash, order);
      ConnectedAt(db, txs, vtxs, height, o);
      OneKeeper(db, order, k, o);
    }
  }

  lemma OneKeeper(db: Coins, order: seq<Tx>, k: int, o: OutPoint)
    requires 0 <= k < |order| && Fresh(db, order) && o.hash == order[k].hash
    ensures KeptByBlock(o, order) ==> Kept(order[k], o)
  {
  }

  lemma ConnectedResembles(db: Coins, txs: seq<Tx>, vtxs: seq<Tx>, height: int, u: Coins)
    requires Connectable(db, txs, vtxs, height) && OnlyAdds(Connected(db, txs, vtxs, height), u, txs)
    ensures var order := ConnectOrder(txs, vtxs, 0, 0);
            Resembles(u, ApplyAll(db, order, txs[|txs| - 1], height), order)
  {
    var order, cb := ConnectOrder(txs, vtxs, 0, 0), txs[|txs| - 1];
    var l, m := Connected(db, txs, vtxs, height), ApplyAll(db, order, cb, height);
    forall o: OutPoint
      ensures InBlock(o.hash, order) && o in l ==> KeptByBlock(o, order)
      ensures !InBlock(o.hash, order) ==> Same(l, m, o)
    {
      ConnectedAt(db, txs, vtxs, height, o);
    }
    hide Connected, Unspent, ConnectOrder, BlockShape, Tagged, Fresh, ApplyAll, OnlyAdds, Resembles, Same;
    LoadedResembles(l, m, u, txs, vtxs);
  }

  /** disconnectBlock for a block that was connected on top of the stored set db0. */
  method DisconnectBlock(view: UtxoViewpoint, db: Coins, txs: seq<Tx>, vtxs: seq<Tx>, height: int, stxos: seq<Coin>,
                         ghost db0: Coins) returns (ok: bool, db': Coins)
    requires Synced(view.entries, db) && Connectable(db0, txs, vtxs, height)
    requires db == Connected(db0, txs, vtxs, height)
    requires stxos == Journal(db0, ConnectOrder(txs, vtxs, 0, 0), txs[|txs| - 1], height)
    modifies view
    ensures ok && db' == db0 && Synced(view.entries, db')
  {
    assert BlockShape(txs, vtxs);
    ghost var order, cb := ConnectOrder(txs, vtxs, 0, 0), txs[|txs| - 1];
    OrdersAgree(txs, vtxs);
    assert Fresh(db0, order) && Unspent(db0, order, cb, height);
    hide *;
    FetchInputUtxos(view, db, txs, height);
    ghost var u := Effective(view.entries, db);
    ConnectedWorthless(db0, txs, vtxs, height, view.entries);
    ConnectedResembles(db0, txs, vtxs, height, u);
    UndoRestores(u, db0, order, cb, height);
    ok := DisconnectTransactions(view, txs, vtxs, height, stxos, db);
    db' := PutUtxoView(view, db);
    Commit(view, db, db');
  }

  /** Connecting a block and disconnecting it again restores the stored utxo set exactly. */
  method ConnectThenDisconnect(view: UtxoViewpoint, db: Coins, txs: seq<Tx>, vtxs: seq<Tx>, height: int)
    returns (db': Coins)
    requires Synced(view.entries, db) && Connectable(db, txs, vtxs, height)
    modifies view
    ensures db' == db && Synced(view.entries, db')
  {
    hide *;
    var ok, db1, stxos := ConnectBlock(view, db, txs, vtxs, height);
    ok, db' := DisconnectBlock(view, db1, txs, vtxs, height, stxos, db);
  }
}
