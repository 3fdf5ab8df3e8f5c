/**
 The utxo view (blockchain/utxoviewpoint.go, blockchain/txo): a cache in front of the stored utxo set
 that connecting and disconnecting a block update in place.
 */
module UtxoView {
  import opened Common
  import opened Ledger

  /** An entry of the view, with the flags of txo.UtxoEntry. */
  datatype Entry = Entry(coin: Coin, spent: bool, modified: bool)

  /** The view's map; None is the nil entry of an output that is known to be missing. */
  type Entries = map<OutPoint, Option<Entry>>

  /** What the view shows at an output, on top of the stored set. */
  function Look(e: Entries, db: Coins, o: OutPoint): Option<Coin> {
    if o in e then
      match e[o]
      case None => None
      case Some(x) => if x.spent then None else Some(x.coin)
    else if o in db then Some(db[o])
    else None
  }

  /** The ledger that the view and the stored set make up together. */
  function Effective(e: Entries, db: Coins): (r: Coins)
  {
    map o | o in e.Keys + db.Keys && Look(e, db, o).Some? :: Look(e, db, o).value
  }

  /** Entries that are not flagged as modified agree with the stored set. */
  ghost predicate Clean(e: Entries, db: Coins) {
    forall o :: o in e ==>
      match e[o]
      case None => o !in db
      case Some(x) => x.modified || (!x.spent && o in db && db[o] == x.coin)
  }

  lemma SetLive(e: Entries, db: Coins, o: OutPoint, c: Coin, modified: bool)
    ensures Effective(e[o := Some(Entry(c, false, modified))], db) == Effective(e, db)[o := c]
  {
    SameLook(e, e[o := Some(Entry(c, false, modified))], db, o);
  }

  lemma SetSpent(e: Entries, db: Coins, o: OutPoint, c: Coin, modified: bool)
    ensures Effective(e[o := Some(Entry(c, true, modified))], db) == Remove(Effective(e, db), {o})
  {
    var f := e[o := Some(Entry(c, true, modified))];
    SameLook(e, f, db, o);
    assert Look(f, db, o) == None;
    hide Look;
    forall q: OutPoint
      ensures q in Effective(f, db) <==> q in Effective(e, db) && q != o
    {
      EffectiveAt(e, db, q);
      EffectiveAt(f, db, q);
    }
  }

  lemma EffectiveAt(e: Entries, db: Coins, o: OutPoint)
    ensures o in Effective(e, db) <==> Look(e, db, o).Some?
    ensures o in Effective(e, db) ==> Some(Effective(e, db)[o]) == Look(e, db, o)
  {
  }

  lemma SameLook(e: Entries, f: Entries, db: Coins, o: OutPoint)
    requires f.Keys == e.Keys + {o} && forall q :: q in e && q != o ==> f[q] == e[q]
    ensures forall q :: q != o ==> Look(f, db, q) == Look(e, db, q)
  {
  }

  // ------------------------------------------------------------------ outputs of a transaction

  /** The transaction without the contract that takes over output 0. */
  function Plain(t: Tx): Tx { t.(owner := None) }

  ghost function CreatedUpTo(t: Tx, k: int, coinbase: bool, height: int): Coins {
    var all := Created(t, coinbase, height);
    map o | o in all && o.index < k :: all[o]
  }

  lemma CreatedNext(l: Coins, t: Tx, k: int, coinbase: bool, height: int)
    requires 0 <= k < |t.outs|
    ensures var o := OutPoint(t.hash, k);
            l + CreatedUpTo(t, k + 1, coinbase, height) ==
            if Kept(t, o) then (l + CreatedUpTo(t, k, coinbase, height))[o := CoinOf(t, k, coinbase, height)]
            else l + CreatedUpTo(t, k, coinbase, height)
  {
    var o := OutPoint(t.hash, k);
    CreatedGrows(t, k, coinbase, height);
    hide *;
    var b := CreatedUpTo(t, k, coinbase, height);
    assert l + b[o := CoinOf(t, k, coinbase, height)] == (l + b)[o := CoinOf(t, k, coinbase, height)];
  }

  lemma CreatedGrows(t: Tx, k: int, coinbase: bool, height: int)
    requires 0 <= k < |t.outs|
    ensures var b := CreatedUpTo(t, k, coinbase, height);
            var o := OutPoint(t.hash, k);
            CreatedUpTo(t, k + 1, coinbase, height) == if Kept(t, o) then b[o := CoinOf(t, k, coinbase, height)] else b
  {
    var o := OutPoint(t.hash, k);
    var a, b := CreatedUpTo(t, k + 1, coinbase, height), CreatedUpTo(t, k, coinbase, height);
    forall q: OutPoint
      ensures q in a <==> q in b || (q == o && Kept(t, o))
      ensures q in b ==> a[q] == b[q]
    {
    }
  }

  lemma CreatedAll(t: Tx, coinbase: bool, height: int)
    ensures CreatedUpTo(t, |t.outs|, coinbase, height) == Created(t, coinbase, height)
    ensures CreatedUpTo(t, 0, coinbase, height) == map[]
  {
  }

  /** A transaction the chain accepts has an output, and a script that creates a contract is spendable. */
  predicate WellFormed(t: Tx) {
    |t.outs| > 0 && (t.owner.Some? ==> !t.outs[0].unspendable)
  }

  lemma OwnerTakesOver(l: Coins, t: Tx, height: int)
    requires WellFormed(t)
    ensures l + Created(t, false, height) ==
            if t.outs[0].value > 0 && t.owner.Some?
            then (l + Created(Plain(t), false, height))[OutPoint(t.hash, 0) := CoinOf(t, 0, false, height)]
            else l + Created(Plain(t), false, height)
  {
    var a, b, o := Created(t, false, height), Created(Plain(t), false, height), OutPoint(t.hash, 0);
    OwnerOnly(t, height);
    hide *;
    if t.outs[0].value > 0 && t.owner.Some? {
      assert l + b[o := CoinOf(t, 0, false, height)] == (l + b)[o := CoinOf(t, 0, false, height)];
    }
  }

  lemma OwnerOnly(t: Tx, height: int)
    requires WellFormed(t)
    ensures var b := Created(Plain(t), false, height);
            Created(t, false, height) ==
            if t.outs[0].value > 0 && t.owner.Some? then b[OutPoint(t.hash, 0) := CoinOf(t, 0, false, height)] else b
  {
    var a, b, o := Created(t, false, height), Created(Plain(t), false, height), OutPoint(t.hash, 0);
    forall q: OutPoint
      ensures q in a <==> q in b
      ensures q in a && q != o ==> a[q] == b[q]
    {
      assert Kept(t, q) == Kept(Plain(t), q);
    }
    assert o in a <==> Kept(t, o);
  }

  lemma CoinbasePlain(t: Tx, height: int)
    ensures Created(Plain(t), true, height) == Created(t, true, height)
  {
    assert forall o :: Kept(t, o) == Kept(Plain(t), o);
  }

  /** The first k outputs that enter the ledger are in the view and flagged for storing. */
  ghost predicate Written(t: Tx, k: int, e: Entries) {
    forall o :: Kept(t, o) && o.index < k ==> o in e && e[o].Some? && e[o].value.modified
  }

  ghost predicate Loaded(s: seq<OutPoint>, e: Entries) {
    forall i :: 0 <= i < |s| ==> s[i] in e
  }

  class UtxoViewpoint {
    var entries: Entries

    constructor ()
      ensures entries == map[]
    {
      entries := map[];
    }

    /** Spend: flags the entry at o as spent and modified. */
    method Spend(o: OutPoint, ghost db: Coins)
      requires o in entries && entries[o].Some? && Clean(entries, db)
      modifies this
      ensures Clean(entries, db) && entries.Keys == old(entries.Keys)
      ensures Effective(entries, db) == Remove(old(Effective(entries, db)), {o})
    {
      var x := entries[o].value;
      SetSpent(entries, db, o, x.coin, true);
      if !x.spent {
        entries := entries[o := Some(Entry(x.coin, true, true))];
      } else {
        SpentAlready(entries, db, o);
      }
    }

    /** AddEntry then Spend: records that an output the view does not know is gone. */
    method AddSpent(o: OutPoint, c: Coin, ghost db: Coins)
      requires Clean(entries, db)
      modifies this
      ensures Clean(entries, db) && entries.Keys == old(entries.Keys) + {o}
      ensures Effective(entries, db) == Remove(old(Effective(entries, db)), {o})
    {
      SetSpent(entries, db, o, c, true);
      entries := entries[o := Some(Entry(c, false, false))];
      entries := entries[o := Some(entries[o].value.(spent := true, modified := true))];
      assert entries == old(entries)[o := Some(Entry(c, true, true))];
    }

    /** Update: rewrites the entry at o as an unspent output. */
    method Update(o: OutPoint, c: Coin, ghost db: Coins)
      requires Clean(entries, db)
      modifies this
      ensures Clean(entries, db) && entries.Keys == old(entries.Keys) + {o}
      ensures Effective(entries, db) == old(Effective(entries, db))[o := c]
    {
      SetLive(entries, db, o, c, true);
      entries := entries[o := Some(Entry(c, false, true))];
    }

    /** AddTxOut: worthless and unspendable outputs are not added. */
    method AddTxOut(o: OutPoint, out: Output, coinbase: bool, height: int, ghost db: Coins)
      requires Clean(entries, db)
      modifies this
      ensures Clean(entries, db) && entries.Keys >= old(entries.Keys)
      ensures Effective(entries, db) ==
        if out.unspendable || out.value <= 0 then old(Effective(entries, db))
        else old(Effective(entries, db))[o := Coin(out.value, out.script, height, coinbase, out.asset)]
      ensures entries ==
        if out.unspendable || out.value <= 0 then old(entries)
        else old(entries)[o := Some(Entry(Coin(out.value, out.script, height, coinbase, out.asset), false, true))]
    {
      if out.unspendable {
        return;
      }
      if out.value <= 0 {
        return;
      }
      var c := Coin(out.value, out.script, height, coinbase, out.asset);
      SetLive(entries, db, o, c, true);
      entries := entries[o := Some(Entry(c, false, true))];
    }

    /** AddTxOuts. */
    method AddTxOuts(t: Tx, coinbase: bool, height: int, ghost db: Coins)
      requires Clean(entries, db)
      modifies this
      ensures Clean(entries, db) && entries.Keys >= old(entries.Keys)
      ensures Effective(entries, db) == old(Effective(entries, db)) + Created(Plain(t), coinbase, height)
      ensures Written(t, |t.outs|, entries)
    {
      ghost var l := Effective(entries, db);
      CreatedAll(Plain(t), coinbase, height);
      hide Clean, Effective, CreatedUpTo, Created;
      for i := 0 to |t.outs|
        invariant Clean(entries, db) && entries.Keys >= old(entries.Keys)
        invariant Effective(entries, db) == l + CreatedUpTo(Plain(t), i, coinbase, height)
        invariant Written(t, i, entries)
      {
        CreatedNext(l, Plain(t), i, coinbase, height);
        AddTxOut(OutPoint(t.hash, i), t.outs[i], coinbase, height, db);
      }
    }

    /** Journals and spends one input, the i-th; ok tells whether the view has it. */
    method SpendInput(ins: seq<OutPoint>, i: int, ghost l: Coins, ghost db: Coins) returns (ok: bool, c: Coin)
      requires Clean(entries, db) && 0 <= i < |ins| && NoDup(ins) && ins[i] in l
      requires Effective(entries, db) == Remove(l, ToSet(ins[..i]))
      modifies this
      ensures Clean(entries, db) && entries.Keys == old(entries.Keys)
      ensures ok <==> ins[i] in old(entries)
      ensures ok ==> c == l[ins[i]] && Effective(entries, db) == Remove(l, ToSet(ins[..i + 1]))
    {
      NotYetSpent(l, entries, db, ins, i);
      RemoveNext(l, ins, i);
      hide Clean, Effective, Remove, ToSet, Look, NoDup;
      var o := ins[i];
      c := Coin(0, [], 0, false, Asset(0, 0));
      if o !in entries || entries[o].None? {
        return false, c;
      }
      c := entries[o].value.coin;
      Spend(o, db);
      ok := true;
    }

    /** The first part of connectTransaction: spends every input; r is what goes to the journal. */
    method SpendInputs(t: Tx, ghost db: Coins) returns (ok: bool, r: seq<Coin>)
      requires Clean(entries, db) && Payable(Effective(entries, db), t) && Spends(t.ins) == t.ins
      modifies this
      ensures Clean(entries, db) && entries.Keys == old(entries.Keys)
      ensures ok <==> Loaded(t.ins, old(entries))
      ensures ok ==> r == old(CoinsAt(Effective(entries, db), t.ins))
      ensures ok ==> Effective(entries, db) == old(Remove(Effective(entries, db), ToSet(t.ins)))
    {
      hide *;
      ghost var l := Effective(entries, db);
      PayableAt(l, t);
      ghost var coins := CoinsAt(l, t.ins);
      RemoveNone(l, t.ins);
      r := [];
      for i := 0 to |t.ins|
        invariant Clean(entries, db) && entries.Keys == old(entries.Keys) && |r| == i
        invariant forall k :: 0 <= k < i ==> t.ins[k] in old(entries) && r[k] == coins[k]
        invariant Effective(entries, db) == Remove(l, ToSet(t.ins[..i]))
      {
        var c: Coin;
        ok, c := SpendInput(t.ins, i, l, db);
        LoadedMeaning(t.ins, old(entries));
        if !ok {
          return;
        }
        r := r + [c];
      }
      assert t.ins[..|t.ins|] == t.ins;
      LoadedMeaning(t.ins, old(entries));
      ok := true;
    }

    /** The contract takes over output 0 of a transaction that creates one. */
    method TakeOver(t: Tx, height: int, ghost m: Coins, ghost db: Coins)
      requires Clean(entries, db) && WellFormed(t) && Written(t, |t.outs|, entries)
      requires Effective(entries, db) == m + Created(Plain(t), false, height)
      modifies this
      ensures Clean(entries, db) && entries.Keys == old(entries.Keys)
      ensures Effective(entries, db) == m + Created(t, false, height)
    {
      OwnerTakesOver(m, t, height);
      if t.outs[0].value > 0 {
        if t.owner.Some? {
          var o := OutPoint(t.hash, 0);
          JustAdded(m, entries, t, height, db);
          hide *;
          if o in entries && entries[o].Some? {
            var x := entries[o].value;
            SetLive(entries, db, o, x.coin.(script := t.owner.value), x.modified);
            entries := entries[o := Some(x.(coin := x.coin.(script := t.owner.value)))];
          }
        }
      }
    }

    /** connectTransaction: fails exactly when the view lacks an input. */
    method ConnectTransaction(t: Tx, height: int, ghost cb: Tx, ghost db: Coins) returns (ok: bool, r: seq<Coin>)
      requires Clean(entries, db) && Payable(Effective(entries, db), t) && (IsCoinBase(t) <==> t == cb)
      requires !IsCoinBase(t) ==> Spends(t.ins) == t.ins && WellFormed(t)
      modifies this
      ensures Clean(entries, db) && entries.Keys >= old(entries.Keys)
      ensures ok <==> IsCoinBase(t) || Loaded(t.ins, old(entries))
      ensures ok ==> r == old(CoinsAt(Effective(entries, db), Spends(t.ins)))
      ensures ok ==> Effective(entries, db) == Apply(old(Effective(entries, db)), t, cb, height)
    {
      ghost var l := Effective(entries, db);
      ApplyParts(l, t, cb, height);
      if IsCoinBase(t) {
        hide *;
        AddTxOuts(t, true, height, db);
        return true, [];
      }
      hide *;
      ok, r := SpendInputs(t, db);
      if ok {
        ghost var m := Effective(entries, db);
        AddTxOuts(t, false, height, db);
        TakeOver(t, height, m, db);
      }
    }

    /** FetchUtxosMain: loads the stored entries, nil ones for outputs the stored set lacks. */
    method FetchUtxosMain(db: Coins, needed: set<OutPoint>)
      requires Clean(entries, db)
      modifies this
      ensures Clean(entries, db) && entries.Keys == old(entries.Keys) + needed
      ensures forall o :: Look(entries, db, o) == if o in needed then Look(map[], db, o) else old(Look(entries, db, o))
    {
      var left := needed;
      hide Look;
      while left != {}
        invariant Clean(entries, db) && left <= needed && entries.Keys == old(entries.Keys) + (needed - left)
        invariant forall o :: Look(entries, db, o) ==
                              if o in needed && o !in left then Look(map[], db, o) else old(Look(entries, db, o))
      {
        var o :| o in left;
        left := left - {o};
        FetchedLook(entries, db, o);
        entries := entries[o := if o in db then Some(Entry(db[o], false, false)) else None];
      }
    }

    /** fetchVtxInputUtxos: afterwards every input is in the view, and the ledger is the same. */
    method FetchVtxInputUtxos(db: Coins, vtx: Tx)
      requires Clean(entries, db)
      modifies this
      ensures Clean(entries, db) && entries.Keys >= old(entries.Keys)
      ensures Effective(entries, db) == old(Effective(entries, db))
      ensures Loaded(Spends(vtx.ins), entries)
    {
      var needed: set<OutPoint> := {};
      for i := 0 to |vtx.ins|
        invariant needed !! entries.Keys && entries == old(entries)
        invariant forall k :: 0 <= k < i && !IsMintOrCreateInput(vtx.ins[k]) ==> vtx.ins[k] in entries.Keys + needed
      {
        var o := vtx.ins[i];
        if IsMintOrCreateInput(o) || o in entries {
          continue;
        }
        needed := needed + {o};
      }
      FetchUtxosMain(db, needed);
      SameLedger(old(entries), entries, db);
      SpendsLoaded(vtx.ins, entries);
    }

    /** The input loop for a virtual transaction: fails exactly when an input is not there to be spent. */
    method SpendVirtual(vtx: Tx, ghost db: Coins) returns (ok: bool, r: seq<Coin>)
      requires Clean(entries, db) && Loaded(Spends(vtx.ins), entries)
      modifies this
      ensures Clean(entries, db) && entries.Keys == old(entries.Keys)
      ensures ok <==> Payable(old(Effective(entries, db)), vtx)
      ensures ok ==> r == CoinsAt(old(Effective(entries, db)), Spends(vtx.ins))
      ensures ok ==> Effective(entries, db) == old(Remove(Effective(entries, db), ToSet(Spends(vtx.ins))))
    {
      ghost var l := Effective(entries, db);
      r := [];
      NoneSpent(l, vtx.ins);
      for i := 0 to |vtx.ins|
        invariant Clean(entries, db) && entries.Keys == old(entries.Keys)
        invariant SpentSoFar(l, vtx.ins, i, r, Effective(entries, db))
      {
        var o := vtx.ins[i];
        SpentNext(l, vtx.ins, i, r, Effective(entries, db));
        hide *;
        if IsMintOrCreateInput(o) {
          continue;
        }
        LoadedAt(vtx.ins, i, entries);
        if entries[o].None? || entries[o].value.spent {
          NotPayable(l, vtx, i, r, entries, db);
          return false, r;
        }
        LiveAt(entries, db, o);
        r := r + [entries[o].value.coin];
        Spend(o, db);
      }
      AllSpent(l, vtx, r, Effective(entries, db));
      ok := true;
    }
  }

  lemma SpentAlready(e: Entries, db: Coins, o: OutPoint)
    requires o in e && e[o].Some? && e[o].value.spent
    ensures Effective(e, db) == Remove(Effective(e, db), {o})
  {
  }

  lemma FetchedLook(e: Entries, db: Coins, o: OutPoint)
    ensures var f := e[o := if o in db then Some(Entry(db[o], false, false)) else None];
            forall q :: Look(f, db, q) == if q == o then Look(map[], db, q) else Look(e, db, q)
  {
  }

  lemma LoadedMeaning(s: seq<OutPoint>, e: Entries)
    ensures Loaded(s, e) <==> forall i :: 0 <= i < |s| ==> s[i] in e
  {
  }

  lemma PayableAt(l: Coins, t: Tx)
    requires Payable(l, t) && Spends(t.ins) == t.ins
    ensures (forall o :: o in t.ins ==> o in l) && (forall k :: 0 <= k < |t.ins| ==> t.ins[k] in l) && NoDup(t.ins)
  {
  }

  lemma RemoveNone(l: Coins, s: seq<OutPoint>)
    ensures Remove(l, ToSet(s[..0])) == l
  {
  }

  lemma RemoveNext(l: Coins, s: seq<OutPoint>, i: int)
    requires 0 <= i < |s|
    ensures Remove(Remove(l, ToSet(s[..i])), {s[i]}) == Remove(l, ToSet(s[..i + 1]))
  {
    assert s[..i + 1] == s[..i] + [s[i]];
  }

  /** An input that is in the view is in it unspent, with the coin the ledger has for it. */
  lemma NotYetSpent(l: Coins, e: Entries, db: Coins, s: seq<OutPoint>, i: int)
    requires 0 <= i < |s| && NoDup(s) && s[i] in l && Effective(e, db) == Remove(l, ToSet(s[..i]))
    ensures s[i] in e ==> e[s[i]].Some? && !e[s[i]].value.spent && e[s[i]].value.coin == l[s[i]]
  {
    assert s[i] !in s[..i];
    assert s[i] in Effective(e, db);
  }

  lemma JustAdded(m: Coins, e: Entries, t: Tx, height: int, db: Coins)
    requires Clean(e, db) && Effective(e, db) == m + Created(Plain(t), false, height)
    requires WellFormed(t) && t.outs[0].value > 0 && t.owner.Some? && Written(t, |t.outs|, e)
    ensures var o := OutPoint(t.hash, 0);
            && o in e && e[o].Some? && !e[o].value.spent
            && CoinOf(t, 0, false, height) == e[o].value.coin.(script := t.owner.value)
            && Clean(e[o := Some(e[o].value.(coin := e[o].value.coin.(script := t.owner.value)))], db)
  {
    var o := OutPoint(t.hash, 0);
    assert Kept(t, o) && Kept(Plain(t), o);
    EffectiveAt(e, db, o);
    hide Effective;
    assert o in Created(Plain(t), false, height);
  }

  lemma ApplyParts(l: Coins, t: Tx, cb: Tx, height: int)
    requires IsCoinBase(t) <==> t == cb
    ensures IsCoinBase(t) ==> Spends(t.ins) == [] && Apply(l, t, cb, height) == l + Created(Plain(t), true, height)
    ensures !IsCoinBase(t) ==>
              Apply(l, t, cb, height) == Remove(l, ToSet(Spends(t.ins))) + Created(t, false, height)
  {
    if IsCoinBase(t) {
      CoinbasePlain(t, height);
      assert t.ins == [] + [t.ins[0]] && Spends(t.ins) == Spends([]) == [];
      assert Remove(l, ToSet([])) == l;
    }
  }

  lemma SameLedger(e: Entries, f: Entries, db: Coins)
    requires forall o :: Look(f, db, o) == Look(e, db, o)
    ensures Effective(e, db) == Effective(f, db)
  {
  }

  lemma LiveAt(e: Entries, db: Coins, o: OutPoint)
    requires o in e && e[o].Some? && !e[o].value.spent
    ensures o in Effective(e, db) && Effective(e, db)[o] == e[o].value.coin
  {
    assert Look(e, db, o) == Some(e[o].value.coin);
  }

  lemma LoadedAt(ins: seq<OutPoint>, i: int, e: Entries)
    requires 0 <= i < |ins| && !IsMintOrCreateInput(ins[i]) && Loaded(Spends(ins), e)
    ensures ins[i] in e
  {
    assert ins[i] in Spends(ins);
  }

  // ------------------------------------------------------------------ spending while checking

  /** The first i inputs were all there, were different, and have been spent; r are their coins. */
  ghost predicate SpentSoFar(l: Coins, ins: seq<OutPoint>, i: int, r: seq<Coin>, now: Coins)
    requires 0 <= i <= |ins|
  {
    var s := Spends(ins[..i]);
    && (forall k :: 0 <= k < |s| ==> s[k] in l) && NoDup(s)
    && |r| == |s| && (forall k :: 0 <= k < |s| ==> r[k] == l[s[k]])
    && now == Remove(l, ToSet(s))
  }

  lemma NoneSpent(l: Coins, ins: seq<OutPoint>)
    ensures SpentSoFar(l, ins, 0, [], l)
  {
    assert Remove(l, ToSet([])) == l;
  }

  lemma SpentNext(l: Coins, ins: seq<OutPoint>, i: int, r: seq<Coin>, now: Coins)
    requires 0 <= i < |ins| && SpentSoFar(l, ins, i, r, now)
    ensures IsMintOrCreateInput(ins[i]) ==> SpentSoFar(l, ins, i + 1, r, now)
    ensures !IsMintOrCreateInput(ins[i]) && ins[i] in now ==>
              SpentSoFar(l, ins, i + 1, r + [now[ins[i]]], Remove(now, {ins[i]}))
  {
    assert ins[..i + 1][..i] == ins[..i];
    var s := Spends(ins[..i]);
    if !IsMintOrCreateInput(ins[i]) && ins[i] in now {
      var s' := s + [ins[i]];
      assert Spends(ins[..i + 1]) == s';
      assert Remove(now, {ins[i]}) == Remove(l, ToSet(s'));
    }
  }

  /** Spends of a prefix are a prefix of the spends. */
  lemma {:induction false} SpendsPrefix(ins: seq<OutPoint>, i: nat)
    requires i <= |ins|
    ensures |Spends(ins[..i])| <= |Spends(ins)| && Spends(ins)[..|Spends(ins[..i])|] == Spends(ins[..i])
    decreases |ins|
  {
    if i == |ins| {
      assert ins[..i] == ins;
    } else {
      var init := ins[..|ins| - 1];
      SpendsPrefix(init, i);
      assert init[..i] == ins[..i];
    }
  }

  /** A spent input stands in the spends right after those of the inputs before it. */
  lemma SpendAt(ins: seq<OutPoint>, i: int)
    requires 0 <= i < |ins| && !IsMintOrCreateInput(ins[i])
    ensures |Spends(ins[..i])| < |Spends(ins)| && Spends(ins)[|Spends(ins[..i])|] == ins[i]
    ensures forall k :: 0 <= k < |Spends(ins[..i])| ==> Spends(ins)[k] == Spends(ins[..i])[k]
  {
    var s, all := Spends(ins[..i]), Spends(ins);
    assert ins[..i + 1][..i] == ins[..i];
    assert Spends(ins[..i + 1]) == s + [ins[i]];
    SpendsPrefix(ins, i + 1);
    hide Spends;
    assert all[..|s| + 1] == s + [ins[i]];
    assert forall k :: 0 <= k < |s| + 1 ==> all[k] == (s + [ins[i]])[k];
  }

  lemma NotPayable(l: Coins, t: Tx, i: int, r: seq<Coin>, e: Entries, db: Coins)
    requires 0 <= i < |t.ins| && SpentSoFar(l, t.ins, i, r, Effective(e, db)) && !IsMintOrCreateInput(t.ins[i])
    requires t.ins[i] in e && (e[t.ins[i]].None? || e[t.ins[i]].value.spent)
    ensures !Payable(l, t)
  {
    assert Look(e, db, t.ins[i]) == None;
    assert t.ins[i] !in Effective(e, db);
    DoubleSpend(l, t, i);
  }

  lemma DoubleSpend(l: Coins, t: Tx, i: int)
    requires 0 <= i < |t.ins| && !IsMintOrCreateInput(t.ins[i])
    requires t.ins[i] !in l || t.ins[i] in Spends(t.ins[..i])
    ensures !Payable(l, t)
  {
    SpendAt(t.ins, i);
    var s, all := Spends(t.ins[..i]), Spends(t.ins);
    assert all[|s|] in all;
    if t.ins[i] in s {
      var k :| 0 <= k < |s| && s[k] == t.ins[i];
      assert all[k] == all[|s|];
    }
  }

  lemma SpendsLoaded(ins: seq<OutPoint>, e: Entries)
    requires forall k :: 0 <= k < |ins| && !IsMintOrCreateInput(ins[k]) ==> ins[k] in e
    ensures Loaded(Spends(ins), e)
  {
    var s := Spends(ins);
    forall i | 0 <= i < |s|
      ensures s[i] in e
    {
      assert s[i] in s;
    }
  }

  lemma AllSpent(l: Coins, t: Tx, r: seq<Coin>, now: Coins)
    requires SpentSoFar(l, t.ins, |t.ins|, r, now)
    ensures Payable(l, t) && r == CoinsAt(l, Spends(t.ins)) && now == Remove(l, ToSet(Spends(t.ins)))
  {
    assert t.ins[..|t.ins|] == t.ins;
  }
}
