/**
 Virtual transactions (blockchain/chain.go): from the net changes of a contract call, inputs and outputs
 are chosen so that every address gains or loses exactly its change. The addresses and assets are taken
 in any order (the Go code sorts them), and the coins of an address come from a lookup.
 */
module VtxMsg {
  import opened Common
  import opened Conservation
  import opened VirtualTx

  /** Creation is the input that marks newly made coins. */
  datatype OutPoint = OutPoint(hash: int, index: int) | Creation

  datatype Entry = Entry(amount: int, asset: Asset, owner: Address, spent: bool)

  datatype Payment = Payment(value: int, owner: Address, asset: Asset)

  datatype Msg = Msg(ins: seq<OutPoint>, outs: seq<Payment>)

  type View = map<OutPoint, Entry>

  /** What is asked of a message: an amount of a divisible asset, or one unit of an indivisible one. */
  datatype Probe = Amount(asset: Asset, owner: Address) | Unit(asset: Asset, owner: Address, id: int)

  predicate Sensible(p: Probe) {
    if p.Amount? then !IsIndivisible(p.asset) else IsIndivisible(p.asset) && 0 < p.id
  }

  function Share(p: Probe, asset: Asset, owner: Address, amount: int): int {
    if p.asset != asset || p.owner != owner then 0
    else if p.Amount? then amount
    else if p.id == amount then 1 else 0
  }

  function EntryShare(p: Probe, view: View, o: OutPoint): int {
    if o in view then Share(p, view[o].asset, view[o].owner, view[o].amount) else 0
  }

  function InShare(p: Probe, view: View, ins: seq<OutPoint>): int {
    if ins == [] then 0 else InShare(p, view, ins[..|ins| - 1]) + EntryShare(p, view, ins[|ins| - 1])
  }

  function OutShare(p: Probe, outs: seq<Payment>): int {
    if outs == [] then 0
    else
      var o := outs[|outs| - 1];
      OutShare(p, outs[..|outs| - 1]) + Share(p, o.asset, o.owner, o.value)
  }

  /** What the message gives the owner, less what it takes. */
  function Delta(msg: Msg, view: View, p: Probe): int {
    OutShare(p, msg.outs) - InShare(p, view, msg.ins)
  }

  /** The second message gives k more of p0 than the first, and otherwise the same. */
  ghost predicate Shifted(view: View, m0: Msg, m1: Msg, p0: Probe, k: int) {
    forall p :: Sensible(p) ==> Delta(m1, view, p) == Delta(m0, view, p) + if p == p0 then k else 0
  }

  function Pay(msg: Msg, value: int, owner: Address, asset: Asset): Msg {
    msg.(outs := msg.outs + [Payment(value, owner, asset)])
  }

  function Take(msg: Msg, o: OutPoint): Msg { msg.(ins := msg.ins + [o]) }

  lemma PayDelta(msg: Msg, view: View, value: int, owner: Address, asset: Asset, p: Probe)
    ensures Delta(Pay(msg, value, owner, asset), view, p) == Delta(msg, view, p) + Share(p, asset, owner, value)
  {
    assert Pay(msg, value, owner, asset).outs[..|msg.outs|] == msg.outs;
  }

  lemma TakeDelta(msg: Msg, view: View, o: OutPoint, p: Probe)
    ensures Delta(Take(msg, o), view, p) == Delta(msg, view, p) - EntryShare(p, view, o)
  {
    assert Take(msg, o).ins[..|msg.ins|] == msg.ins;
  }

  /** No input twice, and each one unspent. */
  ghost predicate Clean(view: View, ins: seq<OutPoint>) {
    && (forall i, j :: 0 <= i < j < |ins| ==> ins[i] != ins[j])
    && (forall o :: o in ins ==> o == Creation || (o in view && !view[o].spent))
  }

  lemma CleanTake(view: View, ins: seq<OutPoint>, o: OutPoint)
    requires Clean(view, ins) && o !in ins && (o == Creation || (o in view && !view[o].spent))
    ensures Clean(view, ins + [o])
  {
  }

  predicate Usable(view: View, o: OutPoint, asset: Asset) {
    o in view && !view[o].spent && view[o].asset == asset
  }

  // ------------------------------------------------------------------ divisible assets

  /** tryUseOneOut: an output is spent if it can be, and what is over the amount is paid back. */
  method TryUseOneOut(view: View, msg0: Msg, o: OutPoint, owner: Address, asset: Asset, amount: int, filled0: int)
    returns (msg: Msg, filled: int)
    requires Clean(view, msg0.ins) && !IsIndivisible(asset) && filled0 < amount
    requires o in view ==> view[o].owner == owner
    ensures Clean(view, msg.ins)
    ensures msg.ins == if Usable(view, o, asset) && o !in msg0.ins then msg0.ins + [o] else msg0.ins
    ensures Shifted(view, msg0, msg, Amount(asset, owner), -(Min(filled, amount) - filled0))
    ensures filled == filled0 + if Usable(view, o, asset) && o !in msg0.ins then view[o].amount else 0
    ensures msg.outs == msg0.outs + if filled > amount then [Payment(filled - amount, owner, asset)] else []
  {
    hide Delta, Clean;
    msg, filled := msg0, filled0;
    if o !in view || view[o].spent {
      return;
    }
    for i := 0 to |msg.ins|
      invariant o !in msg.ins[..i]
    {
      if msg.ins[i] == o {
        return;
      }
    }
    assert msg.ins[..|msg.ins|] == msg.ins;
    if view[o].asset == asset {
      CleanTake(view, msg.ins, o);
      msg := Take(msg, o);
      filled := filled + view[o].amount;
      if filled > amount {
        msg := Pay(msg, filled - amount, owner, asset);
      }
      forall p | Sensible(p)
        ensures Delta(msg, view, p) ==
                Delta(msg0, view, p) - if p == Amount(asset, owner) then Min(filled, amount) - filled0 else 0
      {
        TakeDelta(msg0, view, o, p);
        PayDelta(Take(msg0, o), view, filled - amount, owner, asset, p);
      }
    }
  }

  lemma ShiftedTwice(view: View, m0: Msg, m1: Msg, m2: Msg, p: Probe, j: int, k: int)
    requires Shifted(view, m0, m1, p, j) && Shifted(view, m1, m2, p, k)
    ensures Shifted(view, m0, m2, p, j + k)
  {
  }

  /** What the different usable outputs of a list are worth. */
  function Available(view: View, outs: seq<OutPoint>, asset: Asset): int {
    if outs == [] then 0
    else
      var init, o := outs[..|outs| - 1], outs[|outs| - 1];
      Available(view, init, asset) + if Usable(view, o, asset) && o !in init then view[o].amount else 0
  }

  /** The different usable outputs of a list, in order. */
  function Picked(view: View, outs: seq<OutPoint>, asset: Asset): seq<OutPoint> {
    if outs == [] then []
    else
      var init, o := outs[..|outs| - 1], outs[|outs| - 1];
      Picked(view, init, asset) + if Usable(view, o, asset) && o !in init then [o] else []
  }

  /** The message takes the first outputs that cover the amount, no more, and pays back what is over. */
  ghost predicate TakesFirst(view: View, msg0: Msg, msg: Msg, outs: seq<OutPoint>, owner: Address, asset: Asset,
                             amount: int, ok: bool) {
    exists i :: 0 <= i <= |outs| && TakesPrefix(view, msg0, msg, outs, owner, asset, amount, i)
                && if ok then amount <= Available(view, outs[..i], asset) else i == |outs|
  }

  ghost predicate TakesPrefix(view: View, msg0: Msg, msg: Msg, outs: seq<OutPoint>, owner: Address, asset: Asset,
                              amount: int, i: int)
    requires 0 <= i <= |outs|
  {
    var worth := Available(view, outs[..i], asset);
    && (forall j :: 0 <= j < i ==> Available(view, outs[..j], asset) < amount)
    && msg.ins == msg0.ins + Picked(view, outs[..i], asset)
    && msg.outs == msg0.outs + if worth > amount then [Payment(worth - amount, owner, asset)] else []
  }

  /** Taking the outputs in their order covers the amount at some point. */
  ghost predicate Covers(view: View, outs: seq<OutPoint>, asset: Asset, amount: int) {
    exists i :: 0 <= i <= |outs| && amount <= Available(view, outs[..i], asset)
  }

  /** As amounts are not negative, that is: all of them together cover it. */
  lemma CoversAll(view: View, outs: seq<OutPoint>, asset: Asset, amount: int)
    requires forall o :: o in view ==> 0 <= view[o].amount
    ensures Covers(view, outs, asset, amount) <==> amount <= Available(view, outs, asset)
  {
    assert outs[..|outs|] == outs;
    forall i | 0 <= i <= |outs|
      ensures Available(view, outs[..i], asset) <= Available(view, outs, asset)
    {
      AvailableGrows(view, outs, asset, i);
    }
  }

  lemma {:induction false} AvailableGrows(view: View, outs: seq<OutPoint>, asset: Asset, i: nat)
    requires i <= |outs| && forall o :: o in view ==> 0 <= view[o].amount
    ensures Available(view, outs[..i], asset) <= Available(view, outs, asset)
    decreases |outs|
  {
    if i < |outs| {
      var init := outs[..|outs| - 1];
      AvailableGrows(view, init, asset, i);
      assert init[..i] == outs[..i];
    } else {
      assert outs[..i] == outs;
    }
  }

  lemma AvailableNext(view: View, outs: seq<OutPoint>, asset: Asset, i: nat)
    requires i < |outs|
    ensures Available(view, outs[..i + 1], asset) == Available(view, outs[..i], asset)
      + if Usable(view, outs[i], asset) && outs[i] !in outs[..i] then view[outs[i]].amount else 0
    ensures Picked(view, outs[..i + 1], asset) == Picked(view, outs[..i], asset)
      + if Usable(view, outs[i], asset) && outs[i] !in outs[..i] then [outs[i]] else []
  {
    assert outs[..i + 1][..i] == outs[..i];
  }

  /** None of the usable outputs is an input yet. */
  ghost predicate Unused(view: View, outs: seq<OutPoint>, ins: seq<OutPoint>, asset: Asset) {
    forall o :: o in outs && Usable(view, o, asset) ==> o !in ins
  }

  /** What has been taken after the first i outputs. */
  ghost predicate Taking(view: View, msg0: Msg, msg: Msg, outs: seq<OutPoint>, owner: Address, asset: Asset,
                         amount: int, i: int, filled: int)
    requires 0 <= i <= |outs|
  {
    && Clean(view, msg.ins) && AddedFor(view, msg0.ins, msg.ins, asset, owner)
    && (forall o :: o in outs[..i] && Usable(view, o, asset) ==> o in msg.ins)
    && (forall o :: o in msg.ins ==> o in msg0.ins || o in outs[..i])
    && Shifted(view, msg0, msg, Amount(asset, owner), -Min(filled, amount))
    && (Unused(view, outs, msg0.ins, asset) ==>
          filled == Available(view, outs[..i], asset) && TakesPrefix(view, msg0, msg, outs, owner, asset, amount, i))
  }

  method TakeNext(view: View, ghost msg0: Msg, msg1: Msg, outs: seq<OutPoint>, owner: Address, asset: Asset,
                  amount: int, i: int, filled1: int)
    returns (msg: Msg, filled: int)
    requires 0 <= i < |outs| && !IsIndivisible(asset) && filled1 < amount
    requires outs[i] in view ==> view[outs[i]].owner == owner
    requires Taking(view, msg0, msg1, outs, owner, asset, amount, i, filled1)
    ensures Taking(view, msg0, msg, outs, owner, asset, amount, i + 1, filled)
  {
    hide Delta, Clean, Available, Shifted, TakesPrefix, Picked;
    AvailableNext(view, outs, asset, i);
    msg, filled := TryUseOneOut(view, msg1, outs[i], owner, asset, amount, filled1);
    ShiftedTwice(view, msg0, msg1, msg, Amount(asset, owner), -filled1, -(Min(filled, amount) - filled1));
    assert outs[..i + 1] == outs[..i] + [outs[i]];
    if Unused(view, outs, msg0.ins, asset) {
      PrefixParts(view, msg0, msg1, outs, owner, asset, amount, i);
      assert Usable(view, outs[i], asset) ==> (outs[i] in msg1.ins <==> outs[i] in outs[..i]) by {
        assert outs[i] in outs;
      }
      PrefixNext(view, msg0, msg1, msg, outs, owner, asset, amount, i);
    }
  }

  /** An amount is taken from an address's outputs, or all of them are not enough. */
  method TakeAmount(view: View, msg0: Msg, outs: seq<OutPoint>, owner: Address, asset: Asset, amount: int)
    returns (ok: bool, msg: Msg)
    requires Clean(view, msg0.ins) && !IsIndivisible(asset) && 0 < amount
    requires forall o :: o in outs && o in view ==> view[o].owner == owner
    ensures Clean(view, msg.ins) && AddedFor(view, msg0.ins, msg.ins, asset, owner)
    ensures ok ==> Shifted(view, msg0, msg, Amount(asset, owner), -amount)
    ensures !ok ==> forall o :: o in outs && Usable(view, o, asset) ==> o in msg.ins
    ensures !ok ==> Delta(msg, view, Amount(asset, owner)) > Delta(msg0, view, Amount(asset, owner)) - amount
    ensures Unused(view, outs, msg0.ins, asset) ==> (ok <==> Covers(view, outs, asset, amount))
    ensures Unused(view, outs, msg0.ins, asset) ==> TakesFirst(view, msg0, msg, outs, owner, asset, amount, ok)
  {
    msg := msg0;
    TakingNone(view, msg0, outs, owner, asset, amount);
    hide Delta, Clean, Available, Shifted, TakesPrefix, Taking, Unused;
    var filled := 0;
    var i := 0;
    while i < |outs| && filled < amount
      invariant 0 <= i <= |outs| && Taking(view, msg0, msg, outs, owner, asset, amount, i, filled)
    {
      assert outs[i] in outs;
      msg, filled := TakeNext(view, msg0, msg, outs, owner, asset, amount, i, filled);
      i := i + 1;
    }
    ok := amount <= filled;
    TakingEnds(view, msg0, msg, outs, owner, asset, amount, i, filled);
  }

  lemma TakingNone(view: View, msg0: Msg, outs: seq<OutPoint>, owner: Address, asset: Asset, amount: int)
    requires Clean(view, msg0.ins) && 0 < amount
    ensures Taking(view, msg0, msg0, outs, owner, asset, amount, 0, 0)
  {
    NothingShifted(view, msg0, Amount(asset, owner));
    NoneAvailable(view, msg0, outs, owner, asset, amount);
  }

  lemma TakingEnds(view: View, msg0: Msg, msg: Msg, outs: seq<OutPoint>, owner: Address, asset: Asset, amount: int,
                   i: int, filled: int)
    requires 0 <= i <= |outs| && Taking(view, msg0, msg, outs, owner, asset, amount, i, filled)
    requires !IsIndivisible(asset) && (i == |outs| || amount <= filled)
    ensures Clean(view, msg.ins) && AddedFor(view, msg0.ins, msg.ins, asset, owner)
    ensures amount <= filled ==> Shifted(view, msg0, msg, Amount(asset, owner), -amount)
    ensures filled < amount ==> forall o :: o in outs && Usable(view, o, asset) ==> o in msg.ins
    ensures filled < amount ==>
      Delta(msg, view, Amount(asset, owner)) > Delta(msg0, view, Amount(asset, owner)) - amount
    ensures Unused(view, outs, msg0.ins, asset) ==> (amount <= filled <==> Covers(view, outs, asset, amount))
    ensures Unused(view, outs, msg0.ins, asset) ==>
      TakesFirst(view, msg0, msg, outs, owner, asset, amount, amount <= filled)
  {
    hide Delta, Clean, Available, Shifted, TakesPrefix;
    assert i == |outs| ==> outs[..i] == outs;
    if filled < amount {
      NotShifted(view, msg0, msg, Amount(asset, owner), -filled);
    }
    if Unused(view, outs, msg0.ins, asset) {
      PrefixParts(view, msg0, msg, outs, owner, asset, amount, i);
    }
  }

  lemma PrefixParts(view: View, msg0: Msg, msg: Msg, outs: seq<OutPoint>, owner: Address, asset: Asset, amount: int,
                    i: int)
    requires 0 <= i <= |outs| && TakesPrefix(view, msg0, msg, outs, owner, asset, amount, i)
    ensures forall j :: 0 <= j < i ==> Available(view, outs[..j], asset) < amount
    ensures msg.ins == msg0.ins + Picked(view, outs[..i], asset)
  {
  }

  lemma PrefixNext(view: View, msg0: Msg, m1: Msg, m2: Msg, outs: seq<OutPoint>, owner: Address, asset: Asset,
                   amount: int, i: int)
    requires 0 <= i < |outs| && TakesPrefix(view, msg0, m1, outs, owner, asset, amount, i)
    requires Available(view, outs[..i], asset) < amount
    requires m2.ins == m1.ins + if Usable(view, outs[i], asset) && outs[i] !in outs[..i] then [outs[i]] else []
    requires var worth := Available(view, outs[..i + 1], asset);
             m2.outs == m1.outs + if worth > amount then [Payment(worth - amount, owner, asset)] else []
    ensures TakesPrefix(view, msg0, m2, outs, owner, asset, amount, i + 1)
  {
    hide Available, Picked;
    AvailableNext(view, outs, asset, i);
  }

  lemma NothingShifted(view: View, msg: Msg, p: Probe)
    ensures Shifted(view, msg, msg, p, 0)
  {
  }

  lemma NotShifted(view: View, m0: Msg, m1: Msg, p: Probe, k: int)
    requires Shifted(view, m0, m1, p, k) && Sensible(p)
    ensures Delta(m1, view, p) == Delta(m0, view, p) + k
  {
  }

  lemma NoneAvailable(view: View, msg0: Msg, outs: seq<OutPoint>, owner: Address, asset: Asset, amount: int)
    requires 0 < amount
    ensures Available(view, outs[..0], asset) == 0 && TakesPrefix(view, msg0, msg0, outs, owner, asset, amount, 0)
  {
  }

  type Lookup = (Address, Asset) -> seq<OutPoint>

  /** The outputs found for an address are its own. */
  ghost predicate Owned(view: View, lookup: Lookup) {
    forall x, a, o :: o in lookup(x, a) && o in view ==> view[o].owner == x
  }

  ghost predicate Moved(view: View, m0: Msg, m1: Msg, asset: Asset, changes: Changes, left: set<Address>) {
    forall p :: Sensible(p) ==>
      Delta(m1, view, p) == Delta(m0, view, p)
        + if p.Amount? && p.asset == asset && p.owner !in left then At(changes, p.owner) else 0
  }

  lemma MovedNext(view: View, m0: Msg, m1: Msg, m2: Msg, asset: Asset, changes: Changes, left: set<Address>, x: Address)
    requires Moved(view, m0, m1, asset, changes, left) && x in left
    requires Shifted(view, m1, m2, Amount(asset, x), At(changes, x))
    ensures Moved(view, m0, m2, asset, changes, left - {x})
  {
    hide Delta;
    forall p | Sensible(p)
      ensures Delta(m2, view, p) == Delta(m0, view, p)
        + if p.Amount? && p.asset == asset && p.owner !in left - {x} then At(changes, p.owner) else 0
    {
    }
  }

  lemma PayShifts(view: View, msg: Msg, value: int, owner: Address, asset: Asset)
    requires if IsIndivisible(asset) then 0 < value else true
    ensures Shifted(view, msg, Pay(msg, value, owner, asset),
                    if IsIndivisible(asset) then Unit(asset, owner, value) else Amount(asset, owner),
                    if IsIndivisible(asset) then 1 else value)
  {
    hide Delta;
    forall p
      ensures Delta(Pay(msg, value, owner, asset), view, p) == Delta(msg, view, p) + Share(p, asset, owner, value)
    {
      PayDelta(msg, view, value, owner, asset, p);
    }
  }

  /** One address of a divisible asset: it is paid its gain, or its loss is taken from its outputs. */
  method SettleAmount(view: View, msg0: Msg, outs: seq<OutPoint>, owner: Address, asset: Asset, change: int)
    returns (ok: bool, msg: Msg)
    requires Clean(view, msg0.ins) && !IsIndivisible(asset)
    requires forall o :: o in outs && o in view ==> view[o].owner == owner
    ensures Clean(view, msg.ins) && msg0.ins <= msg.ins
    ensures forall o :: o in msg.ins ==> o in msg0.ins || (o in view && view[o].asset == asset)
    ensures ok ==> Shifted(view, msg0, msg, Amount(asset, owner), change)
    ensures AddedFor(view, msg0.ins, msg.ins, asset, owner)
    ensures Unused(view, outs, msg0.ins, asset) ==> (ok <==> change >= 0 || Covers(view, outs, asset, -change))
  {
    hide Delta, Clean;
    ok, msg := true, msg0;
    if change > 0 {
      msg := Pay(msg, change, owner, asset);
      PayShifts(view, msg0, change, owner, asset);
    } else if change < 0 {
      ok, msg := TakeAmount(view, msg, outs, owner, asset, -change);
    }
  }

  /** The changes of one divisible asset. */
  method SettleErc20(view: View, msg0: Msg, asset: Asset, changes: Changes, lookup: Lookup)
    returns (ok: bool, msg: Msg)
    requires Clean(view, msg0.ins) && !IsIndivisible(asset) && Owned(view, lookup)
    requires forall o :: o in msg0.ins && o in view ==> view[o].asset != asset
    ensures Clean(view, msg.ins) && msg0.ins <= msg.ins
    ensures forall o :: o in msg.ins ==> o in msg0.ins || (o in view && view[o].asset == asset)
    ensures ok ==> Moved(view, msg0, msg, asset, changes, {})
    ensures ok <==> LossesCovered(view, asset, changes, changes.Keys, lookup)
  {
    hide Delta, Clean, Shifted, Moved, Covers;
    msg := msg0;
    var left := changes.Keys;
    NothingMoved(view, msg0, asset, changes);
    while left != {}
      invariant left <= changes.Keys && Clean(view, msg.ins) && msg0.ins <= msg.ins
      invariant forall o :: o in msg.ins ==> o in msg0.ins || (o in view && view[o].asset == asset)
      invariant Moved(view, msg0, msg, asset, changes, left) && Untouched(view, msg.ins, asset, left)
      invariant LossesCovered(view, asset, changes, changes.Keys - left, lookup)
    {
      var x :| x in left;
      ghost var before := msg;
      ok, msg := SettleAmount(view, msg, lookup(x, asset), x, asset, changes[x]);
      if !ok {
        return;
      }
      MovedNext(view, msg0, before, msg, asset, changes, left, x);
      left := left - {x};
    }
    ok := true;
  }

  /** Of these addresses, each that loses some of the asset has outputs that cover the loss. */
  ghost predicate LossesCovered(view: View, asset: Asset, changes: Changes, owners: set<Address>, lookup: Lookup) {
    forall x :: x in owners && x in changes && changes[x] < 0 ==> Covers(view, lookup(x, asset), asset, -changes[x])
  }

  lemma NothingMoved(view: View, msg: Msg, asset: Asset, changes: Changes)
    ensures Moved(view, msg, msg, asset, changes, changes.Keys)
  {
  }

  // ------------------------------------------------------------------ indivisible assets

  /** One of the outputs is the voucher, unspent. */
  ghost predicate HasUnit(view: View, outs: seq<OutPoint>, asset: Asset, id: int) {
    exists o :: o in outs && Usable(view, o, asset) && view[o].amount == id
  }

  ghost predicate UnitsThere(view: View, outs: seq<OutPoint>, asset: Asset, dic: set<int>) {
    forall k :: k in dic && k < 0 ==> HasUnit(view, outs, asset, -k)
  }

  /** Of these addresses, each has every voucher it loses. */
  ghost predicate VouchersThere(view: View, asset: Asset, vouchers: Vouchers, owners: set<Address>, lookup: Lookup) {
    forall x :: x in owners && x in vouchers ==> UnitsThere(view, lookup(x, asset), asset, vouchers[x])
  }

  /** tryAddToTxin over an address's outputs: the first that is the voucher is spent. */
  method TakeUnit(view: View, msg0: Msg, outs: seq<OutPoint>, owner: Address, asset: Asset, id: int)
    returns (ok: bool, msg: Msg)
    requires Clean(view, msg0.ins) && IsIndivisible(asset) && 0 < id
    requires forall o :: o in outs && o in view ==> view[o].owner == owner
    requires forall o :: o in msg0.ins && o in view ==>
      !(view[o].asset == asset && view[o].owner == owner && view[o].amount == id)
    ensures Clean(view, msg.ins) && msg0.ins <= msg.ins && |msg.ins| <= |msg0.ins| + 1
    ensures forall o :: o in msg.ins ==>
      o in msg0.ins || (o in view && view[o].asset == asset && view[o].owner == owner && view[o].amount == id)
    ensures ok <==> HasUnit(view, outs, asset, id)
    ensures ok ==> Shifted(view, msg0, msg, Unit(asset, owner, id), -1)
  {
    hide Delta, Clean;
    msg := msg0;
    for i := 0 to |outs|
      invariant forall o :: o in outs[..i] ==> !(Usable(view, o, asset) && view[o].amount == id)
    {
      var o := outs[i];
      assert o in outs;
      if o in view && !view[o].spent && view[o].amount == id && view[o].asset == asset {
        CleanTake(view, msg.ins, o);
        msg := Take(msg, o);
        forall p
          ensures Delta(msg, view, p) == Delta(msg0, view, p) - EntryShare(p, view, o)
        {
          TakeDelta(msg0, view, o, p);
        }
        return true, msg;
      }
      assert outs[..i + 1] == outs[..i] + [outs[i]];
    }
    assert outs[..|outs|] == outs;
    ok := false;
  }

  ghost predicate UnitsMoved(view: View, m0: Msg, m1: Msg, asset: Asset, owner: Address, done: set<int>) {
    forall p :: Sensible(p) ==>
      Delta(m1, view, p) == Delta(m0, view, p)
        + if p.Unit? && p.asset == asset && p.owner == owner then Gain(done, p.id) else 0
  }

  lemma UnitsMovedNext(view: View, m0: Msg, m1: Msg, m2: Msg, asset: Asset, owner: Address, done: set<int>, k: int)
    requires UnitsMoved(view, m0, m1, asset, owner, done) && k !in done
    requires k == 0 ==> m2 == m1
    requires k > 0 ==> Shifted(view, m1, m2, Unit(asset, owner, k), 1)
    requires k < 0 ==> Shifted(view, m1, m2, Unit(asset, owner, -k), -1)
    ensures UnitsMoved(view, m0, m2, asset, owner, done + {k})
  {
    hide Delta;
    forall p | Sensible(p)
      ensures Delta(m2, view, p) == Delta(m0, view, p)
        + if p.Unit? && p.asset == asset && p.owner == owner then Gain(done + {k}, p.id) else 0
    {
    }
  }

  /** Of this owner's units of the asset, only those already settled are among the inputs. */
  ghost predicate OnlySettled(view: View, ins: seq<OutPoint>, asset: Asset, owner: Address, done: set<int>) {
    forall o :: o in ins && o in view && view[o].asset == asset && view[o].owner == owner ==> -view[o].amount in done
  }

  /** Inputs added for one owner of an asset. */
  ghost predicate AddedFor(view: View, before: seq<OutPoint>, ins: seq<OutPoint>, asset: Asset, owner: Address) {
    && before <= ins
    && forall o :: o in ins ==> o in before || (o in view && view[o].asset == asset && view[o].owner == owner)
  }

  method Pick<T(==)>(s: set<T>) returns (x: T)
    requires s != {}
    ensures x in s
  {
    x :| x in s;
  }

  /** One entry of an address: a voucher paid to it or taken from it. */
  method SettleUnit(view: View, msg0: Msg, outs: seq<OutPoint>, owner: Address, asset: Asset, k: int,
          ghost done: set<int>)
    returns (ok: bool, msg: Msg)
    requires Clean(view, msg0.ins) && IsIndivisible(asset) && k !in done
    requires OnlySettled(view, msg0.ins, asset, owner, done)
    requires forall o :: o in outs && o in view ==> view[o].owner == owner
    ensures Clean(view, msg.ins) && AddedFor(view, msg0.ins, msg.ins, asset, owner)
    ensures OnlySettled(view, msg.ins, asset, owner, done + {k})
    ensures ok <==> k >= 0 || HasUnit(view, outs, asset, -k)
    ensures ok && k == 0 ==> msg == msg0
    ensures ok && k > 0 ==> Shifted(view, msg0, msg, Unit(asset, owner, k), 1)
    ensures ok && k < 0 ==> Shifted(view, msg0, msg, Unit(asset, owner, -k), -1)
  {
    hide Delta, Clean, Shifted;
    ok, msg := true, msg0;
    if k > 0 {
      PayShifts(view, msg0, k, owner, asset);
      msg := Pay(msg, k, owner, asset);
    } else if k < 0 {
      ok, msg := TakeUnit(view, msg, outs, owner, asset, -k);
    }
  }

  /** One address of an indivisible asset. */
  method SettleUnits(view: View, msg0: Msg, outs: seq<OutPoint>, owner: Address, asset: Asset, dic: set<int>)
    returns (ok: bool, msg: Msg)
    requires Clean(view, msg0.ins) && IsIndivisible(asset)
    requires OnlySettled(view, msg0.ins, asset, owner, {})
    requires forall o :: o in outs && o in view ==> view[o].owner == owner
    ensures Clean(view, msg.ins) && AddedFor(view, msg0.ins, msg.ins, asset, owner)
    ensures ok ==> UnitsMoved(view, msg0, msg, asset, owner, dic)
    ensures ok <==> UnitsThere(view, outs, asset, dic)
  {
    hide Delta, Clean, Shifted, UnitsMoved, OnlySettled, HasUnit;
    msg := msg0;
    var left := dic;
    NoUnitsMoved(view, msg0, asset, owner);
    assert dic - left == {};
    while left != {}
      invariant left <= dic && Clean(view, msg.ins) && AddedFor(view, msg0.ins, msg.ins, asset, owner)
      invariant OnlySettled(view, msg.ins, asset, owner, dic - left)
      invariant UnitsMoved(view, msg0, msg, asset, owner, dic - left)
      invariant UnitsThere(view, outs, asset, dic - left)
    {
      var k := Pick(left);
      ghost var before := msg;
      ok, msg := SettleUnit(view, msg, outs, owner, asset, k, dic - left);
      if !ok {
        return;
      }
      UnitsMovedNext(view, msg0, before, msg, asset, owner, dic - left, k);
      assert dic - (left - {k}) == dic - left + {k};
      left := left - {k};
    }
    assert dic - left == dic;
    ok := true;
  }

  lemma NoUnitsMoved(view: View, msg: Msg, asset: Asset, owner: Address)
    ensures UnitsMoved(view, msg, msg, asset, owner, {})
  {
  }

  ghost predicate VouchersMoved(view: View, m0: Msg, m1: Msg, asset: Asset, vouchers: Vouchers, left: set<Address>) {
    forall p :: Sensible(p) ==>
      Delta(m1, view, p) == Delta(m0, view, p)
        + if p.Unit? && p.asset == asset && p.owner !in left then Gain(In721(vouchers, p.owner), p.id) else 0
  }

  lemma VouchersMovedNext(view: View, m0: Msg, m1: Msg, m2: Msg, asset: Asset, vouchers: Vouchers,
          left: set<Address>, x: Address)
    requires VouchersMoved(view, m0, m1, asset, vouchers, left) && x in left
    requires UnitsMoved(view, m1, m2, asset, x, In721(vouchers, x))
    ensures VouchersMoved(view, m0, m2, asset, vouchers, left - {x})
  {
    hide Delta;
    forall p | Sensible(p)
      ensures Delta(m2, view, p) == Delta(m0, view, p)
        + if p.Unit? && p.asset == asset && p.owner !in left - {x} then Gain(In721(vouchers, p.owner), p.id) else 0
    {
    }
  }

  lemma NoVouchersMoved(view: View, msg: Msg, asset: Asset, vouchers: Vouchers)
    ensures VouchersMoved(view, msg, msg, asset, vouchers, vouchers.Keys)
  {
  }

  /** None of these owners has an input of the asset yet. */
  ghost predicate Untouched(view: View, ins: seq<OutPoint>, asset: Asset, left: set<Address>) {
    forall o :: o in ins && o in view && view[o].asset == asset ==> view[o].owner !in left
  }

  /** The changes of one indivisible asset. */
  method SettleErc721(view: View, msg0: Msg, asset: Asset, vouchers: Vouchers, lookup: Lookup)
    returns (ok: bool, msg: Msg)
    requires Clean(view, msg0.ins) && IsIndivisible(asset) && Owned(view, lookup)
    requires forall o :: o in msg0.ins && o in view ==> view[o].asset != asset
    ensures Clean(view, msg.ins) && msg0.ins <= msg.ins
    ensures forall o :: o in msg.ins ==> o in msg0.ins || (o in view && view[o].asset == asset)
    ensures ok ==> VouchersMoved(view, msg0, msg, asset, vouchers, {})
    ensures ok <==> VouchersThere(view, asset, vouchers, vouchers.Keys, lookup)
  {
    hide Delta, Clean, UnitsMoved, VouchersMoved, UnitsThere;
    msg := msg0;
    var left := vouchers.Keys;
    NoVouchersMoved(view, msg0, asset, vouchers);
    while left != {}
      invariant left <= vouchers.Keys && Clean(view, msg.ins) && msg0.ins <= msg.ins
      invariant forall o :: o in msg.ins ==> o in msg0.ins || (o in view && view[o].asset == asset)
      invariant Untouched(view, msg.ins, asset, left)
      invariant VouchersMoved(view, msg0, msg, asset, vouchers, left)
      invariant VouchersThere(view, asset, vouchers, vouchers.Keys - left, lookup)
    {
      var x :| x in left;
      ghost var before := msg;
      ok, msg := SettleUnits(view, msg, lookup(x, asset), x, asset, vouchers[x]);
      if !ok {
        return;
      }
      VouchersMovedNext(view, msg0, before, msg, asset, vouchers, left, x);
      left := left - {x};
    }
    ok := true;
  }

  // ------------------------------------------------------------------ the message

  /** What an address gains, by the changes of the call. */
  function Change(items: Items, p: Probe): int {
    if p.Amount? then At(Item20(items, p.asset), p.owner) else Gain(In721(Item721(items, p.asset), p.owner), p.id)
  }

  ghost predicate SettledBut(items: Items, view: View, msg: Msg, left: set<Asset>) {
    forall p :: Sensible(p) ==> Delta(msg, view, p) == if p.asset in left then 0 else Change(items, p)
  }

  /** Divisible and indivisible assets are kept apart. */
  ghost predicate Sorted(items: Items) {
    && (forall a :: a in items.erc20 ==> !IsIndivisible(a))
    && (forall a :: a in items.erc721 ==> IsIndivisible(a))
    && items.mint <= items.erc20.Keys + items.erc721.Keys
  }

  lemma {:induction false} AlwaysSorted(calls: seq<Call>)
    ensures Sorted(AfterCalls(calls))
  {
    if calls != [] {
      AlwaysSorted(calls[..|calls| - 1]);
      StillSorted(AfterCalls(calls[..|calls| - 1]), calls[|calls| - 1]);
    }
  }

  lemma StillSorted(items: Items, c: Call)
    requires Sorted(items)
    ensures Sorted(AfterCall(items, c))
  {
    hide AddErc20, AddErc721, MintErc721, Item20, Item721;
    var after := AfterCall(items, c);
    if IsIndivisible(c.asset) {
      assert after.erc20 == items.erc20 && after.erc721.Keys == items.erc721.Keys + {c.asset};
    } else {
      assert after.erc721 == items.erc721 && after.erc20.Keys == items.erc20.Keys + {c.asset};
    }
  }

  /** Whoever loses some of the asset has enough of it, or has the very vouchers. */
  ghost predicate AssetCovered(view: View, items: Items, lookup: Lookup, asset: Asset) {
    if asset in items.erc20 then LossesCovered(view, asset, items.erc20[asset], items.erc20[asset].Keys, lookup)
    else asset in items.erc721 ==>
      VouchersThere(view, asset, items.erc721[asset], items.erc721[asset].Keys, lookup)
  }

  ghost predicate AllCovered(view: View, items: Items, lookup: Lookup) {
    forall a :: a in items.erc20.Keys + items.erc721.Keys ==> AssetCovered(view, items, lookup, a)
  }

  method SettleAsset(view: View, msg0: Msg, asset: Asset, items: Items, lookup: Lookup, ghost left: set<Asset>)
    returns (ok: bool, msg: Msg)
    requires Clean(view, msg0.ins) && Owned(view, lookup) && Sorted(items)
    requires asset in left && asset in items.erc20.Keys + items.erc721.Keys
    requires SettledBut(items, view, msg0, left)
    requires forall o :: o in msg0.ins && o in view ==> view[o].asset !in left
    ensures Clean(view, msg.ins) && msg0.ins <= msg.ins
    ensures forall o :: o in msg.ins ==> o in msg0.ins || (o in view && view[o].asset == asset)
    ensures ok ==> SettledBut(items, view, msg, left - {asset})
    ensures ok <==> AssetCovered(view, items, lookup, asset)
  {
    hide Delta, Clean, Owned, LossesCovered, VouchersThere;
    if !IsIndivisible(asset) {
      ok, msg := SettleErc20(view, msg0, asset, items.erc20[asset], lookup);
    } else {
      ok, msg := SettleErc721(view, msg0, asset, items.erc721[asset], lookup);
    }
  }

  /** Newly made coins are marked once, however many assets are minted. */
  method MarkMint(view: View, msg0: Msg, mint: bool) returns (msg: Msg)
    requires Clean(view, msg0.ins) && Creation !in view
    ensures Clean(view, msg.ins) && msg.outs == msg0.outs
    ensures forall o :: o in msg.ins ==> o in msg0.ins || (mint && o == Creation)
    ensures forall o :: o in msg0.ins ==> o in msg.ins
    ensures mint ==> Creation in msg.ins
    ensures forall p :: Delta(msg, view, p) == Delta(msg0, view, p)
  {
    hide Delta, Clean;
    msg := msg0;
    if mint && Creation !in msg.ins {
      CleanTake(view, msg.ins, Creation);
      msg := Take(msg, Creation);
      assert Creation == msg.ins[|msg0.ins|];
      forall p
        ensures Delta(msg, view, p) == Delta(msg0, view, p)
      {
        TakeDelta(msg0, view, Creation, p);
      }
    }
  }

  /**
   GenVtxMsg: if it succeeds, every address gains or loses exactly its change of every asset, no output
   is spent twice, and the mark of newly made coins is there exactly if something was minted.
   */
  method GenVtxMsg(view: View, items: Items, lookup: Lookup) returns (ok: bool, msg: Msg)
    requires Owned(view, lookup) && Sorted(items) && Creation !in view
    ensures Clean(view, msg.ins)
    ensures ok ==> forall p :: Sensible(p) ==> Delta(msg, view, p) == Change(items, p)
    ensures ok ==> (Creation in msg.ins <==> items.mint != {})
    ensures ok <==> AllCovered(view, items, lookup)
  {
    hide Delta, Clean, Owned, SettledBut, AssetCovered;
    msg := Msg([], []);
    var left := items.erc20.Keys + items.erc721.Keys;
    Nothing(items, view, left);
    while left != {}
      invariant left <= items.erc20.Keys + items.erc721.Keys
      invariant Clean(view, msg.ins) && SettledBut(items, view, msg, left)
      invariant forall o :: o in msg.ins && o in view ==> view[o].asset !in left
      invariant Creation in msg.ins <==> items.mint - left != {}
      invariant forall a :: a in items.erc20.Keys + items.erc721.Keys && a !in left ==>
        AssetCovered(view, items, lookup, a)
    {
      var asset :| asset in left;
      ghost var before := msg;
      msg := MarkMint(view, msg, asset in items.mint);
      SettledSame(items, view, before, msg, left);
      assert Creation in msg.ins <==> items.mint - (left - {asset}) != {} by {
        MintMark(items.mint, left, asset, Creation in before.ins, Creation in msg.ins);
      }
      ok, msg := SettleAsset(view, msg, asset, items, lookup, left);
      if !ok {
        return;
      }
      left := left - {asset};
    }
    assert items.mint - left == items.mint;
    SettledAll(items, view, msg);
    ok := true;
  }

  lemma MintMark(mint: set<Asset>, left: set<Asset>, a: Asset, before: bool, after: bool)
    requires a in left && (before <==> mint - left != {})
    requires after <==> before || a in mint
    ensures after <==> mint - (left - {a}) != {}
  {
    if a in mint {
      assert a in mint - (left - {a});
    } else {
      assert mint - (left - {a}) == mint - left;
    }
  }

  lemma Nothing(items: Items, view: View, left: set<Asset>)
    requires left == items.erc20.Keys + items.erc721.Keys
    ensures SettledBut(items, view, Msg([], []), left) && Clean(view, [])
  {
  }

  lemma SettledSame(items: Items, view: View, m0: Msg, m1: Msg, left: set<Asset>)
    requires SettledBut(items, view, m0, left)
    requires forall p :: Delta(m1, view, p) == Delta(m0, view, p)
    ensures SettledBut(items, view, m1, left)
  {
  }

  lemma SettledAll(items: Items, view: View, msg: Msg)
    requires SettledBut(items, view, msg, {})
    ensures forall p :: Sensible(p) ==> Delta(msg, view, p) == Change(items, p)
  {
  }

  // ------------------------------------------------------------------ totals

  /** What a coin counts for the measure. */
  function CoinWorth(k: Measure, asset: Asset, amount: int): int {
    if asset != k.asset then 0 else if k.Money? then amount else if amount == k.id then 1 else 0
  }

  function OutTotal(outs: seq<Payment>, k: Measure): int {
    if outs == [] then 0
    else
      var o := outs[|outs| - 1];
      OutTotal(outs[..|outs| - 1], k) + CoinWorth(k, o.asset, o.value)
  }

  function InTotal(view: View, ins: seq<OutPoint>, k: Measure): int {
    if ins == [] then 0
    else
      var o := ins[|ins| - 1];
      InTotal(view, ins[..|ins| - 1], k) + if o in view then CoinWorth(k, view[o].asset, view[o].amount) else 0
  }

  function ProbeAt(k: Measure, x: Address): Probe {
    if k.Money? then Amount(k.asset, x) else Unit(k.asset, x, k.id)
  }

  function Add(t: Changes, x: Address, v: int): Changes { t[x := At(t, x) + v] }

  /** The outputs, gathered by owner. */
  function OutTally(outs: seq<Payment>, k: Measure): Changes {
    if outs == [] then map[]
    else
      var o := outs[|outs| - 1];
      Add(OutTally(outs[..|outs| - 1], k), o.owner, CoinWorth(k, o.asset, o.value))
  }

  /** From a tally, the inputs are taken away. */
  function InTally(t: Changes, view: View, ins: seq<OutPoint>, k: Measure): Changes {
    if ins == [] then t
    else
      var u, o := InTally(t, view, ins[..|ins| - 1], k), ins[|ins| - 1];
      if o in view then Add(u, view[o].owner, -CoinWorth(k, view[o].asset, view[o].amount)) else u
  }

  lemma {:induction false} OutTallied(outs: seq<Payment>, k: Measure)
    ensures Total(OutTally(outs, k)) == OutTotal(outs, k)
    ensures forall x :: At(OutTally(outs, k), x) == OutShare(ProbeAt(k, x), outs)
  {
    if outs == [] {
      assert Total(map[]) == 0;
    } else {
      OutTallied(outs[..|outs| - 1], k);
      var t, o := OutTally(outs[..|outs| - 1], k), outs[|outs| - 1];
      TotalUpdate(t, o.owner, At(t, o.owner) + CoinWorth(k, o.asset, o.value));
    }
  }

  lemma {:induction false} InTallied(t: Changes, view: View, ins: seq<OutPoint>, k: Measure)
    ensures Total(InTally(t, view, ins, k)) == Total(t) - InTotal(view, ins, k)
    ensures forall x :: At(InTally(t, view, ins, k), x) == At(t, x) - InShare(ProbeAt(k, x), view, ins)
  {
    if ins != [] {
      InTallied(t, view, ins[..|ins| - 1], k);
      var u, o := InTally(t, view, ins[..|ins| - 1], k), ins[|ins| - 1];
      if o in view {
        TotalUpdate(u, view[o].owner, At(u, view[o].owner) - CoinWorth(k, view[o].asset, view[o].amount));
      }
    }
  }

  lemma {:induction false} TotalSame(m: Changes, n: Changes)
    requires forall x :: At(m, x) == At(n, x)
    ensures Total(m) == Total(n)
    decreases |m|
  {
    if m == map[] {
      TotalZero(n);
    } else {
      var k :| k in m;
      var a, b := m - {k}, n - {k};
      TotalRemove(m, k);
      Smaller(m, k);
      forall x
        ensures At(a, x) == At(b, x)
      {
        assert At(m, x) == At(n, x);
      }
      TotalSame(a, b);
      assert At(m, k) == At(n, k);
      if k in n {
        TotalRemove(n, k);
      } else {
        assert b == n;
      }
    }
  }

  lemma {:induction false} TotalZero(n: Changes)
    requires forall x :: At(n, x) == 0
    ensures Total(n) == 0
    decreases |n|
  {
    if n != map[] {
      var k :| k in n;
      var b := n - {k};
      assert At(n, k) == 0;
      TotalRemove(n, k);
      Smaller(n, k);
      forall x
        ensures At(b, x) == 0
      {
        assert At(n, x) == 0;
      }
      TotalZero(b);
    }
  }

  /** When every owner is settled, outputs exceed inputs by the sum of the changes, in money and in units. */
  lemma SettledTotal(msg: Msg, view: View, items: Items, k: Measure)
    requires Sound(k)
    requires forall p :: Sensible(p) ==> Delta(msg, view, p) == Change(items, p)
    ensures OutTotal(msg.outs, k) - InTotal(view, msg.ins, k) == Total(ChangesOf(items, k))
  {
    hide Total;
    var t := OutTally(msg.outs, k);
    var u := InTally(t, view, msg.ins, k);
    OutTallied(msg.outs, k);
    InTallied(t, view, msg.ins, k);
    forall x
      ensures At(u, x) == At(ChangesOf(items, k), x)
    {
      assert Sensible(ProbeAt(k, x));
    }
    TotalSame(u, ChangesOf(items, k));
  }

  // ------------------------------------------------------------------ from the calls to the message

  /** The calls of a contract, collected. */
  method Collect(calls: seq<Call>) returns (vtx: VirtualTransaction)
    ensures fresh(vtx) && vtx.Valid() && vtx.calls == calls
  {
    vtx := new VirtualTransaction();
    for i := 0 to |calls|
      invariant fresh(vtx) && vtx.Valid() && vtx.calls == calls[..i]
    {
      match calls[i] {
        case Send(sender, to, amount, a) =>
          vtx.AppendVTransfer(sender, to, amount, a);
        case Make(to, amount, a, creation) =>
          vtx.AppendVCreation(to, amount, a, creation);
      }
      assert calls[..i + 1] == calls[..i] + [calls[i]];
    }
    assert calls[..|calls|] == calls;
  }

  /**
   For any calls: the message of the collected changes, if it can be made, pays out what it takes in and
   what was minted, less what was refused, of every divisible asset and of every voucher.
   */
  method Execute(calls: seq<Call>, view: View, lookup: Lookup) returns (ok: bool, msg: Msg)
    requires Owned(view, lookup) && Creation !in view
    ensures Clean(view, msg.ins)
    ensures ok <==> AllCovered(view, AfterCalls(calls), lookup)
    ensures ok ==> forall p :: Sensible(p) ==> Delta(msg, view, p) == Change(AfterCalls(calls), p)
    ensures ok ==> forall k :: Sound(k) ==>
      OutTotal(msg.outs, k) == InTotal(view, msg.ins, k) + Minted(calls, k) - Lost(calls, k)
  {
    hide *;
    var vtx := Collect(calls);
    ValidItems(vtx, calls);
    ok, msg := GenVtxMsg(view, vtx.items, lookup);
    if ok {
      forall k | Sound(k)
        ensures OutTotal(msg.outs, k) == InTotal(view, msg.ins, k) + Minted(calls, k) - Lost(calls, k)
      {
        SettledTotal(msg, view, AfterCalls(calls), k);
        RunTotal(calls, k);
      }
    }
  }

  lemma ValidItems(vtx: VirtualTransaction, calls: seq<Call>)
    requires vtx.Valid() && vtx.calls == calls
    ensures vtx.items == AfterCalls(calls) && Sorted(vtx.items)
  {
    AlwaysSorted(calls);
  }

  /** So value is conserved, of an asset or of a voucher, if and only if what was refused evens out. */
  lemma CallsConserve(calls: seq<Call>, msg: Msg, view: View, k: Measure)
    requires Sound(k)
    requires forall p :: Sensible(p) ==> Delta(msg, view, p) == Change(AfterCalls(calls), p)
    ensures OutTotal(msg.outs, k) == InTotal(view, msg.ins, k) + Minted(calls, k) <==> Lost(calls, k) == 0
  {
    SettledTotal(msg, view, AfterCalls(calls), k);
    RunTotal(calls, k);
  }
}
