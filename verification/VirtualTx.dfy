/**
 The net changes a contract call collects (vm/fvm/core/virtualtx/virtual_tx.go): transfers and mints
 are folded into one change per address, from which the virtual transaction is made later. Amounts are
 integers; additions that would leave the permitted range are dropped, so 64-bit wrap-around never
 decides anything.
 */
module VirtualTx {
  import opened Common
  import opened Conservation

  datatype Address = Address(id: int)

  type Changes = map<Address, int>
  type Vouchers = map<Address, set<int>>

  // ------------------------------------------------------------------ sums over a map

  ghost function Total(m: Changes): int {
    if m == map[] then 0 else
      var k :| k in m;
      m[k] + Total(m - {k})
  }

  lemma {:induction false} TotalRemove(m: Changes, k: Address)
    requires k in m
    ensures Total(m) == m[k] + Total(m - {k})
    decreases |m|
  {
    var j :| j in m && Total(m) == m[j] + Total(m - {j});
    if j != k {
      var a, b := m - {j}, m - {k};
      Smaller(m, j);
      Smaller(m, k);
      TotalRemove(a, k);
      TotalRemove(b, j);
      assert a - {k} == b - {j};
    }
  }

  lemma Smaller(m: Changes, k: Address)
    requires k in m
    ensures |m - {k}| < |m|
  {
    assert (m - {k}).Keys == m.Keys - {k};
  }

  function At(m: Changes, x: Address): int { if x in m then m[x] else 0 }

  lemma TotalUpdate(m: Changes, k: Address, v: int)
    ensures Total(m[k := v]) == Total(m) - At(m, k) + v
  {
    TotalRemove(m[k := v], k);
    assert m[k := v] - {k} == m - {k};
    if k in m {
      TotalRemove(m, k);
    } else {
      assert m - {k} == m;
    }
  }

  // ------------------------------------------------------------------ divisible assets

  /** A change that would leave the range is dropped. */
  predicate Fits(m: Changes, x: Address, amount: int) {
    -MAX_XING <= amount + At(m, x) <= MAX_XING
  }

  function AddErc20(m: Changes, x: Address, amount: int): Changes {
    m[x := if Fits(m, x, amount) then At(m, x) + amount else At(m, x)]
  }

  lemma AddErc20Total(m: Changes, x: Address, amount: int)
    ensures Total(AddErc20(m, x, amount)) == Total(m) + if Fits(m, x, amount) then amount else 0
  {
    TotalUpdate(m, x, if Fits(m, x, amount) then At(m, x) + amount else At(m, x));
  }

  function Transfer20(m: Changes, sender: Address, to: Address, amount: int): Changes {
    AddErc20(AddErc20(m, sender, -amount), to, amount)
  }

  /** A transfer keeps the total exactly when both sides take it or both drop it. */
  lemma TransferConserves(m: Changes, sender: Address, to: Address, amount: int)
    ensures Total(Transfer20(m, sender, to, amount)) == Total(m) <==>
            amount == 0 ||
            (-MAX_XING <= At(m, sender) - amount <= MAX_XING <==>
             -MAX_XING <= At(AddErc20(m, sender, -amount), to) + amount <= MAX_XING)
    ensures At(AddErc20(m, sender, -amount), to) ==
            if to == sender && -MAX_XING <= At(m, sender) - amount <= MAX_XING then At(m, to) - amount else At(m, to)
  {
    AddErc20Total(m, sender, -amount);
    AddErc20Total(AddErc20(m, sender, -amount), to, amount);
  }

  /** Two transfers of the maximum to one address: the second arrives nowhere. */
  lemma TransferLost()
    ensures var a, b, c := Address(0), Address(1), Address(2);
            var m := Transfer20(map[], a, c, MAX_XING);
            Total(m) == 0 && Total(Transfer20(m, b, c, MAX_XING)) == -MAX_XING
  {
    var a, b, c := Address(0), Address(1), Address(2);
    assert Total(map[]) == 0;
    TransferConserves(map[], a, c, MAX_XING);
    var m := Transfer20(map[], a, c, MAX_XING);
    AddErc20Total(m, b, -MAX_XING);
    AddErc20Total(AddErc20(m, b, -MAX_XING), c, MAX_XING);
  }

  // ------------------------------------------------------------------ indivisible assets

  function In721(m: Vouchers, x: Address): set<int> { if x in m then m[x] else {} }

  /** An entry of the other sign is cancelled; otherwise the entry is made, once. */
  function AddErc721(m: Vouchers, x: Address, amount: int): Vouchers {
    var dic := In721(m, x);
    m[x := if -amount in dic then dic - {-amount} else dic + {amount}]
  }

  function MintErc721(m: Vouchers, x: Address, amount: int): Vouchers {
    m[x := In721(m, x) + {amount}]
  }

  /** How an address's holding of the voucher id changes: it gains, loses, or does neither. */
  function Gain(dic: set<int>, id: int): int {
    (if id in dic then 1 else 0) - (if -id in dic then 1 else 0)
  }

  function Gains(m: Vouchers, id: int): Changes {
    map x | x in m :: Gain(m[x], id)
  }

  /** An entry that is there already is not made twice. */
  predicate Repeats(m: Vouchers, x: Address, amount: int) {
    amount in In721(m, x) && -amount !in In721(m, x)
  }

  lemma AddErc721Total(m: Vouchers, x: Address, amount: int, id: int)
    requires 0 < id
    ensures Total(Gains(AddErc721(m, x, amount), id)) == Total(Gains(m, id))
              + if Repeats(m, x, amount) then 0 else if amount == id then 1 else if amount == -id then -1 else 0
  {
    var after := AddErc721(m, x, amount);
    TotalUpdate(Gains(m, id), x, Gain(after[x], id));
    assert Gains(after, id) == Gains(m, id)[x := Gain(after[x], id)];
  }

  function Transfer721(m: Vouchers, sender: Address, to: Address, id: int): Vouchers {
    AddErc721(AddErc721(m, sender, -id), to, id)
  }

  lemma RepeatsMeans(m: Vouchers, sender: Address, to: Address, id: int)
    requires 0 < id
    ensures Repeats(m, sender, -id) <==> -id in In721(m, sender) && id !in In721(m, sender)
    ensures Repeats(AddErc721(m, sender, -id), to, id) <==>
            to != sender && id in In721(m, to) && -id !in In721(m, to)
  {
  }

  /** A voucher's transfer is kept in balance exactly when neither side, or each side, repeats an entry. */
  lemma VoucherConserves(m: Vouchers, sender: Address, to: Address, id: int)
    requires 0 < id
    ensures Total(Gains(Transfer721(m, sender, to, id), id)) == Total(Gains(m, id)) <==>
            (Repeats(m, sender, -id) <==> Repeats(AddErc721(m, sender, -id), to, id))
    ensures Repeats(m, sender, -id) <==> -id in In721(m, sender) && id !in In721(m, sender)
    ensures Repeats(AddErc721(m, sender, -id), to, id) <==>
            to != sender && id in In721(m, to) && -id !in In721(m, to)
    ensures forall j :: 0 < j && j != id ==> Total(Gains(Transfer721(m, sender, to, id), j)) == Total(Gains(m, j))
  {
    hide *;
    RepeatsMeans(m, sender, to, id);
    TransferGain(m, sender, to, id, id);
    forall j | 0 < j && j != id
      ensures Total(Gains(Transfer721(m, sender, to, id), j)) == Total(Gains(m, j))
    {
      TransferGain(m, sender, to, id, j);
    }
  }

  lemma TransferGain(m: Vouchers, sender: Address, to: Address, id: int, j: int)
    requires 0 < id && 0 < j
    ensures Total(Gains(Transfer721(m, sender, to, id), j)) == Total(Gains(m, j)) +
            if j != id then 0
            else
              (if Repeats(m, sender, -id) then 0 else -1) +
              if Repeats(AddErc721(m, sender, -id), to, id) then 0 else 1
  {
    hide Gains, Gain, Repeats, AddErc721, Total;
    AddErc721Total(m, sender, -id, j);
    AddErc721Total(AddErc721(m, sender, -id), to, id, j);
  }

  /** Two addresses send the same voucher to a third: it leaves twice and arrives once. */
  lemma VoucherLost()
    ensures var a, b, c := Address(0), Address(1), Address(2);
            var m := Transfer721(map[], a, c, 7);
            Total(Gains(m, 7)) == 0 && Total(Gains(Transfer721(m, b, c, 7), 7)) == -1
  {
    var a, b, c := Address(0), Address(1), Address(2);
    assert Gains(map[], 7) == map[] && Total(map[]) == 0;
    AddErc721Total(map[], a, -7, 7);
    AddErc721Total(AddErc721(map[], a, -7), c, 7, 7);
    var m := Transfer721(map[], a, c, 7);
    AddErc721Total(m, b, -7, 7);
    AddErc721Total(AddErc721(m, b, -7), c, 7, 7);
  }

  // ------------------------------------------------------------------ what is measured

  /** The changes collected so far; mint and create are the flags of the assets. */
  datatype Items = Items(erc20: map<Asset, Changes>, erc721: map<Asset, Vouchers>, mint: set<Asset>, create: set<Asset>)

  const NOTHING: Items := Items(map[], map[], {}, {})

  function Item20(items: Items, a: Asset): Changes { if a in items.erc20 then items.erc20[a] else map[] }
  function Item721(items: Items, a: Asset): Vouchers { if a in items.erc721 then items.erc721[a] else map[] }

  /** The amount of a divisible asset, or the units of one voucher of an indivisible one. */
  datatype Measure = Money(asset: Asset) | Units(asset: Asset, id: int)

  predicate Sound(k: Measure) {
    if k.Money? then !IsIndivisible(k.asset) else IsIndivisible(k.asset) && 0 < k.id
  }

  /** What a change of so much means for the measure. */
  function Worth(k: Measure, amount: int): int {
    if k.Money? then amount else if amount == k.id then 1 else if amount == -k.id then -1 else 0
  }

  function ChangesOf(items: Items, k: Measure): Changes {
    if k.Money? then Item20(items, k.asset) else Gains(Item721(items, k.asset), k.id)
  }

  /** How much of it an address has gained. */
  function Gained(items: Items, k: Measure, x: Address): int { At(ChangesOf(items, k), x) }

  /** A change that has no effect: it leaves the range, or repeats an entry. */
  predicate Refused(items: Items, k: Measure, x: Address, amount: int) {
    if k.Money? then !Fits(Item20(items, k.asset), x, amount) else Repeats(Item721(items, k.asset), x, amount)
  }

  /** Minting a voucher has no effect when the address has it in its list already. */
  predicate RefusedMint(items: Items, k: Measure, x: Address, amount: int) {
    if k.Money? then !Fits(Item20(items, k.asset), x, amount) else amount in In721(Item721(items, k.asset), x)
  }

  // ------------------------------------------------------------------ a contract call

  /** A transfer between addresses, or the creation of an asset or of more of it. */
  datatype Call =
    | Send(sender: Address, to: Address, amount: int, asset: Asset)
    | Make(to: Address, amount: int, asset: Asset, creation: bool)

  /** addChange, on the record of the asset. */
  function Changed(items: Items, a: Asset, x: Address, amount: int): Items {
    if IsIndivisible(a) then items.(erc721 := items.erc721[a := AddErc721(Item721(items, a), x, amount)])
    else items.(erc20 := items.erc20[a := AddErc20(Item20(items, a), x, amount)])
  }

  function Made(items: Items, a: Asset, x: Address, amount: int): Items {
    if IsIndivisible(a) then items.(erc721 := items.erc721[a := MintErc721(Item721(items, a), x, amount)])
    else items.(erc20 := items.erc20[a := AddErc20(Item20(items, a), x, amount)])
  }

  /** getItem: the record is there afterwards. */
  function Touched(items: Items, a: Asset): Items {
    if IsIndivisible(a) then items.(erc721 := items.erc721[a := Item721(items, a)])
    else items.(erc20 := items.erc20[a := Item20(items, a)])
  }

  function AfterCall(items: Items, c: Call): Items {
    if c.Send? then Changed(Changed(items, c.asset, c.sender, -c.amount), c.asset, c.to, c.amount)
    else
      var made := if 0 < c.amount then Made(items, c.asset, c.to, c.amount) else Touched(items, c.asset);
      made.(mint := if 0 < c.amount then items.mint + {c.asset} else items.mint,
            create := if c.creation then items.create + {c.asset} else items.create)
  }

  function AfterCalls(calls: seq<Call>): Items {
    if calls == [] then NOTHING else AfterCall(AfterCalls(calls[..|calls| - 1]), calls[|calls| - 1])
  }

  lemma CallsNext(calls: seq<Call>, c: Call)
    ensures AfterCalls(calls + [c]) == AfterCall(AfterCalls(calls), c)
  {
    assert (calls + [c])[..|calls|] == calls;
  }

  /** One change moves one address by its worth, unless it is refused, and the total with it. */
  lemma ChangedBy(items: Items, a: Asset, x: Address, amount: int, k: Measure)
    requires Sound(k)
    ensures var after := Changed(items, a, x, amount);
            var d := if k.asset != a || Refused(items, k, x, amount) then 0 else Worth(k, amount);
            && Total(ChangesOf(after, k)) == Total(ChangesOf(items, k)) + d
            && forall y :: Gained(after, k, y) == Gained(items, k, y) + if y == x then d else 0
  {
    var after := Changed(items, a, x, amount);
    if k.asset == a {
      MovedBy(items, after, k, x, if Refused(items, k, x, amount) then 0 else Worth(k, amount));
    }
  }

  lemma MadeBy(items: Items, a: Asset, x: Address, amount: int, k: Measure)
    requires Sound(k) && 0 < amount
    ensures var after := Made(items, a, x, amount);
            var d := if k.asset != a || RefusedMint(items, k, x, amount) then 0 else Worth(k, amount);
            && Total(ChangesOf(after, k)) == Total(ChangesOf(items, k)) + d
            && forall y :: Gained(after, k, y) == Gained(items, k, y) + if y == x then d else 0
  {
    var after := Made(items, a, x, amount);
    if k.asset == a {
      MovedBy(items, after, k, x, if RefusedMint(items, k, x, amount) then 0 else Worth(k, amount));
    }
  }

  lemma TouchedBy(items: Items, a: Asset, k: Measure)
    ensures ChangesOf(Touched(items, a), k) == ChangesOf(items, k)
  {
  }

  /** One address changed: so does the total. */
  lemma MovedBy(items: Items, after: Items, k: Measure, x: Address, d: int)
    requires x in ChangesOf(after, k) && ChangesOf(after, k)[x] == Gained(items, k, x) + d
    requires ChangesOf(after, k).Keys == ChangesOf(items, k).Keys + {x}
    requires forall y :: y in ChangesOf(items, k) && y != x ==> ChangesOf(after, k)[y] == ChangesOf(items, k)[y]
    ensures Total(ChangesOf(after, k)) == Total(ChangesOf(items, k)) + d
    ensures forall y :: Gained(after, k, y) == Gained(items, k, y) + if y == x then d else 0
  {
    hide ChangesOf;
    TotalUpdate(ChangesOf(items, k), x, Gained(items, k, x) + d);
    assert ChangesOf(after, k) == ChangesOf(items, k)[x := Gained(items, k, x) + d];
  }

  /** What a change of the measure at an address amounts to, in this state. */
  function Credit(items: Items, k: Measure, a: Asset, x: Address, amount: int): int {
    if k.asset != a || Refused(items, k, x, amount) then 0 else Worth(k, amount)
  }

  function MintCredit(items: Items, k: Measure, a: Asset, x: Address, amount: int): int {
    if k.asset != a || amount <= 0 || RefusedMint(items, k, x, amount) then 0 else Worth(k, amount)
  }

  class VirtualTransaction {
    var items: Items
    ghost var calls: seq<Call>

    /** The items are what the calls made so far come to. */
    ghost predicate Valid()
      reads this
    {
      items == AfterCalls(calls)
    }

    constructor ()
      ensures Valid() && calls == []
    {
      items := NOTHING;
      calls := [];
    }

    method GetItem(a: Asset)
      modifies this`items
      ensures items == Touched(old(items), a)
    {
      if IsIndivisible(a) {
        if a !in items.erc721 {
          items := items.(erc721 := items.erc721[a := map[]]);
        }
      } else if a !in items.erc20 {
        items := items.(erc20 := items.erc20[a := map[]]);
      }
      assert items == Touched(old(items), a);
    }

    method AddChange(a: Asset, x: Address, amount: int)
      requires if IsIndivisible(a) then a in items.erc721 else a in items.erc20
      modifies this`items
      ensures items == Changed(old(items), a, x, amount)
    {
      if IsIndivisible(a) {
        var dic := if x in items.erc721[a] then items.erc721[a][x] else {};
        dic := if -amount in dic then dic - {-amount} else dic + {amount};
        items := items.(erc721 := items.erc721[a := items.erc721[a][x := dic]]);
      } else {
        var m := items.erc20[a];
        if x !in m {
          m := m[x := 0];
        }
        if -MAX_XING <= amount + m[x] <= MAX_XING {
          m := m[x := m[x] + amount];
        }
        assert m == AddErc20(items.erc20[a], x, amount);
        items := items.(erc20 := items.erc20[a := m]);
      }
    }

    method Mint(a: Asset, x: Address, amount: int)
      requires if IsIndivisible(a) then a in items.erc721 else a in items.erc20
      modifies this`items
      ensures items == Made(old(items), a, x, amount)
    {
      if IsIndivisible(a) {
        var dic := if x in items.erc721[a] then items.erc721[a][x] else {};
        items := items.(erc721 := items.erc721[a := items.erc721[a][x := dic + {amount}]]);
      } else {
        AddChange(a, x, amount);
      }
    }

    /**
     The sender loses and the receiver gains what is sent, each unless its side is refused; nobody else
     and no other asset is touched, and no flag.
     */
    method AppendVTransfer(sender: Address, to: Address, amount: int, a: Asset)
      requires Valid()
      modifies this
      ensures Valid() && calls == old(calls) + [Send(sender, to, amount, a)]
      ensures items.mint == old(items.mint) && items.create == old(items.create)
      ensures forall k, x :: Sound(k) ==>
        Gained(items, k, x) == old(Gained(items, k, x))
          + (if x == sender then old(Credit(items, k, a, sender, -amount)) else 0)
          + (if x == to then Credit(Changed(old(items), a, sender, -amount), k, a, to, amount) else 0)
    {
      hide Changed, AfterCalls, Gained, Credit;
      GetItem(a);
      ChangedTouched(old(items), a, sender, -amount);
      AddChange(a, sender, -amount);
      ChangedPresent(old(items), a, sender, -amount);
      AddChange(a, to, amount);
      calls := calls + [Send(sender, to, amount, a)];
      CallsNext(old(calls), Send(sender, to, amount, a));
      SendFlags(old(items), sender, to, amount, a);
      forall k, x | Sound(k)
        ensures Gained(items, k, x) == old(Gained(items, k, x))
          + (if x == sender then old(Credit(items, k, a, sender, -amount)) else 0)
          + (if x == to then Credit(Changed(old(items), a, sender, -amount), k, a, to, amount) else 0)
      {
        SendBy(old(items), sender, to, amount, a, k, x);
      }
    }

    /** Only the receiver gains, by what is made unless that is refused; the flags say what was done. */
    method AppendVCreation(to: Address, amount: int, a: Asset, creation: bool)
      requires Valid()
      modifies this
      ensures Valid() && calls == old(calls) + [Make(to, amount, a, creation)]
      ensures items.mint == old(items.mint) + if 0 < amount then {a} else {}
      ensures items.create == old(items.create) + if creation then {a} else {}
      ensures forall k, x :: Sound(k) ==>
        Gained(items, k, x) == old(Gained(items, k, x)) +
            if x == to then old(MintCredit(items, k, a, to, amount)) else 0
    {
      hide Made, AfterCalls, Gained, MintCredit, ChangesOf;
      GetItem(a);
      if creation {
        items := items.(create := items.create + {a});
      }
      if 0 < amount {
        items := items.(mint := items.mint + {a});
        Mint(a, to, amount);
      }
      MakeFlags(old(items), to, amount, a, creation);
      calls := calls + [Make(to, amount, a, creation)];
      CallsNext(old(calls), Make(to, amount, a, creation));
      forall k, x | Sound(k)
        ensures Gained(items, k, x) == old(Gained(items, k, x)) +
            if x == to then old(MintCredit(items, k, a, to, amount)) else 0
      {
        MakeBy(old(items), to, amount, a, creation, k, x);
      }
    }
  }

  lemma ChangedTouched(items: Items, a: Asset, x: Address, amount: int)
    ensures Changed(Touched(items, a), a, x, amount) == Changed(items, a, x, amount)
    ensures if IsIndivisible(a) then a in Touched(items, a).erc721 else a in Touched(items, a).erc20
  {
    hide AddErc20, AddErc721;
    if IsIndivisible(a) {
      var d := AddErc721(Item721(items, a), x, amount);
      assert items.erc721[a := Item721(items, a)][a := d] == items.erc721[a := d];
    } else {
      var d := AddErc20(Item20(items, a), x, amount);
      assert items.erc20[a := Item20(items, a)][a := d] == items.erc20[a := d];
    }
  }

  lemma ChangedPresent(items: Items, a: Asset, x: Address, amount: int)
    ensures var after := Changed(items, a, x, amount);
            if IsIndivisible(a) then a in after.erc721 else a in after.erc20
  {
  }

  lemma SendFlags(items: Items, sender: Address, to: Address, amount: int, a: Asset)
    ensures var after := Changed(Changed(items, a, sender, -amount), a, to, amount);
            after.mint == items.mint && after.create == items.create
  {
  }

  lemma SendBy(items: Items, sender: Address, to: Address, amount: int, a: Asset, k: Measure, x: Address)
    requires Sound(k)
    ensures var mid := Changed(items, a, sender, -amount);
            Gained(Changed(mid, a, to, amount), k, x) == Gained(items, k, x)
              + (if x == sender then Credit(items, k, a, sender, -amount) else 0)
              + (if x == to then Credit(mid, k, a, to, amount) else 0)
  {
    hide Changed, Gained, ChangesOf, Refused, Worth;
    ChangedBy(items, a, sender, -amount, k);
    ChangedBy(Changed(items, a, sender, -amount), a, to, amount, k);
  }

  /** The flags are set before the record is changed, which makes no difference. */
  lemma MakeFlags(items: Items, to: Address, amount: int, a: Asset, creation: bool)
    ensures var t := Touched(items, a);
            var u := if creation then t.(create := t.create + {a}) else t;
            var v := if 0 < amount then Made(u.(mint := u.mint + {a}), a, to, amount) else u;
            && v == AfterCall(items, Make(to, amount, a, creation))
            && v.mint == items.mint + (if 0 < amount then {a} else {})
            && v.create == items.create + (if creation then {a} else {})
    ensures if IsIndivisible(a) then a in Touched(items, a).erc721 else a in Touched(items, a).erc20
  {
    hide Made;
    var t := Touched(items, a);
    var mint := if 0 < amount then t.mint + {a} else t.mint;
    var create := if creation then t.create + {a} else t.create;
    MadeTouched(items, a, to, amount, mint, create);
  }

  lemma MadeTouched(items: Items, a: Asset, x: Address, amount: int, mint: set<Asset>, create: set<Asset>)
    ensures Made(Touched(items, a).(mint := mint, create := create), a, x, amount) ==
            Made(items, a, x, amount).(mint := mint, create := create)
  {
    hide AddErc20, MintErc721;
    if IsIndivisible(a) {
      var d := MintErc721(Item721(items, a), x, amount);
      assert items.erc721[a := Item721(items, a)][a := d] == items.erc721[a := d];
    } else {
      var d := AddErc20(Item20(items, a), x, amount);
      assert items.erc20[a := Item20(items, a)][a := d] == items.erc20[a := d];
    }
  }

  lemma MakeBy(items: Items, to: Address, amount: int, a: Asset, creation: bool, k: Measure, x: Address)
    requires Sound(k)
    ensures Gained(AfterCall(items, Make(to, amount, a, creation)), k, x) ==
            Gained(items, k, x) + if x == to then MintCredit(items, k, a, to, amount) else 0
    ensures Total(ChangesOf(AfterCall(items, Make(to, amount, a, creation)), k)) ==
            Total(ChangesOf(items, k)) + MintCredit(items, k, a, to, amount)
  {
    hide Made, Touched, RefusedMint, Worth, Total;
    var after := AfterCall(items, Make(to, amount, a, creation));
    if 0 < amount {
      SameRecords(after, Made(items, a, to, amount), k);
      MadeBy(items, a, to, amount, k);
    } else {
      SameRecords(after, Touched(items, a), k);
      TouchedBy(items, a, k);
    }
  }

  lemma SameRecords(i: Items, j: Items, k: Measure)
    requires i.erc20 == j.erc20 && i.erc721 == j.erc721
    ensures ChangesOf(i, k) == ChangesOf(j, k)
  {
  }

  // ------------------------------------------------------------------ whole runs

  /** What was minted. */
  function Minted(calls: seq<Call>, k: Measure): int {
    if calls == [] then 0
    else
      var c := calls[|calls| - 1];
      Minted(calls[..|calls| - 1], k) + if c.Make? && c.asset == k.asset && 0 < c.amount then Worth(k, c.amount) else 0
  }

  /** What one call meant to change and did not. */
  function LostBy(items: Items, c: Call, k: Measure): int {
    if c.asset != k.asset then 0
    else if c.Send? then
      var mid := Changed(items, c.asset, c.sender, -c.amount);
      (if Refused(items, k, c.sender, -c.amount) then Worth(k, -c.amount) else 0)
      + (if Refused(mid, k, c.to, c.amount) then Worth(k, c.amount) else 0)
    else if 0 < c.amount && RefusedMint(items, k, c.to, c.amount) then Worth(k, c.amount) else 0
  }

  function Lost(calls: seq<Call>, k: Measure): int {
    if calls == [] then 0
    else
      var init := calls[..|calls| - 1];
      Lost(init, k) + LostBy(AfterCalls(init), calls[|calls| - 1], k)
  }

  lemma CallTotal(items: Items, c: Call, k: Measure)
    requires Sound(k)
    ensures Total(ChangesOf(AfterCall(items, c), k)) == Total(ChangesOf(items, k))
              + (if c.Make? && c.asset == k.asset && 0 < c.amount then Worth(k, c.amount) else 0) - LostBy(items, c, k)
  {
    hide Changed, Made, Touched, ChangesOf, Refused, RefusedMint, Total;
    if c.Send? {
      ChangedBy(items, c.asset, c.sender, -c.amount, k);
      ChangedBy(Changed(items, c.asset, c.sender, -c.amount), c.asset, c.to, c.amount, k);
    } else {
      MakeBy(items, c.to, c.amount, c.asset, c.creation, k, c.to);
    }
  }

  /** Over any calls, the changes add up to what was minted less what was refused. */
  lemma {:induction false} RunTotal(calls: seq<Call>, k: Measure)
    requires Sound(k)
    ensures Total(ChangesOf(AfterCalls(calls), k)) == Minted(calls, k) - Lost(calls, k)
  {
    if calls == [] {
      assert ChangesOf(NOTHING, k) == map[] && Total(map[]) == 0;
    } else {
      var init, c := calls[..|calls| - 1], calls[|calls| - 1];
      RunTotal(init, k);
      CallTotal(AfterCalls(init), c, k);
    }
  }

  // ------------------------------------------------------------------ an example

  const GOLD: Asset := Asset(0, 7)

  /** Five are made for one address, which sends three of them to another and twice to itself. */
  function Story(x: Address, y: Address): seq<Call> {
    [Make(x, 5, GOLD, true), Send(x, y, 3, GOLD), Send(x, x, 1, GOLD)]
  }

  lemma StoryTold(x: Address, y: Address)
    requires x != y
    ensures AfterCalls(Story(x, y)).erc20 == map[GOLD := map[x := 2, y := 3]]
    ensures AfterCalls(Story(x, y)).mint == {GOLD} == AfterCalls(Story(x, y)).create
    ensures Minted(Story(x, y), Money(GOLD)) == 5 && Lost(Story(x, y), Money(GOLD)) == 0
  {
    var c, d, e := Make(x, 5, GOLD, true), Send(x, y, 3, GOLD), Send(x, x, 1, GOLD);
    assert Story(x, y) == [] + [c] + [d] + [e];
    var i, j := Items(map[GOLD := map[x := 5]], map[], {GOLD}, {GOLD}),
      Items(map[GOLD := map[x := 2, y := 3]], map[], {GOLD}, {GOLD});
    assert AfterCall(NOTHING, c) == i by {
      assert AddErc20(map[], x, 5) == map[x := 5];
      assert map[][GOLD := map[x := 5]] == map[GOLD := map[x := 5]];
    }
    assert AfterCall(i, d) == j by {
      assert AddErc20(map[x := 5], x, -3) == map[x := 2] && AddErc20(map[x := 2], y, 3) == map[x := 2, y := 3];
      assert i.erc20[GOLD := map[x := 2]][GOLD := map[x := 2, y := 3]] == j.erc20;
    }
    assert AfterCall(j, e) == j by {
      assert AddErc20(map[x := 2, y := 3], x, -1) == map[x := 1, y := 3];
      assert AddErc20(map[x := 1, y := 3], x, 1) == map[x := 2, y := 3];
      assert j.erc20[GOLD := map[x := 1, y := 3]][GOLD := map[x := 2, y := 3]] == j.erc20;
    }
    StoryStep([], c, NOTHING);
    StoryStep([] + [c], d, i);
    StoryStep([] + [c] + [d], e, j);
  }

  lemma StoryStep(calls: seq<Call>, c: Call, items: Items)
    requires AfterCalls(calls) == items
    ensures AfterCalls(calls + [c]) == AfterCall(items, c)
    ensures Lost(calls + [c], Money(GOLD)) == Lost(calls, Money(GOLD)) + LostBy(items, c, Money(GOLD))
    ensures Minted(calls + [c], Money(GOLD)) ==
            Minted(calls, Money(GOLD)) + if c.Make? && c.asset == GOLD && 0 < c.amount then c.amount else 0
  {
    hide AfterCall, LostBy;
    assert (calls + [c])[..|calls|] == calls;
  }
}
