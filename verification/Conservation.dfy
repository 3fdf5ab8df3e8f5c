/**
 Conservation of value (blockchain/validate.go): what the checks on transaction inputs, fees and the
 coinbase together guarantee for a block, and what the subsidy adds up to over a chain. Totals wrap
 around at 64 bits, as they do in the Go code.
 */
module Conservation {
  import opened Common

  const XING_PER_ASIMOV: int := 100_000_000
  const MAX_XING: int := 10_000_000_000 * XING_PER_ASIMOV
  const BASE_SUBSIDY: int := 200 * XING_PER_ASIMOV
  const MAIN_NET_INTERVAL: int := 25_000_000

  const ASIMOV: Asset := Asset(0, 0)

  predicate IsIndivisible(a: Asset) { a.property % 2 == 1 }

  /** call: the script calls a contract, which only a first output may do; data: it has call data. */
  datatype Output = Output(value: int, asset: Asset, call: bool, data: bool)

  /** A transaction with its inputs looked up; None is an output that is missing or spent. */
  datatype Tx = Tx(ins: seq<Option<Coin>>, outs: seq<Output>)

  /** An amount of an asset; for an indivisible asset the amount is the id of one unit. */
  datatype Item = Item(asset: Asset, amount: int)

  type Totals = map<Asset, int>
  type Ids = map<Asset, set<int>>

  function Get(t: Totals, a: Asset): int { if a in t then t[a] else 0 }

  // ------------------------------------------------------------------ 64-bit arithmetic

  const LIMIT: int := 0x8000_0000_0000_0000

  function Wrap(x: int): (r: int)
    ensures -LIMIT <= r < LIMIT
  {
    (x + LIMIT) % (2 * LIMIT) - LIMIT
  }

  lemma WrapSum(x: int, y: int)
    ensures Wrap(Wrap(x) + y) == Wrap(x + y)
  {
  }

  lemma WrapSmall(x: int)
    ensures Wrap(x) == x <==> -LIMIT <= x < LIMIT
    ensures 0 <= x ==> Wrap(x) <= x
  {
  }

  // ------------------------------------------------------------------ what is counted

  function Inputs(ins: seq<Option<Coin>>): seq<Item> {
    if ins == [] then []
    else
      var last := ins[|ins| - 1];
      Inputs(ins[..|ins| - 1]) + if last.Some? then [Item(last.value.asset, last.value.amount)] else []
  }

  function Outputs(outs: seq<Output>): (r: seq<Item>)
    ensures |r| == |outs|
  {
    seq(|outs|, i requires 0 <= i < |outs| => Item(outs[i].asset, outs[i].value))
  }

  /** The amounts of one asset. */
  function Of(items: seq<Item>, a: Asset): seq<int> {
    if items == [] then []
    else
      var last := items[|items| - 1];
      Of(items[..|items| - 1], a) + if last.asset == a then [last.amount] else []
  }

  function ToSet(s: seq<int>): set<int> { set x | x in s }

  lemma OfGrow(items: seq<Item>, x: Item, a: Asset)
    ensures Of(items + [x], a) == if x.asset == a then Of(items, a) + [x.amount] else Of(items, a)
  {
    assert (items + [x])[..|items|] == items;
  }

  lemma {:induction false} SumAppend(s: seq<int>, t: seq<int>)
    ensures Sum(s + t) == Sum(s) + Sum(t)
    decreases |t|
  {
    if t == [] {
      assert s + t == s;
    } else {
      SumAppend(s, t[..|t| - 1]);
      assert (s + t)[..|s + t| - 1] == s + t[..|t| - 1];
    }
  }

  lemma {:induction false} OfAppend(x: seq<Item>, y: seq<Item>, a: Asset)
    ensures Of(x + y, a) == Of(x, a) + Of(y, a)
    decreases |y|
  {
    if y == [] {
      assert x + y == x && Of(x, a) + [] == Of(x, a);
    } else {
      OfAppend(x, y[..|y| - 1], a);
      assert (x + y)[..|x + y| - 1] == x + y[..|y| - 1];
    }
  }

  /** Totals of divisible assets and ids of indivisible ones are those of the items, each id once. */
  ghost predicate Counted(items: seq<Item>, coins: Totals, ids: Ids) {
    forall a: Asset :: CountedAt(items, coins, ids, a)
  }

  ghost predicate CountedAt(items: seq<Item>, coins: Totals, ids: Ids, a: Asset) {
    var s := Of(items, a);
    if IsIndivisible(a) then
      a !in coins && NoDup(s) && (a in ids <==> s != []) && (a in ids ==> ids[a] == ToSet(s))
    else
      a !in ids && (a in coins <==> s != []) && (a in coins ==> coins[a] == Wrap(Sum(s)))
  }

  ghost predicate Distinct(items: seq<Item>) {
    forall a: Asset :: IsIndivisible(a) ==> NoDup(Of(items, a))
  }

  lemma CountedDistinct(items: seq<Item>, coins: Totals, ids: Ids)
    requires Counted(items, coins, ids)
    ensures Distinct(items)
  {
    forall a: Asset | IsIndivisible(a)
      ensures NoDup(Of(items, a))
    {
      assert CountedAt(items, coins, ids, a);
    }
  }

  /** One item enters the counts; a second unit with the same id is refused. */
  method Count(x: Item, coins0: Totals, ids0: Ids, ghost items: seq<Item>) returns (ok: bool, coins: Totals, ids: Ids)
    requires Counted(items, coins0, ids0)
    ensures ok ==> Counted(items + [x], coins, ids)
    ensures !ok ==> !Distinct(items + [x])
  {
    hide Wrap, Of;
    coins, ids := coins0, ids0;
    assert CountedAt(items, coins, ids, x.asset);
    OfGrow(items, x, x.asset);
    if !IsIndivisible(x.asset) {
      coins := coins[x.asset := Wrap(Get(coins, x.asset) + x.amount)];
    } else {
      var info := if x.asset in ids then ids[x.asset] else {};
      assert info == ToSet(Of(items, x.asset));
      if x.amount in info {
        Twice(Of(items, x.asset), x.amount);
        return false, coins, ids;
      }
      assert x.amount !in Of(items, x.asset);
      ids := ids[x.asset := info + {x.amount}];
    }
    forall a: Asset
      ensures CountedAt(items + [x], coins, ids, a)
    {
      CountedNext(items, x, coins0, ids0, coins, ids, a);
    }
    ok := true;
  }

  lemma CountedNext(items: seq<Item>, x: Item, coins0: Totals, ids0: Ids, coins: Totals, ids: Ids, a: Asset)
    requires CountedAt(items, coins0, ids0, a)
    requires a != x.asset || IsIndivisible(a) ==> (a in coins <==> a in coins0) && Get(coins, a) == Get(coins0, a)
    requires a != x.asset || !IsIndivisible(a) ==> (a in ids <==> a in ids0) && (a in ids ==> ids[a] == ids0[a])
    requires a == x.asset && !IsIndivisible(a) ==> a in coins && coins[a] == Wrap(Get(coins0, a) + x.amount)
    requires a == x.asset && IsIndivisible(a) ==>
               && x.amount !in Of(items, a) && a in ids
               && ids[a] == (if a in ids0 then ids0[a] else {}) + {x.amount}
    ensures CountedAt(items + [x], coins, ids, a)
  {
    hide Wrap, Of;
    OfGrow(items, x, a);
    if a == x.asset {
      OneMore(Of(items, a), x.amount);
      SumGrow(Of(items, a), x.amount);
      WrapSum(Sum(Of(items, a)), x.amount);
    }
  }

  lemma Twice(s: seq<int>, x: int)
    requires x in s
    ensures !NoDup(s + [x])
  {
    var i :| 0 <= i < |s| && s[i] == x;
    assert (s + [x])[i] == (s + [x])[|s|];
  }

  lemma OneMore(s: seq<int>, x: int)
    ensures ToSet(s + [x]) == ToSet(s) + {x}
    ensures NoDup(s) && x !in s ==> NoDup(s + [x])
  {
  }

  /** An input may be spent: there, mature, and of a legal amount. */
  predicate Spendable(c: Option<Coin>, height: int, maturity: int) {
    && c.Some? && (c.value.coinbase ==> height - c.value.height >= maturity)
    && 0 < c.value.amount <= MAX_XING
  }

  ghost predicate AllSpendable(ins: seq<Option<Coin>>, height: int, maturity: int) {
    forall i :: 0 <= i < |ins| ==> Spendable(ins[i], height, maturity)
  }

  lemma {:induction false} DistinctPrefix(x: seq<Item>, y: seq<Item>)
    requires Distinct(x + y)
    ensures Distinct(x)
  {
    forall a: Asset | IsIndivisible(a)
      ensures NoDup(Of(x, a))
    {
      OfAppend(x, y, a);
      var s, t := Of(x, a), Of(y, a);
      assert forall i :: 0 <= i < |s| ==> (s + t)[i] == s[i];
    }
  }

  lemma NothingCounted()
    ensures Counted([], map[], map[])
  {
    forall a: Asset
      ensures CountedAt([], map[], map[], a)
    {
    }
  }

  /** The loop over the inputs. */
  method CountInputs(ins: seq<Option<Coin>>, height: int, maturity: int) returns (ok: bool, coins: Totals, ids: Ids)
    ensures ok <==> AllSpendable(ins, height, maturity) && Distinct(Inputs(ins))
    ensures ok ==> Counted(Inputs(ins), coins, ids)
  {
    hide Wrap, Of, Counted, Distinct;
    coins, ids := map[], map[];
    assert ins[..0] == [];
    NothingCounted();
    for i := 0 to |ins|
      invariant AllSpendable(ins[..i], height, maturity) && Counted(Inputs(ins[..i]), coins, ids)
    {
      assert ins[..i + 1][..i] == ins[..i];
      if !Spendable(ins[i], height, maturity) {
        return false, coins, ids;
      }
      var x := Item(ins[i].value.asset, ins[i].value.amount);
      ok, coins, ids := Count(x, coins, ids, Inputs(ins[..i]));
      if !ok {
        InputsPrefix(ins, i + 1);
        return;
      }
    }
    assert ins[..|ins|] == ins;
    CountedDistinct(Inputs(ins), coins, ids);
    ok := true;
  }

  lemma {:induction false} InputsPrefix(ins: seq<Option<Coin>>, i: nat)
    requires i <= |ins|
    ensures Distinct(Inputs(ins)) ==> Distinct(Inputs(ins[..i]))
    decreases |ins|
  {
    if i < |ins| {
      var init := ins[..|ins| - 1];
      InputsPrefix(init, i);
      assert init[..i] == ins[..i];
      var last := ins[|ins| - 1];
      if Distinct(Inputs(ins)) {
        DistinctPrefix(Inputs(init), if last.Some? then [Item(last.value.asset, last.value.amount)] else []);
      }
    } else {
      assert ins[..i] == ins;
    }
  }

  ghost predicate CallsFirst(outs: seq<Output>) {
    forall i :: 0 < i < |outs| ==> !outs[i].call
  }

  /** The loop over the outputs. */
  method CountOutputs(outs: seq<Output>) returns (ok: bool, coins: Totals, ids: Ids)
    ensures ok <==> CallsFirst(outs) && Distinct(Outputs(outs))
    ensures ok ==> Counted(Outputs(outs), coins, ids)
  {
    hide Wrap, Of, Counted, Distinct;
    coins, ids := map[], map[];
    assert Outputs(outs[..0]) == [];
    NothingCounted();
    for i := 0 to |outs|
      invariant CallsFirst(outs[..i]) && Counted(Outputs(outs[..i]), coins, ids)
    {
      if i != 0 && outs[i].call {
        return false, coins, ids;
      }
      var x := Item(outs[i].asset, outs[i].value);
      assert Outputs(outs[..i + 1]) == Outputs(outs[..i]) + [x];
      ok, coins, ids := Count(x, coins, ids, Outputs(outs[..i]));
      if !ok {
        assert Outputs(outs) == Outputs(outs[..i + 1]) + Outputs(outs[i + 1..]);
        if Distinct(Outputs(outs)) {
          DistinctPrefix(Outputs(outs[..i + 1]), Outputs(outs[i + 1..]));
        }
        return;
      }
    }
    assert outs[..|outs|] == outs;
    CountedDistinct(Outputs(outs), coins, ids);
    ok := true;
  }

  // ------------------------------------------------------------------ one transaction

  function In(tx: Tx, a: Asset): seq<int> { Of(Inputs(tx.ins), a) }
  function Out(tx: Tx, a: Asset): seq<int> { Of(Outputs(tx.outs), a) }

  /** Outputs carry positive values, of which no divisible asset has more than the maximum in all. */
  ghost predicate SaneOutputs(outs: seq<Output>) {
    && (forall i :: 0 <= i < |outs| ==> SaneValue(outs[i]))
    && (forall a: Asset :: !IsIndivisible(a) ==> Sum(Of(Outputs(outs), a)) <= MAX_XING)
  }

  predicate SaneValue(o: Output) {
    0 < o.value || (o.value == 0 && !IsIndivisible(o.asset) && o.data)
  }

  lemma {:induction false} OfNonNegative(items: seq<Item>, a: Asset)
    requires forall i :: 0 <= i < |items| ==> 0 <= items[i].amount
    ensures 0 <= Sum(Of(items, a))
  {
    if items != [] {
      var init := items[..|items| - 1];
      OfNonNegative(init, a);
      assert items == init + [items[|items| - 1]];
      OfGrow(init, items[|items| - 1], a);
      SumGrow(Of(init, a), items[|items| - 1].amount);
    }
  }

  lemma PrefixBound(x: seq<Item>, y: seq<Item>, a: Asset)
    requires forall i :: 0 <= i < |y| ==> 0 <= y[i].amount
    ensures Sum(Of(x, a)) <= Sum(Of(x + y, a))
  {
    OfAppend(x, y, a);
    SumAppend(Of(x, a), Of(y, a));
    OfNonNegative(y, a);
  }

  /** The running totals of divisible assets while the outputs are checked. */
  ghost predicate Running(outs: seq<Output>, totals: Totals) {
    && (forall i :: 0 <= i < |outs| ==> SaneValue(outs[i]))
    && (forall a: Asset :: RunningAt(outs, totals, a))
  }

  ghost predicate RunningAt(outs: seq<Output>, totals: Totals, a: Asset) {
    !IsIndivisible(a) ==> 0 <= Get(totals, a) == Sum(Of(Outputs(outs), a)) <= MAX_XING
  }

  lemma RunningGrow(before: seq<Output>, o: Output, totals0: Totals, totals: Totals)
    requires Running(before, totals0) && SaneValue(o)
    requires forall a: Asset :: a != o.asset || IsIndivisible(a) ==> Get(totals, a) == Get(totals0, a)
    requires !IsIndivisible(o.asset) ==> Get(totals, o.asset) == Get(totals0, o.asset) + o.value <= MAX_XING
    ensures Running(before + [o], totals)
  {
    forall a: Asset
      ensures RunningAt(before + [o], totals, a)
    {
      assert RunningAt(before, totals0, a);
      OutputGrow(before, o, a);
    }
  }

  lemma OutputGrow(before: seq<Output>, o: Output, a: Asset)
    ensures Sum(Of(Outputs(before + [o]), a)) == Sum(Of(Outputs(before), a)) + if a == o.asset then o.value else 0
  {
    var x := Item(o.asset, o.value);
    assert Outputs(before + [o]) == Outputs(before) + [x];
    OfGrow(Outputs(before), x, a);
    SumGrow(Of(Outputs(before), a), o.value);
  }

  method CheckOutput(o: Output, totals0: Totals, ghost before: seq<Output>) returns (ok: bool, totals: Totals)
    requires Running(before, totals0)
    requires Wrap(o.value) == o.value
    ensures ok ==> Running(before + [o], totals)
    ensures !ok ==> !SaneValue(o) || (!IsIndivisible(o.asset) && Sum(Of(Outputs(before + [o]), o.asset)) > MAX_XING)
  {
    hide Wrap;
    hide Running;
    totals := totals0;
    assert RunningAt(before, totals0, o.asset) by { RunningHere(before, totals0, o.asset); }
    OutputGrow(before, o, o.asset);
    if !(o.value == 0 && !IsIndivisible(o.asset) && o.data) {
      if o.value <= 0 {
        return false, totals;
      }
      if !IsIndivisible(o.asset) {
        if o.value > MAX_XING {
          return false, totals;
        }
        WrapSmall(Get(totals, o.asset) + o.value);
        totals := totals[o.asset := Wrap(Get(totals, o.asset) + o.value)];
        if totals[o.asset] <= 0 || totals[o.asset] > MAX_XING {
          return false, totals;
        }
      }
    }
    RunningGrow(before, o, totals0, totals);
    ok := true;
  }

  lemma RunningHere(outs: seq<Output>, totals: Totals, a: Asset)
    requires Running(outs, totals)
    ensures RunningAt(outs, totals, a)
  {
  }

  method CheckTransactionSanity(outs: seq<Output>) returns (ok: bool)
    requires forall i :: 0 <= i < |outs| ==> Wrap(outs[i].value) == outs[i].value
    ensures ok <==> SaneOutputs(outs)
    ensures ok <==>
      && (forall i :: 0 <= i < |outs| ==>
            outs[i].value > 0 || (outs[i].value == 0 && outs[i].data && !IsIndivisible(outs[i].asset)))
      && (forall a: Asset :: IsIndivisible(a) || Sum(Of(Outputs(outs), a)) <= MAX_XING)
  {
    var totals: Totals := map[];
    assert Outputs(outs[..0]) == [];
    for i := 0 to |outs|
      invariant Running(outs[..i], totals)
    {
      assert outs[..i + 1] == outs[..i] + [outs[i]];
      ok, totals := CheckOutput(outs[i], totals, outs[..i]);
      if !ok {
        Exceeds(outs, i);
        return;
      }
    }
    assert outs[..|outs|] == outs;
    forall a: Asset | !IsIndivisible(a)
      ensures Sum(Of(Outputs(outs), a)) <= MAX_XING
    {
      assert RunningAt(outs, totals, a);
    }
    ok := true;
  }

  lemma Exceeds(outs: seq<Output>, i: nat)
    requires i < |outs|
    requires !SaneValue(outs[i])
             || (!IsIndivisible(outs[i].asset) && Sum(Of(Outputs(outs[..i + 1]), outs[i].asset)) > MAX_XING)
    ensures !SaneOutputs(outs)
  {
    if forall j :: 0 <= j < |outs| ==> SaneValue(outs[j]) {
      assert Outputs(outs) == Outputs(outs[..i + 1]) + Outputs(outs[i + 1..]);
      PrefixBound(Outputs(outs[..i + 1]), Outputs(outs[i + 1..]), outs[i].asset);
    }
  }

  /** The indivisible units going in are those coming out. */
  ghost predicate UnitsKept(tx: Tx) {
    forall a: Asset :: IsIndivisible(a) ==> ToSet(In(tx, a)) == ToSet(Out(tx, a))
  }

  /** Every divisible asset paid out is also paid in, and at least as much of it. */
  ghost predicate Funded(tx: Tx) {
    forall a: Asset :: !IsIndivisible(a) && Out(tx, a) != [] ==>
      In(tx, a) != [] && Sum(Out(tx, a)) <= Wrap(Sum(In(tx, a)))
  }

  ghost predicate Passes(tx: Tx, height: int, maturity: int) {
    && AllSpendable(tx.ins, height, maturity) && CallsFirst(tx.outs)
    && Distinct(Inputs(tx.ins)) && Distinct(Outputs(tx.outs))
    && UnitsKept(tx) && Funded(tx)
  }

  lemma SubsetEqual<T>(x: set<T>, y: set<T>)
    requires x <= y && |x| == |y|
    ensures x == y
  {
    assert |y| == |y - x| + |y * x|;
    assert y * x == x;
  }

  /** The comparison of indivisible units: same number of assets, and asset by asset the same ids. */
  method SameUnits(outIds: Ids, inIds: Ids) returns (ok: bool)
    ensures ok <==> outIds == inIds
  {
    if |outIds| != |inIds| {
      return false;
    }
    var left := outIds.Keys;
    while left != {}
      invariant left <= outIds.Keys
      invariant forall k :: k in outIds.Keys - left ==> k in inIds && outIds[k] == inIds[k]
    {
      var k :| k in left;
      if k !in inIds || |outIds[k]| != |inIds[k]| || !(outIds[k] <= inIds[k]) {
        return false;
      }
      SubsetEqual(outIds[k], inIds[k]);
      left := left - {k};
    }
    assert outIds.Keys <= inIds.Keys;
    SubsetEqual(outIds.Keys, inIds.Keys);
    ok := true;
  }

  lemma SameUnitsMeaning(tx: Tx, inCoins: Totals, inIds: Ids, outCoins: Totals, outIds: Ids)
    requires Counted(Inputs(tx.ins), inCoins, inIds) && Counted(Outputs(tx.outs), outCoins, outIds)
    ensures outIds == inIds <==> UnitsKept(tx)
  {
    if UnitsKept(tx) {
      forall a: Asset
        ensures a in inIds <==> a in outIds
        ensures a in inIds ==> inIds[a] == outIds[a]
      {
        assert CountedAt(Inputs(tx.ins), inCoins, inIds, a);
        assert CountedAt(Outputs(tx.outs), outCoins, outIds, a);
        if IsIndivisible(a) {
          EmptySet(In(tx, a), Out(tx, a));
        }
      }
    } else {
      var a: Asset :| IsIndivisible(a) && ToSet(In(tx, a)) != ToSet(Out(tx, a));
      assert CountedAt(Inputs(tx.ins), inCoins, inIds, a);
      assert CountedAt(Outputs(tx.outs), outCoins, outIds, a);
    }
  }

  lemma EmptySet(s: seq<int>, t: seq<int>)
    ensures ToSet(s) == ToSet(t) ==> (s == [] <==> t == [])
  {
    assert s != [] ==> s[0] in ToSet(s);
    assert t != [] ==> t[0] in ToSet(t);
  }

  /** What each divisible asset leaves over, for every asset in the totals of the inputs. */
  ghost predicate FeesAre(fees: Totals, inCoins: Totals, outCoins: Totals) {
    forall a: Asset ::
      && (a in fees <==> a in inCoins && (a in outCoins ==> outCoins[a] < inCoins[a]))
      && (a in fees ==> fees[a] == Wrap(inCoins[a] - Get(outCoins, a)))
  }

  /** The loop over the totals of the outputs, and the pure fees of assets that no output has. */
  method Fees(inCoins: Totals, outCoins: Totals) returns (ok: bool, fees: Totals)
    requires forall a :: a in inCoins ==> Wrap(inCoins[a]) == inCoins[a]
    ensures ok <==> forall a :: a in outCoins ==> a in inCoins && outCoins[a] <= inCoins[a]
    ensures ok ==> FeesAre(fees, inCoins, outCoins)
  {
    hide Wrap;
    fees := map[];
    var rest := inCoins;
    var left := outCoins.Keys;
    while left != {}
      invariant left <= outCoins.Keys
      invariant forall a :: a in outCoins.Keys - left ==> a in inCoins && outCoins[a] <= inCoins[a]
      invariant forall a :: a in rest <==> a in inCoins && a !in outCoins.Keys - left
      invariant forall a :: a in rest ==> rest[a] == inCoins[a]
      invariant forall a :: a in fees <==> a in outCoins.Keys - left && outCoins[a] < inCoins[a]
      invariant forall a :: a in fees ==> fees[a] == Wrap(inCoins[a] - outCoins[a])
    {
      var k :| k in left;
      if k !in inCoins || inCoins[k] < outCoins[k] {
        return false, fees;
      }
      if inCoins[k] > outCoins[k] {
        fees := fees[k := Wrap(inCoins[k] - outCoins[k])];
      }
      rest := rest - {k};
      left := left - {k};
    }
    fees := fees + rest;
    ok := true;
  }

  /** The fees of a transaction that passes, asset by asset. */
  ghost predicate FeesOf(tx: Tx, fees: Totals) {
    forall a: Asset :: FeesOfAt(tx, fees, a)
  }

  ghost predicate FeesOfAt(tx: Tx, fees: Totals, a: Asset) {
    && (a in fees <==>
          !IsIndivisible(a) && In(tx, a) != [] && (Out(tx, a) != [] ==> Sum(Out(tx, a)) < Wrap(Sum(In(tx, a)))))
    && Get(fees, a) == if IsIndivisible(a) then 0 else Wrap(Sum(In(tx, a)) - Sum(Out(tx, a)))
  }

  lemma OutRange(outs: seq<Output>, a: Asset)
    requires SaneOutputs(outs) && !IsIndivisible(a)
    ensures 0 <= Sum(Of(Outputs(outs), a)) <= MAX_XING
    ensures Wrap(Sum(Of(Outputs(outs), a))) == Sum(Of(Outputs(outs), a))
  {
    forall i | 0 <= i < |Outputs(outs)|
      ensures 0 <= Outputs(outs)[i].amount
    {
      assert SaneValue(outs[i]);
    }
    OfNonNegative(Outputs(outs), a);
    WrapSmall(Sum(Of(Outputs(outs), a)));
  }

  lemma {:induction false} InputsPositive(ins: seq<Option<Coin>>, height: int, maturity: int)
    requires AllSpendable(ins, height, maturity)
    ensures forall i :: 0 <= i < |Inputs(ins)| ==> 0 < Inputs(ins)[i].amount
  {
    if ins != [] {
      InputsPositive(ins[..|ins| - 1], height, maturity);
      assert Spendable(ins[|ins| - 1], height, maturity);
    }
  }

  /** Whatever wraps around, a transaction that passes never pays out more than it takes in. */
  lemma NeverPaysMore(tx: Tx, height: int, maturity: int, a: Asset)
    requires SaneOutputs(tx.outs) && Passes(tx, height, maturity) && !IsIndivisible(a)
    ensures 0 <= Sum(Out(tx, a)) <= Sum(In(tx, a))
  {
    OutRange(tx.outs, a);
    InputsPositive(tx.ins, height, maturity);
    OfNonNegative(Inputs(tx.ins), a);
    WrapSmall(Sum(In(tx, a)));
  }

  lemma FundedMeaning(tx: Tx, inCoins: Totals, inIds: Ids, outCoins: Totals, outIds: Ids)
    requires SaneOutputs(tx.outs)
    requires Counted(Inputs(tx.ins), inCoins, inIds) && Counted(Outputs(tx.outs), outCoins, outIds)
    ensures Funded(tx) <==> forall a :: a in outCoins ==> a in inCoins && outCoins[a] <= inCoins[a]
  {
    hide Wrap;
    forall a: Asset
      ensures a in outCoins <==> !IsIndivisible(a) && Out(tx, a) != []
      ensures a in outCoins ==> outCoins[a] == Sum(Out(tx, a))
      ensures a in inCoins <==> !IsIndivisible(a) && In(tx, a) != []
      ensures a in inCoins ==> inCoins[a] == Wrap(Sum(In(tx, a)))
    {
      assert CountedAt(Inputs(tx.ins), inCoins, inIds, a);
      assert CountedAt(Outputs(tx.outs), outCoins, outIds, a);
      if !IsIndivisible(a) {
        OutRange(tx.outs, a);
      }
    }
  }

  lemma FeesMeaning(tx: Tx, fees: Totals, inCoins: Totals, inIds: Ids, outCoins: Totals, outIds: Ids, a: Asset)
    requires SaneOutputs(tx.outs) && Funded(tx)
    requires Counted(Inputs(tx.ins), inCoins, inIds) && Counted(Outputs(tx.outs), outCoins, outIds)
    requires FeesAre(fees, inCoins, outCoins)
    ensures FeesOfAt(tx, fees, a)
  {
    hide Wrap;
    assert CountedAt(Inputs(tx.ins), inCoins, inIds, a);
    assert CountedAt(Outputs(tx.outs), outCoins, outIds, a);
    if !IsIndivisible(a) {
      OutRange(tx.outs, a);
      WrapSum(Sum(In(tx, a)), -Sum(Out(tx, a)));
      WrapSmall(0);
    }
  }

  /** checkTransactionInputs for an ordinary transaction: when it passes and what fees it leaves. */
  method CheckTransactionInputs(tx: Tx, height: int, maturity: int) returns (ok: bool, fees: Totals)
    requires SaneOutputs(tx.outs)
    ensures ok <==> Passes(tx, height, maturity)
    ensures ok <==>
      && (forall i :: 0 <= i < |tx.ins| ==>
            && tx.ins[i].Some? && 0 < tx.ins[i].value.amount <= MAX_XING
            && (tx.ins[i].value.coinbase ==> tx.ins[i].value.height + maturity <= height))
      && (forall i :: 0 < i < |tx.outs| ==> !tx.outs[i].call)
      && (forall a: Asset :: if IsIndivisible(a) then Exchanged(tx, a) else Out(tx, a) == [] || Paid(tx, a))
    ensures ok ==> FeesOf(tx, fees)
  {
    PassesRaw(tx, height, maturity);
    hide *;
    fees := map[];
    var inCoins, inIds, outCoins, outIds;
    ok, inCoins, inIds := CountInputs(tx.ins, height, maturity);
    PassesMeans(tx, height, maturity);
    if !ok { return; }
    ok, outCoins, outIds := CountOutputs(tx.outs);
    if !ok { return; }
    SameUnitsMeaning(tx, inCoins, inIds, outCoins, outIds);
    ok := SameUnits(outIds, inIds);
    if !ok { return; }
    CountedRange(Inputs(tx.ins), inCoins, inIds);
    FundedMeaning(tx, inCoins, inIds, outCoins, outIds);
    ok, fees := Fees(inCoins, outCoins);
    if ok {
      AllFees(tx, fees, inCoins, inIds, outCoins, outIds);
    }
  }

  /** The same units on both sides, none of them twice. */
  ghost predicate Exchanged(tx: Tx, a: Asset) {
    NoDup(In(tx, a)) && NoDup(Out(tx, a)) && ToSet(In(tx, a)) == ToSet(Out(tx, a))
  }

  /** What goes in, as the 64-bit number it is added up to, covers what is paid out. */
  ghost predicate Paid(tx: Tx, a: Asset) {
    In(tx, a) != [] && Sum(Out(tx, a)) <= Wrap(Sum(In(tx, a)))
  }

  lemma PassesRaw(tx: Tx, height: int, maturity: int)
    ensures Passes(tx, height, maturity) <==>
      && (forall i :: 0 <= i < |tx.ins| ==>
            && tx.ins[i].Some? && 0 < tx.ins[i].value.amount <= MAX_XING
            && (tx.ins[i].value.coinbase ==> tx.ins[i].value.height + maturity <= height))
      && (forall i :: 0 < i < |tx.outs| ==> !tx.outs[i].call)
      && (forall a: Asset :: if IsIndivisible(a) then Exchanged(tx, a) else Out(tx, a) == [] || Paid(tx, a))
  {
    hide Of, Sum, Wrap, Inputs, Outputs;
    if Passes(tx, height, maturity) {
      forall a: Asset
        ensures if IsIndivisible(a) then Exchanged(tx, a) else Out(tx, a) == [] || Paid(tx, a)
      {
        if IsIndivisible(a) {
          assert NoDup(Of(Inputs(tx.ins), a)) && NoDup(Of(Outputs(tx.outs), a));
          assert ToSet(In(tx, a)) == ToSet(Out(tx, a));
        } else {
          assert Funded(tx);
          assert !IsIndivisible(a) && Out(tx, a) != [] ==> In(tx, a) != [] && Sum(Out(tx, a)) <= Wrap(Sum(In(tx, a)));
        }
      }
    }
    if (forall i :: 0 <= i < |tx.ins| ==>
            && tx.ins[i].Some? && 0 < tx.ins[i].value.amount <= MAX_XING
            && (tx.ins[i].value.coinbase ==> tx.ins[i].value.height + maturity <= height))
       && (forall i :: 0 < i < |tx.outs| ==> !tx.outs[i].call)
       && (forall a: Asset :: if IsIndivisible(a) then Exchanged(tx, a) else Out(tx, a) == [] || Paid(tx, a)) {
      assert forall a: Asset :: IsIndivisible(a) ==> Exchanged(tx, a);
      assert forall a: Asset :: !IsIndivisible(a) && Out(tx, a) != [] ==> Paid(tx, a);
    }
  }

  lemma PassesMeans(tx: Tx, height: int, maturity: int)
    ensures Passes(tx, height, maturity) <==>
            && AllSpendable(tx.ins, height, maturity) && CallsFirst(tx.outs)
            && Distinct(Inputs(tx.ins)) && Distinct(Outputs(tx.outs))
            && UnitsKept(tx) && Funded(tx)
  {
  }

  lemma CountedRange(items: seq<Item>, coins: Totals, ids: Ids)
    requires Counted(items, coins, ids)
    ensures forall a :: a in coins ==> Wrap(coins[a]) == coins[a]
  {
    forall a | a in coins
      ensures Wrap(coins[a]) == coins[a]
    {
      assert CountedAt(items, coins, ids, a);
      WrapSmall(coins[a]);
    }
  }

  lemma AllFees(tx: Tx, fees: Totals, inCoins: Totals, inIds: Ids, outCoins: Totals, outIds: Ids)
    requires SaneOutputs(tx.outs) && Funded(tx)
    requires Counted(Inputs(tx.ins), inCoins, inIds) && Counted(Outputs(tx.outs), outCoins, outIds)
    requires FeesAre(fees, inCoins, outCoins)
    ensures FeesOf(tx, fees)
  {
    forall a: Asset
      ensures FeesOfAt(tx, fees, a)
    {
      FeesMeaning(tx, fees, inCoins, inIds, outCoins, outIds, a);
    }
  }
}
