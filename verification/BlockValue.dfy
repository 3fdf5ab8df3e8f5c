/**
 The value a block may create (blockchain/validate.go): fees are merged transaction by transaction and
 the coinbase must pay out exactly those fees and the subsidy of its height.
 */
module BlockValue {
  import opened Common
  import opened Conservation

  // ------------------------------------------------------------------ the subsidy

  /** The base subsidy, halved once per interval. */
  function CalcBlockSubsidy(height: nat, interval: nat): (r: nat)
    ensures r <= BASE_SUBSIDY
  {
    if interval == 0 then BASE_SUBSIDY else Halved(height / interval)
  }

  /** Shifted right n times. */
  function Halved(n: nat): (r: nat)
    ensures r <= BASE_SUBSIDY
  {
    if n == 0 then BASE_SUBSIDY else Halved(n - 1) / 2
  }

  lemma {:induction false} HalvedIs(n: nat)
    ensures Halved(n) == BASE_SUBSIDY / Pow2(n)
  {
    if n > 0 {
      HalvedIs(n - 1);
      DivTwice(BASE_SUBSIDY, Pow2(n - 1), 2);
    }
  }

  /** The subsidy of a height is the base subsidy divided by two for every interval that is over. */
  lemma SubsidyIs(height: nat, interval: nat)
    ensures 0 < interval ==> CalcBlockSubsidy(height, interval) == BASE_SUBSIDY / Pow2(height / interval)
    ensures interval == 0 ==> CalcBlockSubsidy(height, interval) == BASE_SUBSIDY
  {
    if 0 < interval {
      HalvedIs(height / interval);
    }
  }

  /** What the blocks at heights below n create in all. */
  function Issued(n: nat, interval: nat): nat {
    if n == 0 then 0 else Issued(n - 1, interval) + CalcBlockSubsidy(n - 1, interval)
  }

  /** What a chain of n blocks above the genesis block creates in all. */
  function Rewarded(n: nat, interval: nat): nat {
    if n == 0 then 0 else Rewarded(n - 1, interval) + CalcBlockSubsidy(n, interval)
  }

  lemma {:induction false} RewardedIssued(n: nat, interval: nat)
    ensures Rewarded(n, interval) == Issued(n + 1, interval) - Issued(1, interval)
  {
    hide CalcBlockSubsidy;
    if n > 0 {
      RewardedIssued(n - 1, interval);
    }
  }

  /** The first k blocks of the era that starts at height s create k times the base subsidy halved e times. */
  lemma {:induction false} PartOfEra(s: nat, e: nat, k: nat, interval: nat)
    requires k <= interval && s == interval * e
    ensures Issued(s + k, interval) == Issued(s, interval) + k * (BASE_SUBSIDY / Pow2(e))
    decreases k
  {
    hide CalcBlockSubsidy, Pow2;
    if k > 0 {
      PartOfEra(s, e, k - 1, interval);
      DivUnique(s + (k - 1), interval, e, k - 1);
      SubsidyIs(s + (k - 1), interval);
      TimesNext(k - 1, BASE_SUBSIDY / Pow2(e));
    }
  }

  lemma TimesNext(k: nat, x: nat)
    ensures (k + 1) * x == k * x + x
  {
  }

  /** So an era of the chain creates an interval's worth of the base subsidy halved e times, exactly. */
  lemma EraIssues(e: nat, interval: nat)
    ensures Issued(interval * (e + 1), interval) ==
            Issued(interval * e, interval) + interval * (BASE_SUBSIDY / Pow2(e))
  {
    hide Issued, Pow2;
    PartOfEra(interval * e, e, interval, interval);
    assert interval * (e + 1) == interval * e + interval;
  }

  /** The part of an era that is done, and what was created up to it. */
  ghost predicate Bounded(n: nat, interval: nat)
    requires 0 < interval
  {
    Issued(n, interval) <= interval * (2 * BASE_SUBSIDY - 2 * Halved(n / interval)) +
        (n % interval) * Halved(n / interval)
  }

  lemma NextHeight(n: nat, interval: nat)
    requires 0 < interval
    ensures n % interval + 1 < interval ==> (n + 1) / interval == n / interval && (n + 1) % interval == n % interval + 1
    ensures n % interval + 1 == interval ==> (n + 1) / interval == n / interval + 1 && (n + 1) % interval == 0
    ensures n % interval + 1 <= interval
  {
    var q, r := n / interval, n % interval;
    assert n + 1 == interval * q + (r + 1);
    if r + 1 < interval {
      DivUnique(n + 1, interval, q, r + 1);
    } else {
      assert n + 1 == interval * (q + 1) + 0;
      DivUnique(n + 1, interval, q + 1, 0);
    }
  }

  lemma {:induction false} IssuedBounded(n: nat, interval: nat)
    requires 0 < interval
    ensures Bounded(n, interval)
  {
    if n == 0 {
      assert Halved(0) == BASE_SUBSIDY;
    } else {
      var m: nat := n - 1;
      IssuedBounded(m, interval);
      NextHeight(m, interval);
      Era(interval, m % interval, Halved(m / interval), Halved(m / interval + 1), BASE_SUBSIDY);
    }
  }

  lemma Era(i: nat, r: nat, h: nat, k: nat, b: nat)
    requires r < i && 2 * k <= h
    ensures i * (2 * b - 2 * h) + r * h + h == i * (2 * b - 2 * h) + (r + 1) * h
    ensures r + 1 == i ==> i * (2 * b - 2 * h) + r * h + h <= i * (2 * b - 2 * k) + 0 * k
  {
    assert (r + 1) * h == r * h + h;
    if r + 1 == i {
      assert i * (2 * b - 2 * h) + i * h == i * (2 * b - h);
      assert i * (2 * b - h) <= i * (2 * b - 2 * k);
    }
  }

  /** However long the chain grows, the subsidies stay below twice an interval's worth. */
  lemma TotalSubsidy(n: nat, interval: nat)
    requires 0 < interval
    ensures Issued(n, interval) <= 2 * interval * BASE_SUBSIDY
  {
    IssuedBounded(n, interval);
    NextHeight(n, interval);
    Rest(interval, n % interval, Halved(n / interval), BASE_SUBSIDY);
  }

  lemma Rest(i: nat, r: nat, h: nat, b: nat)
    requires r <= i
    ensures i * (2 * b - 2 * h) + r * h <= 2 * i * b
  {
    assert r * h <= i * h;
    assert i * (2 * b - 2 * h) == 2 * i * b - 2 * (i * h);
  }

  /** On the main net that is the largest amount a transaction may carry. */
  lemma MainNetSubsidy(n: nat)
    ensures Issued(n, MAIN_NET_INTERVAL) <= MAX_XING
  {
    TotalSubsidy(n, MAIN_NET_INTERVAL);
  }

  // ------------------------------------------------------------------ fees of a block

  /** What is left over of an asset by the transactions, as a plain integer. */
  function Collected(txs: seq<Tx>, a: Asset): int {
    if txs == [] then 0
    else
      var tx := txs[|txs| - 1];
      Collected(txs[..|txs| - 1], a) + Sum(In(tx, a)) - Sum(Out(tx, a))
  }

  ghost predicate InRange(t: Totals) {
    forall a :: a in t ==> Wrap(t[a]) == t[a]
  }

  /** Adding would wrap around, or lower the total: what the merge looks for. */
  predicate Overflows(total: Totals, fees: Totals, a: Asset) {
    a in total && a in fees && Wrap(total[a] + fees[a]) < total[a]
  }

  ghost predicate MergedAt(total0: Totals, fees: Totals, total: Totals, a: Asset) {
    && (a in total <==> a in total0 || a in fees)
    && Get(total, a) == Wrap(Get(total0, a) + Get(fees, a))
  }

  method MergeFees(total0: Totals, fees: Totals) returns (ok: bool, total: Totals)
    requires InRange(total0) && InRange(fees)
    ensures ok <==> forall a :: !Overflows(total0, fees, a)
    ensures ok ==> InRange(total) && forall a: Asset :: MergedAt(total0, fees, total, a)
  {
    hide Wrap;
    total := total0;
    var left := fees.Keys;
    while left != {}
      invariant left <= fees.Keys
      invariant forall a :: a in fees.Keys - left ==> !Overflows(total0, fees, a)
      invariant forall a :: a in total <==> a in total0 || a in fees.Keys - left
      invariant forall a :: a in total ==>
        total[a] == if a in fees.Keys - left then Wrap(Get(total0, a) + fees[a]) else total0[a]
    {
      var k :| k in left;
      if k in total {
        var last := total[k];
        total := total[k := Wrap(total[k] + fees[k])];
        if total[k] < last {
          assert Overflows(total0, fees, k);
          return false, total;
        }
      } else {
        total := total[k := fees[k]];
      }
      left := left - {k};
    }
    ok := true;
    forall a: Asset
      ensures MergedAt(total0, fees, total, a) && (a in total ==> Wrap(total[a]) == total[a])
    {
      WrapSmall(0);
      WrapSmall(Wrap(Get(total0, a) + Get(fees, a)));
    }
  }

  // ------------------------------------------------------------------ the transactions of a block

  ghost predicate AllSane(txs: seq<Tx>) {
    forall i :: 0 <= i < |txs| ==> SaneOutputs(txs[i].outs)
  }

  ghost predicate AllPass(txs: seq<Tx>, height: int, maturity: int) {
    forall i :: 0 <= i < |txs| ==> Passes(txs[i], height, maturity)
  }

  /** Fees are only paid in assets of the pool. */
  ghost predicate AllAllowed(txs: seq<Tx>, pool: set<Asset>) {
    forall i :: 0 <= i < |txs| ==> Allowed(txs[i], pool)
  }

  ghost predicate Allowed(tx: Tx, pool: set<Asset>) {
    forall a: Asset :: Pays(tx, a) ==> a in pool
  }

  ghost predicate Pays(tx: Tx, a: Asset) {
    !IsIndivisible(a) && In(tx, a) != [] && (Out(tx, a) != [] ==> Sum(Out(tx, a)) < Wrap(Sum(In(tx, a))))
  }

  /** The fees collected so far, as 64-bit totals. */
  ghost predicate TotalsAre(txs: seq<Tx>, all: Totals) {
    InRange(all) && forall a: Asset :: TotalAt(txs, all, a)
  }

  ghost predicate TotalAt(txs: seq<Tx>, all: Totals, a: Asset) {
    && (a in all <==> Someone(txs, a))
    && (!IsIndivisible(a) ==> Get(all, a) == Wrap(Collected(txs, a)))
  }

  /** Some transaction leaves a fee in the asset. */
  ghost predicate Someone(txs: seq<Tx>, a: Asset) {
    exists i :: 0 <= i < |txs| && Pays(txs[i], a)
  }

  lemma SomeoneNext(txs: seq<Tx>, tx: Tx, a: Asset)
    ensures Someone(txs + [tx], a) <==> Someone(txs, a) || Pays(tx, a)
  {
    hide Pays;
    var all := txs + [tx];
    if Someone(txs, a) {
      var i :| 0 <= i < |txs| && Pays(txs[i], a);
      assert Pays(all[i], a);
    }
    if Pays(tx, a) {
      assert Pays(all[|txs|], a);
    }
  }

  /** The 64-bit total of an asset falls when transaction i adds to it. */
  ghost predicate Sinks(txs: seq<Tx>, i: nat, a: Asset)
    requires i < |txs|
  {
    && Someone(txs[..i], a) && Pays(txs[i], a)
    && Wrap(Collected(txs[..i + 1], a)) < Wrap(Collected(txs[..i], a))
  }

  ghost predicate NoneSinks(txs: seq<Tx>) {
    forall i: nat, a: Asset :: i < |txs| ==> !Sinks(txs, i, a)
  }

  /** No total is too large for 64 bits. */
  ghost predicate Fits(txs: seq<Tx>) {
    forall a: Asset :: !IsIndivisible(a) ==> Collected(txs, a) < LIMIT
  }

  lemma CollectedNext(txs: seq<Tx>, tx: Tx, a: Asset)
    ensures Collected(txs + [tx], a) == Collected(txs, a) + Sum(In(tx, a)) - Sum(Out(tx, a))
  {
    assert (txs + [tx])[..|txs|] == txs;
  }

  lemma {:induction false} CollectedGrows(txs: seq<Tx>, i: nat, height: int, maturity: int, a: Asset)
    requires i <= |txs| && AllSane(txs) && AllPass(txs, height, maturity) && !IsIndivisible(a)
    ensures 0 <= Collected(txs[..i], a) <= Collected(txs, a)
    decreases |txs|
  {
    hide SaneOutputs, Passes, Sum, In, Out;
    if txs != [] {
      var init := txs[..|txs| - 1];
      var j := if i < |txs| then i else |init|;
      CollectedGrows(init, j, height, maturity, a);
      assert i < |txs| ==> init[..j] == txs[..i];
      assert i == |txs| ==> txs[..i] == txs;
      NeverPaysMore(txs[|txs| - 1], height, maturity, a);
    }
  }

  lemma FeesRange(tx: Tx, fees: Totals)
    requires FeesOf(tx, fees)
    ensures InRange(fees)
  {
    forall a | a in fees
      ensures Wrap(fees[a]) == fees[a]
    {
      assert FeesOfAt(tx, fees, a);
      WrapSmall(fees[a]);
    }
  }

  lemma TotalsNext(txs: seq<Tx>, tx: Tx, total0: Totals, fees: Totals, total: Totals)
    requires TotalsAre(txs, total0) && FeesOf(tx, fees)
    requires InRange(total) && forall a: Asset :: MergedAt(total0, fees, total, a)
    ensures TotalsAre(txs + [tx], total)
  {
    hide Wrap, Sum, In, Out, Collected, Someone;
    forall a: Asset
      ensures TotalAt(txs + [tx], total, a)
    {
      assert TotalAt(txs, total0, a) && FeesOfAt(tx, fees, a) && MergedAt(total0, fees, total, a);
      CollectedNext(txs, tx, a);
      SomeoneNext(txs, tx, a);
      WrapSum(Collected(txs, a), Wrap(Sum(In(tx, a)) - Sum(Out(tx, a))));
      WrapSum(Sum(In(tx, a)) - Sum(Out(tx, a)), Collected(txs, a));
    }
  }

  /** A merge fails exactly when a total falls. */
  lemma MergeFails(txs: seq<Tx>, i: nat, total: Totals, fees: Totals)
    requires i < |txs| && TotalsAre(txs[..i], total) && FeesOf(txs[i], fees)
    ensures forall a: Asset :: Overflows(total, fees, a) <==> Sinks(txs, i, a)
  {
    hide Wrap, Collected, Sum, In, Out, Someone;
    forall a: Asset
      ensures Overflows(total, fees, a) <==> Sinks(txs, i, a)
    {
      var d := Sum(In(txs[i], a)) - Sum(Out(txs[i], a));
      assert TotalAt(txs[..i], total, a) && FeesOfAt(txs[i], fees, a);
      assert txs[..i + 1] == txs[..i] + [txs[i]];
      CollectedNext(txs[..i], txs[i], a);
      WrapSum(Collected(txs[..i], a), Wrap(d));
      WrapSum(d, Collected(txs[..i], a));
    }
  }

  /** Totals that fit never fall. */
  lemma FitsNoneSinks(txs: seq<Tx>, height: int, maturity: int)
    requires AllSane(txs) && AllPass(txs, height, maturity) && Fits(txs)
    ensures NoneSinks(txs)
  {
    hide Wrap, Passes, SaneOutputs, Collected, Sum, In, Out, Someone;
    forall i: nat, a: Asset | i < |txs|
      ensures !Sinks(txs, i, a)
    {
      if Pays(txs[i], a) {
        CollectedGrows(txs, i, height, maturity, a);
        CollectedGrows(txs, i + 1, height, maturity, a);
        assert txs[..i + 1] == txs[..i] + [txs[i]];
        CollectedNext(txs[..i], txs[i], a);
        NeverPaysMore(txs[i], height, maturity, a);
        WrapSmall(Collected(txs[..i], a));
        WrapSmall(Collected(txs[..i + 1], a));
      }
    }
  }

  /** The loop over a block's transactions: each one is checked and its fees are merged. */
  method CheckTransactions(txs: seq<Tx>, height: int, maturity: int, pool: set<Asset>) returns (ok: bool, all: Totals)
    requires AllSane(txs)
    ensures ok <==> AllPass(txs, height, maturity) && AllAllowed(txs, pool) && NoneSinks(txs)
    ensures ok ==> TotalsAre(txs, all)
  {
    hide Wrap, Passes, Allowed, FeesOf, TotalsAre, Sinks, Overflows, InRange, SaneOutputs, MergedAt;
    all := map[];
    assert TotalsAre(txs[..0], all) by { NoFees(txs[..0]); }
    for i := 0 to |txs|
      invariant AllPass(txs[..i], height, maturity) && AllAllowed(txs[..i], pool) && TotalsAre(txs[..i], all)
      invariant forall j: nat, a: Asset :: j < i ==> !Sinks(txs, j, a)
    {
      var fees;
      ok, fees := CheckTransactionInputs(txs[i], height, maturity);
      if !ok {
        return;
      }
      ghost var before := all;
      assert InRange(all) by { TotalsRange(txs[..i], all); }
      FeesRange(txs[i], fees);
      AllowedMeans(txs[i], fees, pool);
      if !(fees.Keys <= pool) {
        return false, all;
      }
      MergeFails(txs, i, all, fees);
      ok, all := MergeFees(all, fees);
      if !ok {
        return;
      }
      assert txs[..i + 1] == txs[..i] + [txs[i]];
      TotalsNext(txs[..i], txs[i], before, fees, all);
    }
    assert txs[..|txs|] == txs;
    ok := true;
  }

  lemma NoFees(txs: seq<Tx>)
    requires txs == []
    ensures TotalsAre(txs, map[])
  {
    WrapSmall(0);
    assert forall a: Asset :: TotalAt(txs, map[], a);
  }

  lemma TotalsRange(txs: seq<Tx>, all: Totals)
    requires TotalsAre(txs, all)
    ensures InRange(all)
  {
  }

  lemma AllowedMeans(tx: Tx, fees: Totals, pool: set<Asset>)
    requires FeesOf(tx, fees)
    ensures Allowed(tx, pool) <==> fees.Keys <= pool
  {
    hide Wrap;
    forall a: Asset
      ensures a in fees <==> Pays(tx, a)
    {
      assert FeesOfAt(tx, fees, a);
    }
  }

  // ------------------------------------------------------------------ the coinbase

  ghost predicate PaidAt(outs: seq<Output>, mine: Totals, a: Asset) {
    var s := Of(Outputs(outs), a);
    (a in mine <==> s != []) && Get(mine, a) == Wrap(Sum(s))
  }

  ghost predicate Paid(outs: seq<Output>, mine: Totals) {
    forall a: Asset :: PaidAt(outs, mine, a)
  }

  lemma PaidNext(outs: seq<Output>, o: Output, mine: Totals)
    requires Paid(outs, mine)
    ensures Paid(outs + [o], mine[o.asset := Wrap(Get(mine, o.asset) + o.value)])
  {
    hide Wrap, PaidAt;
    var after := mine[o.asset := Wrap(Get(mine, o.asset) + o.value)];
    forall a: Asset
      ensures PaidAt(outs + [o], after, a)
    {
      assert PaidAt(outs, mine, a);
      PaidNextAt(outs, o, mine, a);
    }
  }

  lemma PaidNextAt(outs: seq<Output>, o: Output, mine: Totals, a: Asset)
    requires PaidAt(outs, mine, a)
    ensures PaidAt(outs + [o], mine[o.asset := Wrap(Get(mine, o.asset) + o.value)], a)
  {
    hide Wrap, Of, Sum;
    var x := Item(o.asset, o.value);
    assert Outputs(outs + [o]) == Outputs(outs) + [x];
    OfGrow(Outputs(outs), x, a);
    SumGrow(Of(Outputs(outs), a), o.value);
    WrapSum(Sum(Of(Outputs(outs), a)), o.value);
  }

  lemma NothingPaid(outs: seq<Output>)
    requires outs == []
    ensures Paid(outs, map[])
  {
    WrapSmall(0);
    assert Outputs(outs) == [];
    forall a: Asset
      ensures PaidAt(outs, map[], a)
    {
    }
  }

  /** The fees, with the subsidy added. */
  function Due(all: Totals, reward: int): Totals {
    all[ASIMOV := Wrap(Get(all, ASIMOV) + reward)]
  }

  /** The coinbase must pay each asset that is due, exactly what is due of it, and no other asset. */
  method CheckCoinbase(outs: seq<Output>, all: Totals, reward: int) returns (ok: bool)
    ensures ok <==> Paid(outs, Due(all, reward))
  {
    hide Wrap, Paid;
    var mine: Totals := map[];
    NothingPaid(outs[..0]);
    for i := 0 to |outs|
      invariant Paid(outs[..i], mine)
    {
      assert outs[..i + 1] == outs[..i] + [outs[i]];
      PaidNext(outs[..i], outs[i], mine);
      mine := mine[outs[i].asset := Wrap(Get(mine, outs[i].asset) + outs[i].value)];
    }
    assert outs[..|outs|] == outs;
    var due := Due(all, reward);
    ok := SameTotals(mine, due);
    PaidUnique(outs, mine, due);
  }

  method SameTotals(mine: Totals, due: Totals) returns (ok: bool)
    ensures ok <==> mine == due
  {
    if |due| != |mine| {
      return false;
    }
    var left := mine.Keys;
    while left != {}
      invariant left <= mine.Keys
      invariant forall k :: k in mine.Keys - left ==> k in due && mine[k] == due[k]
    {
      var k :| k in left;
      if k !in due || mine[k] != due[k] {
        return false;
      }
      left := left - {k};
    }
    assert mine.Keys <= due.Keys;
    SubsetEqual(mine.Keys, due.Keys);
    ok := true;
  }

  lemma PaidUnique(outs: seq<Output>, mine: Totals, due: Totals)
    requires Paid(outs, mine)
    ensures mine == due <==> Paid(outs, due)
  {
    if Paid(outs, due) {
      forall a: Asset
        ensures (a in mine <==> a in due) && Get(mine, a) == Get(due, a)
      {
        assert PaidAt(outs, mine, a) && PaidAt(outs, due, a);
      }
    }
  }

  // ------------------------------------------------------------------ a block

  datatype Block = Block(height: nat, txs: seq<Tx>, coinbase: seq<Output>)

  function Minted(block: Block, interval: nat, a: Asset): int {
    if a == ASIMOV then CalcBlockSubsidy(block.height, interval) else 0
  }

  /** What a block adds to the amount of an asset in circulation. */
  function Added(block: Block, a: Asset): int {
    Sum(Of(Outputs(block.coinbase), a)) - Collected(block.txs, a)
  }

  /** No more than the subsidy is added, and exactly the subsidy unless what is due exceeds 64 bits. */
  ghost predicate Conserves(block: Block, interval: nat, a: Asset) {
    if IsIndivisible(a) then
      && Of(Outputs(block.coinbase), a) == []
      && (forall i :: 0 <= i < |block.txs| ==> ToSet(In(block.txs[i], a)) == ToSet(Out(block.txs[i], a)))
    else
      && Added(block, a) <= Minted(block, interval, a)
      && (Added(block, a) == Minted(block, interval, a) <==>
          Collected(block.txs, a) + Minted(block, interval, a) < LIMIT)
  }

  /**
   The coinbase pays the native asset and every asset that fees were left in, and no other; and of each what
   was left of it and is created, as a 64-bit number.
   */
  ghost predicate PaysDue(block: Block, interval: nat) {
    forall a: Asset :: PaysDueAt(block, interval, a)
  }

  ghost predicate PaysDueAt(block: Block, interval: nat, a: Asset) {
    var s := Of(Outputs(block.coinbase), a);
    && (s != [] <==> a == ASIMOV || Someone(block.txs, a))
    && (s != [] ==> Wrap(Sum(s)) == Wrap(Collected(block.txs, a) + Minted(block, interval, a)))
  }

  lemma DueMeaning(block: Block, interval: nat, all: Totals, a: Asset)
    requires TotalsAre(block.txs, all)
    ensures PaidAt(block.coinbase, Due(all, CalcBlockSubsidy(block.height, interval)), a) <==>
        PaysDueAt(block, interval, a)
  {
    hide Wrap, Collected, CalcBlockSubsidy, Sum, Someone, Outputs, Of;
    var reward := CalcBlockSubsidy(block.height, interval);
    assert TotalAt(block.txs, all, a);
    SomeoneDivisible(block.txs, a);
    WrapSum(Collected(block.txs, a), reward);
    WrapSmall(0);
    NothingSummed();
  }

  lemma NothingSummed()
    ensures Sum([]) == 0
  {
  }

  lemma SomeoneDivisible(txs: seq<Tx>, a: Asset)
    ensures Someone(txs, a) ==> !IsIndivisible(a)
  {
  }

  /** Of an asset that nobody leaves a fee in, nothing is left, as a 64-bit number. */
  lemma {:induction false} NobodyPays(txs: seq<Tx>, height: int, maturity: int, a: Asset)
    requires AllSane(txs) && AllPass(txs, height, maturity) && !IsIndivisible(a) && !Someone(txs, a)
    ensures Wrap(Collected(txs, a)) == 0
  {
    hide Wrap, SaneOutputs, Sum, In, Out;
    WrapSmall(0);
    if txs != [] {
      var init, tx := txs[..|txs| - 1], txs[|txs| - 1];
      assert txs == init + [tx];
      SomeoneNext(init, tx, a);
      NobodyPays(init, height, maturity, a);
      LeavesNothing(tx, height, maturity, a);
      WrapSum(Collected(init, a), Sum(In(tx, a)) - Sum(Out(tx, a)));
    }
  }

  lemma LeavesNothing(tx: Tx, height: int, maturity: int, a: Asset)
    requires SaneOutputs(tx.outs) && Passes(tx, height, maturity) && !IsIndivisible(a) && !Pays(tx, a)
    ensures Wrap(Sum(In(tx, a)) - Sum(Out(tx, a))) == 0
  {
    hide Wrap, SaneOutputs;
    OutRange(tx.outs, a);
    WrapSum(Sum(In(tx, a)), -Sum(Out(tx, a)));
    WrapSmall(0);
  }

  lemma BlockConserves(block: Block, interval: nat, maturity: int, a: Asset)
    requires AllSane(block.txs) && SaneOutputs(block.coinbase) && AllPass(block.txs, block.height, maturity)
    requires PaysDue(block, interval)
    ensures Conserves(block, interval, a)
  {
    hide Wrap, SaneOutputs, Collected, CalcBlockSubsidy, Sum;
    assert PaysDueAt(block, interval, a);
    SomeoneDivisible(block.txs, a);
    if !IsIndivisible(a) {
      if !Someone(block.txs, a) {
        NobodyPays(block.txs, block.height, maturity, a);
      }
      OutRange(block.coinbase, a);
      CollectedGrows(block.txs, 0, block.height, maturity, a);
      WrapSmall(Collected(block.txs, a) + Minted(block, interval, a));
      NothingSummed();
    } else {
      forall i | 0 <= i < |block.txs|
        ensures ToSet(In(block.txs[i], a)) == ToSet(Out(block.txs[i], a))
      {
        assert Passes(block.txs[i], block.height, maturity);
      }
    }
  }

  /** When the values of a block are accepted. */
  ghost predicate Accepts(block: Block, interval: nat, maturity: int, pool: set<Asset>) {
    && AllPass(block.txs, block.height, maturity) && AllAllowed(block.txs, pool) && NoneSinks(block.txs)
    && PaysDue(block, interval)
  }

  /** The checks on the values of a block, and what they guarantee of every asset. */
  method CheckBlock(block: Block, interval: nat, maturity: int, pool: set<Asset>) returns (ok: bool)
    requires AllSane(block.txs) && SaneOutputs(block.coinbase)
    ensures ok <==> Accepts(block, interval, maturity, pool)
    ensures ok ==> forall a: Asset :: Conserves(block, interval, a)
  {
    hide Wrap, SaneOutputs, AllSane, AllPass, AllAllowed, NoneSinks, TotalsAre, Due, CalcBlockSubsidy, Conserves,
        PaidAt, PaysDueAt;
    var all;
    ok, all := CheckTransactions(block.txs, block.height, maturity, pool);
    if !ok {
      return;
    }
    ok := CheckCoinbase(block.coinbase, all, CalcBlockSubsidy(block.height, interval));
    forall a: Asset
      ensures PaidAt(block.coinbase, Due(all, CalcBlockSubsidy(block.height, interval)), a) <==>
          PaysDueAt(block, interval, a)
    {
      DueMeaning(block, interval, all, a);
    }
    if ok {
      forall a: Asset
        ensures Conserves(block, interval, a)
      {
        BlockConserves(block, interval, maturity, a);
      }
    }
  }

  /** n times the same. */
  function Copies<T>(n: nat, x: T): (r: seq<T>)
    ensures forall i :: 0 <= i < |r| ==> r[i] == x
  {
    if n == 0 then [] else Copies(n - 1, x) + [x]
  }

  lemma {:induction false} CopiesOf(n: nat, c: Coin, a: Asset)
    ensures Of(Inputs(Copies(n, Some(c))), a) == if a == c.asset then Copies(n, c.amount) else []
  {
    hide Of, Inputs;
    if n > 0 {
      var ins := Copies(n - 1, Some(c));
      CopiesOf(n - 1, c, a);
      InputsGrow(ins, c);
      OfGrow(Inputs(ins), Item(c.asset, c.amount), a);
    } else {
      NoInputs(a);
    }
  }

  lemma InputsGrow(ins: seq<Option<Coin>>, c: Coin)
    ensures Inputs(ins + [Some(c)]) == Inputs(ins) + [Item(c.asset, c.amount)]
  {
    assert (ins + [Some(c)])[..|ins|] == ins;
  }

  lemma NoInputs(a: Asset)
    ensures Of(Inputs([]), a) == []
  {
  }

  lemma {:induction false} CopiesSum(n: nat, x: int)
    ensures Sum(Copies(n, x)) == n * x
  {
    if n > 0 {
      CopiesSum(n - 1, x);
      SumGrow(Copies(n - 1, x), x);
      assert (n - 1) * x + x == n * x;
    }
  }

  const TOKEN: Asset := Asset(0, 1)

  /** Nineteen full inputs spent as a fee: their 64-bit total is what is left modulo 2^64. */
  const SPENT_AS_FEE: Tx := Tx(Copies(19, Some(Coin(MAX_XING, [], 1, false, TOKEN))), [])

  const LEFT: int := 19 * MAX_XING - 2 * LIMIT

  const WRAPPED: Block :=
    Block(2, [SPENT_AS_FEE], [Output(BASE_SUBSIDY, ASIMOV, false, false), Output(LEFT, TOKEN, false, false)])

  lemma WrappedPasses()
    ensures SaneOutputs(SPENT_AS_FEE.outs) && Passes(SPENT_AS_FEE, 2, 0)
  {
    hide Inputs, Copies, Wrap;
    assert Outputs(SPENT_AS_FEE.outs) == [];
    forall a: Asset
      ensures Out(SPENT_AS_FEE, a) == [] && (IsIndivisible(a) ==> In(SPENT_AS_FEE, a) == [])
    {
      CopiesOf(19, Coin(MAX_XING, [], 1, false, TOKEN), a);
    }
  }

  lemma WrappedCoinbase(a: Asset)
    ensures Of(Outputs(WRAPPED.coinbase), a) ==
            if a == ASIMOV then [BASE_SUBSIDY] else if a == TOKEN then [LEFT] else []
  {
    var x, y := Item(ASIMOV, BASE_SUBSIDY), Item(TOKEN, LEFT);
    assert Outputs(WRAPPED.coinbase) == [] + [x] + [y];
    OfGrow([], x, a);
    OfGrow([] + [x], y, a);
  }

  lemma WrappedSums(a: Asset)
    ensures Sum(Of(Outputs(WRAPPED.coinbase), a)) ==
            if a == ASIMOV then BASE_SUBSIDY else if a == TOKEN then LEFT else 0
    ensures Collected(WRAPPED.txs, a) == if a == TOKEN then 19 * MAX_XING else 0
  {
    hide Copies, Of, Sum, Collected, Inputs;
    WrappedCoinbase(a);
    NothingSummed();
    NothingCollected(a);
    SumGrow([], BASE_SUBSIDY);
    SumGrow([], LEFT);
    assert [] + [BASE_SUBSIDY] == [BASE_SUBSIDY] && [] + [LEFT] == [LEFT];
    CollectedNext([], SPENT_AS_FEE, a);
    assert [] + [SPENT_AS_FEE] == WRAPPED.txs;
    CopiesOf(19, Coin(MAX_XING, [], 1, false, TOKEN), a);
    CopiesSum(19, MAX_XING);
    assert Outputs(SPENT_AS_FEE.outs) == [];
    NoItems(a);
  }

  lemma NothingCollected(a: Asset)
    ensures Collected([], a) == 0
  {
  }

  lemma NoItems(a: Asset)
    ensures Of([], a) == []
  {
  }

  lemma WrappedPays(a: Asset)
    ensures Pays(SPENT_AS_FEE, a) <==> a == TOKEN
    ensures Someone(WRAPPED.txs, a) <==> a == TOKEN
  {
    hide Wrap, Copies, Sum;
    CopiesOf(19, Coin(MAX_XING, [], 1, false, TOKEN), a);
    assert Outputs(SPENT_AS_FEE.outs) == [];
    NineteenCopies();
    SomeoneNext([], SPENT_AS_FEE, a);
    assert [] + [SPENT_AS_FEE] == WRAPPED.txs;
  }

  lemma NineteenCopies()
    ensures Copies(19, MAX_XING) != []
  {
  }

  /** Equality can fail: this block is accepted, and most of the token is gone. */
  lemma ValueLost()
    ensures AllSane(WRAPPED.txs) && SaneOutputs(WRAPPED.coinbase)
    ensures Accepts(WRAPPED, 5, 0, {TOKEN})
    ensures Added(WRAPPED, TOKEN) < Minted(WRAPPED, 5, TOKEN)
  {
    hide Sum, Collected, Of, Outputs, Passes, Pays, Someone;
    WrappedPasses();
    forall a: Asset
      ensures PaysDueAt(WRAPPED, 5, a) && (Pays(SPENT_AS_FEE, a) ==> a in {TOKEN})
      ensures Sum(Of(Outputs(WRAPPED.coinbase), a)) <= MAX_XING
      ensures !Someone(WRAPPED.txs[..0], a)
    {
      WrappedSums(a);
      WrappedCoinbase(a);
      WrappedPays(a);
      NobodyYet(a);
      assert WRAPPED.txs[..0] == [];
    }
    WrappedSums(TOKEN);
  }

  lemma NobodyYet(a: Asset)
    ensures !Someone([], a)
  {
  }

  // ------------------------------------------------------------------ a chain

  /** What a chain of blocks adds to the amount of an asset in circulation. */
  function AddedBy(chain: seq<Block>, a: Asset): int {
    if chain == [] then 0 else AddedBy(chain[..|chain| - 1], a) + Added(chain[|chain| - 1], a)
  }

  /** Blocks one height after the other, each of them accepted, whatever the pools of fee assets were. */
  ghost predicate Accepted(chain: seq<Block>, interval: nat, maturity: int, pools: seq<set<Asset>>) {
    && |pools| == |chain|
    && forall i :: 0 <= i < |chain| ==>
      chain[i].height == i + 1 && AcceptedBlock(chain[i], interval, maturity, pools[i])
  }

  ghost predicate AcceptedBlock(block: Block, interval: nat, maturity: int, pool: set<Asset>) {
    AllSane(block.txs) && SaneOutputs(block.coinbase) && Accepts(block, interval, maturity, pool)
  }

  lemma {:induction false} ChainConserves(chain: seq<Block>, interval: nat, maturity: int, pools: seq<set<Asset>>,
          a: Asset)
    requires Accepted(chain, interval, maturity, pools) && !IsIndivisible(a)
    ensures AddedBy(chain, a) <= if a == ASIMOV then Rewarded(|chain|, interval) else 0
  {
    hide AllSane, SaneOutputs, AllPass, AllAllowed, NoneSinks, PaysDue;
    if chain != [] {
      var n := |chain| - 1;
      ChainConserves(chain[..n], interval, maturity, pools[..n], a);
      assert AcceptedBlock(chain[n], interval, maturity, pools[n]);
      BlockConserves(chain[n], interval, maturity, a);
    }
  }

  /** However many blocks the main net accepts, they never create more than the maximum amount. */
  lemma MainNetSupply(chain: seq<Block>, maturity: int, pools: seq<set<Asset>>, a: Asset)
    requires Accepted(chain, MAIN_NET_INTERVAL, maturity, pools) && !IsIndivisible(a)
    ensures AddedBy(chain, a) <= if a == ASIMOV then MAX_XING else 0
  {
    hide Accepted;
    ChainConserves(chain, MAIN_NET_INTERVAL, maturity, pools, a);
    RewardedIssued(|chain|, MAIN_NET_INTERVAL);
    MainNetSubsidy(|chain| + 1);
  }
}
