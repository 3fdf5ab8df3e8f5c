/**
 Rollback of a failed contract call (blockchain/chain.go): a message that spends the positive outputs of
 the transaction and pays them back to the owners of its inputs, in the order of the inputs.
 */
module Rollback {
  import opened Common
  import opened Conservation
  import BlockValue

  /** An amount for the holder of a script. */
  datatype Share = Share(amount: int, asset: Asset, script: Script)

  // ------------------------------------------------------------------ one asset

  function Amounts(s: seq<Share>): (r: seq<int>)
    ensures |r| == |s|
  {
    seq(|s|, i requires 0 <= i < |s| => s[i].amount)
  }

  /** What is left of an amount after an input was served; None when nothing is. */
  function Left(left: Option<int>, x: Share): Option<int> {
    if left.Some? && left.value > x.amount then Some(Wrap(left.value - x.amount)) else None
  }

  /** The input is paid all of its own as long as more than that is left, and then what is left. */
  function Payment(left: Option<int>, x: Share): seq<Share> {
    if left.None? then []
    else if left.value > x.amount then [x]
    else [x.(amount := left.value)]
  }

  function Rest(s: seq<Share>, due: Option<int>): Option<int> {
    if s == [] then due else Left(Rest(s[..|s| - 1], due), s[|s| - 1])
  }

  function Back(s: seq<Share>, due: Option<int>): seq<Share> {
    if s == [] then [] else Back(s[..|s| - 1], due) + Payment(Rest(s[..|s| - 1], due), s[|s| - 1])
  }

  ghost predicate Positive(s: seq<Share>) {
    forall i :: 0 <= i < |s| ==> 0 < s[i].amount
  }

  lemma AmountsGrow(s: seq<Share>, x: Share)
    ensures Amounts(s + [x]) == Amounts(s) + [x.amount]
    ensures Sum(Amounts(s + [x])) == Sum(Amounts(s)) + x.amount
  {
    assert Amounts(s + [x]) == Amounts(s) + [x.amount];
    SumGrow(Amounts(s), x.amount);
  }

  lemma NoAmounts()
    ensures Sum(Amounts([])) == 0
  {
  }

  lemma BackNext(s: seq<Share>, due: Option<int>)
    ensures s == [] ==> Rest(s, due) == due && Back(s, due) == []
    ensures s != [] ==> var init, last := s[..|s| - 1], s[|s| - 1];
                        && Rest(s, due) == Left(Rest(init, due), last)
                        && Back(s, due) == Back(init, due) + Payment(Rest(init, due), last)
  {
  }

  lemma PaysOne(r: int, x: Share)
    requires Wrap(r) == r && 0 < x.amount
    ensures x.amount < r ==> Left(Some(r), x) == Some(r - x.amount) && Payment(Some(r), x) == [x]
    ensures r <= x.amount ==> Left(Some(r), x) == None && Payment(Some(r), x) == [x.(amount := r)]
    ensures Left(None, x) == None && Payment(None, x) == []
  {
    hide Wrap;
    WrapSmall(r);
    WrapSmall(r - x.amount);
  }

  lemma {:induction false} BackFacts(s: seq<Share>, w: int)
    requires Positive(s) && Wrap(w) == w
    ensures 0 <= Sum(Amounts(s)) && (s != [] ==> 0 < Sum(Amounts(s)))
    ensures Sum(Amounts(s)) < w ==> Rest(s, Some(w)) == Some(w - Sum(Amounts(s))) && Back(s, Some(w)) == s
    ensures w <= Sum(Amounts(s)) && s != [] ==> Rest(s, Some(w)) == None && Sum(Amounts(Back(s, Some(w)))) == w
    ensures |Back(s, Some(w))| <= |s|
  {
    hide Wrap, Sum, Amounts, Back, Rest, Left, Payment;
    BackNext(s, Some(w));
    if s == [] {
      NoAmounts();
    } else {
      BackFacts(s[..|s| - 1], w);
      var init, last := s[..|s| - 1], s[|s| - 1];
      BackNext(init, Some(w));
      assert s == init + [last];
      if init == [] {
        NoAmounts();
      }
      if init == [] || Sum(Amounts(init)) < w {
        ServedLast(init, last, s, w);
      } else {
        NotServed(init, last, s, w);
      }
    }
  }

  /** More is left than the inputs before took: the last input is served, in full or with what is left. */
  lemma ServedLast(init: seq<Share>, last: Share, s: seq<Share>, w: int)
    requires s == init + [last] && 0 < last.amount && Wrap(w) == w && 0 <= Sum(Amounts(init))
    requires Rest(s, Some(w)) == Left(Some(w - Sum(Amounts(init))), last)
    requires Back(s, Some(w)) == init + Payment(Some(w - Sum(Amounts(init))), last)
    requires Sum(Amounts(init)) < w || Sum(Amounts(init)) == 0
    ensures Sum(Amounts(s)) == Sum(Amounts(init)) + last.amount
    ensures Sum(Amounts(s)) < w ==> Rest(s, Some(w)) == Some(w - Sum(Amounts(s))) && Back(s, Some(w)) == s
    ensures w <= Sum(Amounts(s)) ==> Rest(s, Some(w)) == None && Sum(Amounts(Back(s, Some(w)))) == w
    ensures |Back(s, Some(w))| <= |s|
  {
    hide *;
    var before := Sum(Amounts(init));
    AmountsGrow(init, last);
    WrapSmall(w);
    WrapSmall(w - before);
    PaysOne(w - before, last);
    AmountsGrow(init, last.(amount := w - before));
  }

  /** Nothing is left for the last input. */
  lemma NotServed(init: seq<Share>, last: Share, s: seq<Share>, w: int)
    requires s == init + [last] && 0 < last.amount && w <= Sum(Amounts(init))
    requires Rest(init, Some(w)) == None && Sum(Amounts(Back(init, Some(w)))) == w && |Back(init, Some(w))| <= |init|
    requires Rest(s, Some(w)) == Left(None, last) && Back(s, Some(w)) == Back(init, Some(w)) + Payment(None, last)
    ensures Sum(Amounts(s)) == Sum(Amounts(init)) + last.amount
    ensures Rest(s, Some(w)) == None && Back(s, Some(w)) == Back(init, Some(w))
  {
    hide *;
    AmountsGrow(init, last);
    WrapSmall(0);
    PaysOne(0, last);
    assert Back(init, Some(w)) + [] == Back(init, Some(w));
  }

  /** The inputs get back exactly what they gave if and only if as much is due. */
  lemma BackAll(s: seq<Share>, w: int)
    requires Positive(s) && Wrap(w) == w && s != []
    ensures Back(s, Some(w)) == s <==> Sum(Amounts(s)) <= w
  {
    BackFacts(s, w);
    if Sum(Amounts(s)) == w {
      BackLast(s, w);
    }
  }

  lemma BackLast(s: seq<Share>, w: int)
    requires Positive(s) && Wrap(w) == w && s != [] && Sum(Amounts(s)) == w
    ensures Back(s, Some(w)) == s
  {
    hide Wrap, Sum, Amounts;
    var init, last := s[..|s| - 1], s[|s| - 1];
    assert s == init + [last];
    AmountsGrow(init, last);
    BackFacts(init, w);
  }

  /** Each payment goes to the script of the input it serves, and is no more than that input. */
  lemma {:induction false} BackFair(s: seq<Share>, due: Option<int>)
    ensures |Back(s, due)| <= |s|
    ensures due.None? ==> Back(s, due) == []
    ensures |Back(s, due)| < |s| ==> Rest(s, due).None?
    ensures forall i :: 0 <= i < |Back(s, due)| ==>
      Back(s, due)[i].script == s[i].script && Back(s, due)[i].asset == s[i].asset &&
          Back(s, due)[i].amount <= s[i].amount
  {
    if s != [] {
      BackFair(s[..|s| - 1], due);
      assert due.None? ==> Rest(s[..|s| - 1], due).None? by { NothingLeft(s[..|s| - 1], due); }
    }
  }

  lemma {:induction false} NothingLeft(s: seq<Share>, due: Option<int>)
    ensures due.None? ==> Rest(s, due).None?
  {
    if s != [] {
      NothingLeft(s[..|s| - 1], due);
    }
  }

  /** The first inputs get back all of theirs, the next one what is left, and the others nothing. */
  ghost predicate PaidInOrder(s: seq<Share>, paid: seq<Share>, w: int, j: int) {
    && 0 <= j < |s| && Sum(Amounts(s[..j])) < w <= Sum(Amounts(s[..j + 1]))
    && paid == s[..j] + [s[j].(amount := w - Sum(Amounts(s[..j])))]
  }

  lemma {:induction false} BackInOrder(s: seq<Share>, w: int)
    requires Positive(s) && Wrap(w) == w && 0 < w
    ensures Sum(Amounts(s)) < w ==> Back(s, Some(w)) == s
    ensures w <= Sum(Amounts(s)) ==> exists j :: PaidInOrder(s, Back(s, Some(w)), w, j)
  {
    hide *;
    BackFacts(s, w);
    NoAmounts();
    if s != [] && w <= Sum(Amounts(s)) {
      var init, last := s[..|s| - 1], s[|s| - 1];
      assert s == init + [last];
      PositiveParts(init, last);
      BackNext(s, Some(w));
      BackInOrder(init, w);
      BackFacts(init, w);
      AmountsGrow(init, last);
      if Sum(Amounts(init)) < w {
        PaidLast(init, last, w, Back(s, Some(w)));
      } else {
        PaysOne(1, last) by { WrapSmall(1); }
        var j :| PaidInOrder(init, Back(init, Some(w)), w, j);
        EarlierOrder(init, last, Back(init, Some(w)), w, j);
        assert Back(init, Some(w)) + [] == Back(init, Some(w));
      }
    }
  }

  lemma PositiveParts(init: seq<Share>, last: Share)
    requires Positive(init + [last])
    ensures Positive(init) && 0 < last.amount
  {
    assert (init + [last])[|init|] == last;
    assert forall i :: 0 <= i < |init| ==> (init + [last])[i] == init[i];
  }

  lemma PaidLast(init: seq<Share>, last: Share, w: int, paid: seq<Share>)
    requires Wrap(w) == w && 0 < last.amount && 0 <= Sum(Amounts(init)) < w <= Sum(Amounts(init)) + last.amount
    requires paid == init + Payment(Some(w - Sum(Amounts(init))), last)
    ensures PaidInOrder(init + [last], paid, w, |init|)
  {
    hide Wrap, Sum, Amounts, Payment;
    WrapSmall(w);
    WrapSmall(w - Sum(Amounts(init)));
    PaysOne(w - Sum(Amounts(init)), last);
    AmountsGrow(init, last);
    var s := init + [last];
    assert s[..|init|] == init && s[..|init| + 1] == s && s[|init|] == last;
  }

  lemma EarlierOrder(init: seq<Share>, last: Share, paid: seq<Share>, w: int, j: int)
    requires PaidInOrder(init, paid, w, j)
    ensures PaidInOrder(init + [last], paid, w, j)
  {
    hide Sum, Amounts;
    var s := init + [last];
    assert s[..j] == init[..j] && s[..j + 1] == init[..j + 1];
  }

  // ------------------------------------------------------------------ a transaction

  function Select(s: seq<Share>, a: Asset): seq<Share> {
    if s == [] then []
    else
      var last := s[|s| - 1];
      Select(s[..|s| - 1], a) + if last.asset == a then [last] else []
  }

  lemma SelectGrow(s: seq<Share>, x: Share, a: Asset)
    ensures Select(s + [x], a) == if x.asset == a then Select(s, a) + [x] else Select(s, a)
  {
    assert (s + [x])[..|s|] == s;
  }

  /** The inputs as shares; an input that is missing ends them. */
  function Shares(ins: seq<Option<Coin>>): (r: seq<Share>)
    requires forall i :: 0 <= i < |ins| ==> ins[i].Some?
    ensures |r| == |ins|
  {
    seq(|ins|, i requires 0 <= i < |ins| => Share(ins[i].value.amount, ins[i].value.asset, ins[i].value.script))
  }

  /** The outputs that are spent. */
  function Spendings(outs: seq<Output>): seq<Output> {
    if outs == [] then []
    else
      var init, last := Spendings(outs[..|outs| - 1]), outs[|outs| - 1];
      if last.value > 0 then init + [last] else init
  }

  /** What is due of an asset: the 64-bit sum of the outputs spent. */
  function Due(outs: seq<Output>, a: Asset): Option<int> {
    var s := Of(Outputs(Spendings(outs)), a);
    if s == [] then None else Some(Wrap(Sum(s)))
  }

  function Lookup(m: Totals, a: Asset): Option<int> { if a in m then Some(m[a]) else None }

  ghost predicate Ascending(s: seq<nat>) {
    forall i, j :: 0 <= i < j < |s| ==> s[i] < s[j]
  }

  /** The loop over the outputs: the positive ones are spent, each once, and added up by asset. */
  method SpendOutputs(outs: seq<Output>) returns (spent: seq<nat>, due: Totals)
    ensures Ascending(spent)
    ensures forall i :: i in spent <==> 0 <= i < |outs| && outs[i].value > 0
    ensures forall a: Asset :: Lookup(due, a) == Due(outs, a)
  {
    spent, due := [], map[];
    assert outs[..0] == [];
    BlockValue.NothingPaid([]);
    for k := 0 to |outs|
      invariant Ascending(spent)
      invariant forall i :: i in spent <==> 0 <= i < k && outs[i].value > 0
      invariant BlockValue.Paid(Spendings(outs[..k]), due)
    {
      assert outs[..k + 1][..k] == outs[..k];
      if outs[k].value > 0 {
        BlockValue.PaidNext(Spendings(outs[..k]), outs[k], due);
        due := due[outs[k].asset := Wrap(Get(due, outs[k].asset) + outs[k].value)];
        AscendingNext(spent, k);
        ghost var before := spent;
        spent := spent + [k];
        assert spent[|before|] == k && forall i :: i in spent <==> i in before || i == k;
      }
    }
    assert outs[..|outs|] == outs;
    forall a: Asset
      ensures Lookup(due, a) == Due(outs, a)
    {
      assert BlockValue.PaidAt(Spendings(outs), due, a);
    }
  }

  lemma AscendingNext(s: seq<nat>, k: nat)
    requires Ascending(s) && forall i :: i in s ==> i < k
    ensures Ascending(s + [k])
  {
    forall i, j | 0 <= i < j < |s + [k]|
      ensures (s + [k])[i] < (s + [k])[j]
    {
      assert s[i] in s;
    }
  }

  ghost predicate Served(s: seq<Share>, outs: seq<Output>, left: Totals, paid: seq<Share>) {
    forall a: Asset :: ServedAt(s, outs, left, paid, a)
  }

  ghost predicate ServedAt(s: seq<Share>, outs: seq<Output>, left: Totals, paid: seq<Share>, a: Asset) {
    && Lookup(left, a) == Rest(Select(s, a), Due(outs, a))
    && Select(paid, a) == Back(Select(s, a), Due(outs, a))
  }

  /** One input is served from what is left of its asset. */
  method Serve(x: Share, left0: Totals, paid0: seq<Share>, ghost s: seq<Share>, ghost outs: seq<Output>)
    returns (left: Totals, paid: seq<Share>)
    requires Served(s, outs, left0, paid0)
    ensures Served(s + [x], outs, left, paid)
  {
    hide Wrap, Due, Select;
    left, paid := left0, paid0;
    if x.asset in left {
      var amount := left[x.asset];
      if amount > x.amount {
        left := left[x.asset := Wrap(amount - x.amount)];
        paid := paid + [x];
      } else {
        paid := paid + [x.(amount := amount)];
        left := left - {x.asset};
      }
    }
    forall a: Asset
      ensures ServedAt(s + [x], outs, left, paid, a)
    {
      ServeAt(x, left0, paid0, left, paid, s, outs, a);
    }
  }

  lemma ServeAt(x: Share, left0: Totals, paid0: seq<Share>, left: Totals, paid: seq<Share>, s: seq<Share>,
          outs: seq<Output>, a: Asset)
    requires ServedAt(s, outs, left0, paid0, a)
    requires a != x.asset ==> Lookup(left, a) == Lookup(left0, a)
    requires a == x.asset ==> Lookup(left, a) == Left(Lookup(left0, a), x)
    requires paid == paid0 + Payment(Lookup(left0, x.asset), x)
    ensures ServedAt(s + [x], outs, left, paid, a)
  {
    hide Due, Select, Left, Rest, Back;
    SelectGrow(s, x, a);
    SelectGrow(paid0, x, a);
    SelectGrow(paid0, x.(amount := Get(left0, x.asset)), a);
    assert paid0 + [] == paid0;
    if a == x.asset {
      StepBack(Select(s, a), x, Due(outs, a));
    }
  }

  lemma StepBack(s: seq<Share>, x: Share, due: Option<int>)
    ensures Rest(s + [x], due) == Left(Rest(s, due), x)
    ensures Back(s + [x], due) == Back(s, due) + Payment(Rest(s, due), x)
  {
    hide Left, Payment;
    assert (s + [x])[..|s|] == s;
  }

  /**
   GenRollbackMsg: it spends each positive output once and serves the inputs of each asset in order from
   the sum of its outputs. It fails only if an input cannot be looked up.
   */
  method GenRollbackMsg(tx: Tx) returns (ok: bool, spent: seq<nat>, paid: seq<Share>)
    ensures Ascending(spent) && forall i :: i in spent <==> 0 <= i < |tx.outs| && tx.outs[i].value > 0
    ensures ok <==> forall i :: 0 <= i < |tx.ins| ==> tx.ins[i].Some?
    ensures ok ==> forall a: Asset :: Select(paid, a) == Back(Select(Shares(tx.ins), a), Due(tx.outs, a))
  {
    hide Due, Back, Rest;
    var left;
    spent, left := SpendOutputs(tx.outs);
    paid := [];
    assert Served([], tx.outs, left, []) by {
      forall a: Asset
        ensures ServedAt([], tx.outs, left, [], a)
      {
        NoneServed(Due(tx.outs, a));
      }
    }
    for i := 0 to |tx.ins|
      invariant forall j :: 0 <= j < i ==> tx.ins[j].Some?
      invariant Served(Shares(tx.ins[..i]), tx.outs, left, paid)
    {
      if tx.ins[i].None? {
        return false, spent, paid;
      }
      var x := Share(tx.ins[i].value.amount, tx.ins[i].value.asset, tx.ins[i].value.script);
      ghost var s := Shares(tx.ins[..i]);
      left, paid := Serve(x, left, paid, s, tx.outs);
      assert Shares(tx.ins[..i + 1]) == s + [x];
    }
    assert tx.ins[..|tx.ins|] == tx.ins;
    forall a: Asset
      ensures Select(paid, a) == Back(Select(Shares(tx.ins), a), Due(tx.outs, a))
    {
      assert ServedAt(Shares(tx.ins), tx.outs, left, paid, a);
    }
    ok := true;
  }

  lemma NoneServed(due: Option<int>)
    ensures Rest([], due) == due && Back([], due) == []
  {
  }

  // ------------------------------------------------------------------ what is paid back

  ghost predicate NonNegative(outs: seq<Output>) {
    forall i :: 0 <= i < |outs| ==> 0 <= outs[i].value
  }

  lemma {:induction false} SpendingsSum(outs: seq<Output>, a: Asset)
    requires NonNegative(outs)
    ensures Sum(Of(Outputs(Spendings(outs)), a)) == Sum(Of(Outputs(outs), a))
    ensures (forall i :: 0 <= i < |outs| && outs[i].asset == a ==> 0 < outs[i].value) ==>
              Of(Outputs(Spendings(outs)), a) == Of(Outputs(outs), a)
    ensures Of(Outputs(Spendings(outs)), a) != [] ==> 0 < Sum(Of(Outputs(outs), a))
    ensures 0 <= Sum(Of(Outputs(outs), a))
  {
    hide Of, Sum, Outputs;
    if outs != [] {
      var init, last := outs[..|outs| - 1], outs[|outs| - 1];
      SpendingsSum(init, a);
      assert outs == init + [last];
      OutputsGrow(init, last, a);
      OutputsGrow(Spendings(init), last, a);
    } else {
      NoOutputs(a);
    }
  }

  lemma NoOutputs(a: Asset)
    ensures Sum(Of(Outputs([]), a)) == 0 && Of(Outputs([]), a) == []
  {
  }

  lemma OutputsGrow(outs: seq<Output>, o: Output, a: Asset)
    ensures Of(Outputs(outs + [o]), a) ==
            if a == o.asset then Of(Outputs(outs), a) + [o.value] else Of(Outputs(outs), a)
    ensures Sum(Of(Outputs(outs + [o]), a)) == Sum(Of(Outputs(outs), a)) + if a == o.asset then o.value else 0
  {
    assert Outputs(outs + [o]) == Outputs(outs) + [Item(o.asset, o.value)];
    OfGrow(Outputs(outs), Item(o.asset, o.value), a);
    OutputGrow(outs, o, a);
  }

  lemma {:induction false} SharesAmounts(ins: seq<Option<Coin>>, a: Asset)
    requires forall i :: 0 <= i < |ins| ==> ins[i].Some?
    ensures Amounts(Select(Shares(ins), a)) == Of(Inputs(ins), a)
  {
    hide Of, Select;
    if ins != [] {
      var n := |ins| - 1;
      SharesAmounts(ins[..n], a);
      var s, x := Shares(ins[..n]), Share(ins[n].value.amount, ins[n].value.asset, ins[n].value.script);
      assert Shares(ins) == s + [x];
      SelectGrow(s, x, a);
      AmountsGrow(Select(s, a), x);
      OfGrow(Inputs(ins[..n]), Item(x.asset, x.amount), a);
    } else {
      NoShares(a);
      assert Shares(ins) == [];
    }
  }

  lemma NoShares(a: Asset)
    ensures Select([], a) == [] && Amounts([]) == [] && Of(Inputs([]), a) == []
  {
  }

  ghost predicate Within(s: seq<int>, t: seq<int>) {
    forall i :: 0 <= i < |s| ==> s[i] in t
  }

  /** Sequences without repetition that hold the same numbers have the same sum. */
  lemma {:induction false} SameSum(s: seq<int>, t: seq<int>)
    requires NoDup(s) && NoDup(t) && Within(s, t) && Within(t, s)
    ensures Sum(s) == Sum(t)
    decreases |s|
  {
    hide NoDup;
    if s == [] {
      NotWithin(t);
    } else {
      assert s[|s| - 1] in t;
      var j :| 0 <= j < |t| && t[j] == s[|s| - 1];
      Removed(s, t, j);
      SameSum(s[..|s| - 1], t[..j] + t[j + 1..]);
      SumRemove(t, j);
    }
  }

  lemma NotWithin(t: seq<int>)
    ensures t != [] ==> !Within(t, [])
  {
    if t != [] {
      assert t[0] !in [];
    }
  }

  lemma SumRemove(t: seq<int>, j: nat)
    requires j < |t|
    ensures Sum(t) == Sum(t[..j] + t[j + 1..]) + t[j]
  {
    hide Sum;
    var x, y := t[..j], t[j + 1..];
    SumGrow(x, t[j]);
    SumAppend(x + [t[j]], y);
    SumAppend(x, y);
    assert t == x + [t[j]] + y;
  }

  lemma Removed(s: seq<int>, t: seq<int>, j: nat)
    requires NoDup(s) && NoDup(t) && Within(s, t) && Within(t, s)
    requires s != [] && j < |t| && t[j] == s[|s| - 1]
    ensures var init, u := s[..|s| - 1], t[..j] + t[j + 1..];
            NoDup(init) && NoDup(u) && Within(init, u) && Within(u, init)
  {
    var init, u := s[..|s| - 1], t[..j] + t[j + 1..];
    forall i | 0 <= i < |init|
      ensures init[i] in u
    {
      assert s[i] in t;
      var k :| 0 <= k < |t| && t[k] == s[i];
      assert u[if k < j then k else k - 1] == s[i];
    }
    forall i | 0 <= i < |u|
      ensures u[i] in init
    {
      var k := if i < j then i else i + 1;
      assert t[k] in s;
      var m :| 0 <= m < |s| && s[m] == t[k];
      assert init[m] == u[i];
    }
  }

  lemma InputsAreShares(tx: Tx, height: int, maturity: int, a: Asset)
    requires Passes(tx, height, maturity)
    ensures forall i :: 0 <= i < |tx.ins| ==> tx.ins[i].Some?
    ensures var s := Select(Shares(tx.ins), a); Amounts(s) == In(tx, a) && Positive(s)
  {
    forall i | 0 <= i < |tx.ins|
      ensures tx.ins[i].Some?
    {
      assert Spendable(tx.ins[i], height, maturity);
    }
    SharesAmounts(tx.ins, a);
    var s := Select(Shares(tx.ins), a);
    InputsPositive(tx.ins, height, maturity);
    OfPositive(Inputs(tx.ins), a);
    forall i | 0 <= i < |s|
      ensures 0 < s[i].amount
    {
      assert Amounts(s)[i] == s[i].amount;
    }
  }

  lemma {:induction false} OfPositive(items: seq<Item>, a: Asset)
    requires forall i :: 0 <= i < |items| ==> 0 < items[i].amount
    ensures forall i :: 0 <= i < |Of(items, a)| ==> 0 < Of(items, a)[i]
  {
    if items != [] {
      OfPositive(items[..|items| - 1], a);
    }
  }

  /** What a transaction paid out of a divisible asset is paid back to the owners of its inputs, all of it. */
  lemma AmountsReturn(tx: Tx, height: int, maturity: int, a: Asset)
    requires SaneOutputs(tx.outs) && Passes(tx, height, maturity) && !IsIndivisible(a)
    ensures forall i :: 0 <= i < |tx.ins| ==> tx.ins[i].Some?
    ensures Sum(Amounts(Back(Select(Shares(tx.ins), a), Due(tx.outs, a)))) == Sum(Out(tx, a))
  {
    hide Wrap, Sum, Of, Passes, Back, Select, Amounts;
    InputsAreShares(tx, height, maturity, a);
    var s := Select(Shares(tx.ins), a);
    SaneNonNegative(tx.outs);
    SpendingsSum(tx.outs, a);
    OutRange(tx.outs, a);
    NeverPaysMore(tx, height, maturity, a);
    NoAmounts();
    if Due(tx.outs, a).Some? {
      BackFacts(s, Sum(Out(tx, a)));
    } else {
      BackFair(s, None);
      NothingDue(tx.outs, a);
    }
  }

  lemma NothingDue(outs: seq<Output>, a: Asset)
    requires Due(outs, a).None?
    ensures Sum(Of(Outputs(Spendings(outs)), a)) == 0
  {
  }

  lemma SaneNonNegative(outs: seq<Output>)
    requires SaneOutputs(outs)
    ensures NonNegative(outs)
    ensures forall i :: 0 <= i < |outs| && IsIndivisible(outs[i].asset) ==> 0 < outs[i].value
  {
    forall i | 0 <= i < |outs|
      ensures 0 <= outs[i].value && (IsIndivisible(outs[i].asset) ==> 0 < outs[i].value)
    {
      assert SaneValue(outs[i]);
    }
  }

  /** Each unit of an indivisible asset goes back to its owner, exactly if the ids add up to a 64-bit number. */
  lemma UnitsReturn(tx: Tx, height: int, maturity: int, a: Asset)
    requires SaneOutputs(tx.outs) && Passes(tx, height, maturity) && IsIndivisible(a)
    ensures forall i :: 0 <= i < |tx.ins| ==> tx.ins[i].Some?
    ensures var s := Select(Shares(tx.ins), a); Back(s, Due(tx.outs, a)) == s <==> Sum(In(tx, a)) < LIMIT
  {
    hide Wrap, Sum, Of, Back, Rest, Select, Amounts, Outputs, Inputs;
    InputsAreShares(tx, height, maturity, a);
    var s := Select(Shares(tx.ins), a);
    SaneNonNegative(tx.outs);
    SpendingsSum(tx.outs, a);
    SameMembers(In(tx, a), Out(tx, a));
    SameSum(In(tx, a), Out(tx, a));
    EmptySet(In(tx, a), Out(tx, a));
    WrapSmall(Sum(Out(tx, a)));
    AmountsLength(s);
    if s == [] {
      NoneServed(Due(tx.outs, a));
      NoAmounts();
    } else {
      WrapSmall(Wrap(Sum(Out(tx, a))));
      BackFacts(s, Wrap(Sum(Out(tx, a))));
      BackAll(s, Wrap(Sum(Out(tx, a))));
    }
  }

  lemma AmountsLength(s: seq<Share>)
    ensures s == [] <==> Amounts(s) == []
  {
  }

  lemma SameMembers(s: seq<int>, t: seq<int>)
    requires ToSet(s) == ToSet(t)
    ensures Within(s, t) && Within(t, s)
  {
    assert forall i :: 0 <= i < |s| ==> s[i] in ToSet(s);
    assert forall i :: 0 <= i < |t| ==> t[i] in ToSet(t);
  }

  // ------------------------------------------------------------------ when units do not return

  const VOUCHER: Asset := Asset(1, 1)

  /** The n largest ids. */
  function Ids(n: nat): seq<int> { seq(n, i => MAX_XING - i) }

  function Move(n: nat): (tx: Tx)
    requires n < MAX_XING
    ensures |tx.ins| == n && |tx.outs| == n
  {
    Tx(seq(n, i => Some(Coin(MAX_XING - i, [i], 1, false, VOUCHER))),
       seq(n, i => Output(MAX_XING - i, VOUCHER, i == 0, false)))
  }

  lemma {:induction false} MoveItems(n: nat, a: Asset)
    requires n < MAX_XING
    ensures In(Move(n), a) == Out(Move(n), a) == if a == VOUCHER then Ids(n) else []
  {
    hide Of;
    if n > 0 {
      MoveItems(n - 1, a);
      var tx, x := Move(n - 1), Item(VOUCHER, MAX_XING - (n - 1));
      assert Move(n).ins[..n - 1] == tx.ins && Move(n).ins[n - 1] == Some(Coin(x.amount, [n - 1], 1, false, VOUCHER));
      assert Outputs(Move(n).outs) == Outputs(tx.outs) + [x];
      OfGrow(Inputs(tx.ins), x, a);
      OfGrow(Outputs(tx.outs), x, a);
      assert Ids(n) == Ids(n - 1) + [x.amount];
    } else {
      assert Outputs(Move(n).outs) == [] && Ids(n) == [];
      NoShares(a);
      NoOutputs(a);
    }
  }

  lemma MovePasses(n: nat)
    requires n < MAX_XING
    ensures SaneOutputs(Move(n).outs) && Passes(Move(n), 2, 0)
  {
    hide Of, Outputs, Inputs;
    forall a: Asset
      ensures In(Move(n), a) == Out(Move(n), a) == if a == VOUCHER then Ids(n) else []
    {
      MoveItems(n, a);
    }
    var tx := Move(n);
    assert Sum([]) == 0;
    forall a: Asset
      ensures IsIndivisible(a) ==> NoDup(Of(Inputs(tx.ins), a)) && NoDup(Of(Outputs(tx.outs), a))
      ensures !IsIndivisible(a) ==> Of(Outputs(tx.outs), a) == []
    {
      assert In(tx, a) == Out(tx, a);
    }
    assert Distinct(Inputs(tx.ins)) && Distinct(Outputs(tx.outs));
    assert AllSpendable(tx.ins, 2, 0) && CallsFirst(tx.outs);
    assert UnitsKept(tx) && Funded(tx);
  }

  lemma {:induction false} IdsSum(n: nat)
    requires n <= 10
    ensures n * (MAX_XING - 10) <= Sum(Ids(n))
  {
    if n > 0 {
      IdsSum(n - 1);
      assert Ids(n) == Ids(n - 1) + [MAX_XING - (n - 1)];
      SumGrow(Ids(n - 1), MAX_XING - (n - 1));
    }
  }

  /** Ten vouchers with the largest ids pass every check, and a rollback does not return them. */
  lemma UnitsLost()
    ensures SaneOutputs(Move(10).outs) && Passes(Move(10), 2, 0)
    ensures var s := Select(Shares(Move(10).ins), VOUCHER); Back(s, Due(Move(10).outs, VOUCHER)) != s
  {
    MovePasses(10);
    MoveItems(10, VOUCHER);
    IdsSum(10);
    UnitsReturn(Move(10), 2, 0, VOUCHER);
  }
}
