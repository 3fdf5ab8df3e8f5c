/**
 Block locators (blockLocator in blockchain/chainview.go) and how a peer answers one (locateInventory and
 locateBlocks in blockchain/chain.go).
 */
module Locator {
  import opened Common
  import opened BlockTree
  import opened ChainView

  // ------------------------------------------------------------------ fastLog2Floor

  /** n & mask, for the mask that selects bits e to 2e - 1. */
  function Masked(n: nat, e: nat): nat {
    n / Pow2(e) % Pow2(e) * Pow2(e)
  }

  /** n is n0 without its rv lowest bits. */
  ghost predicate Shifted(n0: int, n: int, rv: nat) {
    n * Pow2(rv) <= n0 < (n + 1) * Pow2(rv)
  }

  /** fastLog2Floor: the exponent of the highest power of two that is not above n, and 0 for 0. */
  method FastLog2Floor(n0: nat) returns (rv: nat)
    requires n0 < 0x1_0000_0000
    ensures n0 > 0 ==> Pow2(rv) <= n0 < Pow2(rv + 1)
    ensures n0 == 0 ==> rv == 0
    ensures rv < 32
  {
    rv := 0;
    var n, exponent := n0, 16;
    Pow2Table();
    assert Shifted(n0, n, 0);
    hide *;
    for i := 0 to 5
      invariant exponent == (if i <= 1 then 16 - 8 * i else if i <= 3 then 8 - 2 * i else 5 - i)
      invariant rv <= 32 - 2 * exponent
      invariant Shifted(n0, n, rv) && 0 <= n < Pow2(if i == 5 then 1 else 2 * exponent)
      invariant if n0 > 0 then n > 0 else rv == 0 && n == 0
      invariant i == 5 ==> rv < 32
    {
      n, rv := LogStep(n0, n, exponent, rv);
      exponent := exponent / 2;
    }
    if n0 > 0 {
      OneLeft(n0, rv);
    }
  }

  lemma OneLeft(n0: int, rv: nat)
    requires Shifted(n0, 1, rv)
    ensures Pow2(rv) <= n0 < Pow2(rv + 1)
  {
  }

  /** One of the five steps: keeps the upper half of 2e bits if it is not empty, else the lower half. */
  method LogStep(ghost n0: int, n: nat, e: nat, rv: nat) returns (m: nat, r: nat)
    requires e > 0 && n < Pow2(2 * e) && Shifted(n0, n, rv)
    ensures Shifted(n0, m, r) && m < Pow2(e) && rv <= r <= rv + e && (n > 0 ==> m > 0)
    ensures n == 0 ==> m == 0 && r == rv
    ensures n > 0 && e == 1 ==> m == 1 && r <= rv + 1
  {
    HalfBits(n, e);
    if Masked(n, e) != 0 {
      m, r := n / Pow2(e), rv + e;
      ShiftMore(n0, n, rv, e);
    } else {
      m, r := n, rv;
    }
    assert e == 1 ==> Pow2(e) == 2;
  }

  lemma Pow2Table()
    ensures Pow2(0) == 1 && Pow2(1) == 2 && Pow2(2) == 4 && Pow2(4) == 16 && Pow2(8) == 256
    ensures Pow2(16) == 0x1_0000 && Pow2(32) == 0x1_0000_0000
  {
    assert Pow2(2) == 4;
    Pow2Add(2, 2);
    Pow2Add(4, 4);
    Pow2Add(8, 8);
    Pow2Add(16, 16);
    hide Pow2;
  }

  lemma HalfBits(n: nat, e: nat)
    requires n < Pow2(2 * e)
    ensures Masked(n, e) != 0 <==> Pow2(e) <= n
    ensures n / Pow2(e) < Pow2(e)
    ensures Masked(n, e) != 0 ==> n / Pow2(e) > 0
  {
    Pow2Add(e, e);
    hide Pow2;
    Below(n, Pow2(e));
  }

  lemma Below(n: nat, p: nat)
    requires p > 0 && n < p * p
    ensures n / p < p && (n / p % p * p != 0 <==> p <= n) && (p <= n ==> n / p > 0)
  {
    var q := n / p;
    SmallQuotient(n, p, q, n % p);
    SmallRemainder(q, p);
  }

  lemma SmallQuotient(n: nat, p: nat, q: nat, r: nat)
    requires p > 0 && n < p * p && n == q * p + r && r < p
    ensures q < p && (q * p != 0 <==> p <= n) && (p <= n ==> q > 0)
  {
    assert q < p by { assert q >= p ==> q * p >= p * p; }
    assert q > 0 ==> q * p >= p;
  }

  lemma SmallRemainder(q: nat, p: nat)
    requires q < p
    ensures q % p == q
  {
  }

  lemma ShiftMore(n0: int, n: nat, a: nat, b: nat)
    requires Shifted(n0, n, a)
    ensures Shifted(n0, n / Pow2(b), a + b)
  {
    hide Pow2;
    Pow2Add(a, b);
    DivBounds(n, Pow2(b));
    Coarser(n0, n, Pow2(a), Pow2(b), n / Pow2(b));
  }

  lemma DivBounds(n: nat, p: nat)
    requires p > 0
    ensures n / p * p <= n < (n / p + 1) * p
  {
  }

  lemma Coarser(n0: int, n: int, w: nat, p: nat, q: int)
    requires n * w <= n0 < (n + 1) * w && q * p <= n < (q + 1) * p
    ensures q * (w * p) <= n0 < (q + 1) * (w * p)
  {
    assert q * (w * p) == q * p * w;
    assert q * p * w <= n * w;
    assert (q + 1) * (w * p) == (q + 1) * p * w;
    assert (n + 1) * w <= (q + 1) * p * w;
  }

  // ------------------------------------------------------------------ the shape of a locator

  function Clamp(x: int): nat { if x < 0 then 0 else x }

  /** The heights blockLocator visits from height h on, when n entries are in and the stride is step. */
  function HeightsFrom(h: nat, n: nat, step: nat): seq<nat>
    requires step > 0
    decreases h
  {
    if h == 0 then [0]
    else [h] + HeightsFrom(Clamp(h - step), n + 1, if n + 1 > 10 then 2 * step else step)
  }

  function Heights(h: nat): seq<nat> { HeightsFrom(h, 0, 1) }

  /** The stride at entry i, and the height of entry i as long as it is not below the root. */
  function StepAt(i: nat): nat { if i <= 10 then 1 else Pow2(i - 10) }

  function Raw(h: nat, i: nat): int { if i <= 11 then h - i else h - 9 - Pow2(i - 10) }

  lemma RawNext(h: nat, i: nat)
    ensures Raw(h, i + 1) == Raw(h, i) - StepAt(i) < Raw(h, i)
    ensures StepAt(i + 1) == if i + 1 > 10 then 2 * StepAt(i) else StepAt(i)
  {
    assert Pow2(1) == 2 && Pow2(2) == 4;
  }

  lemma {:induction false} RawFalls(h: nat, i: nat, j: nat)
    requires i < j
    ensures Raw(h, j) < Raw(h, i)
    decreases j
  {
    RawNext(h, j - 1);
    if i < j - 1 {
      RawFalls(h, i, j - 1);
    }
  }

  /** Entry i of a locator and what follows it. */
  lemma {:induction false} HeightsAt(h: nat, i: nat)
    requires i == 0 || Raw(h, i - 1) > 0
    ensures var rest := HeightsFrom(Clamp(Raw(h, i)), i, StepAt(i));
            |Heights(h)| == i + |rest| && |rest| > 0 && Heights(h)[i..] == rest && Heights(h)[i] == Clamp(Raw(h, i))
    decreases i
  {
    if i > 0 {
      RawNext(h, i - 1);
      if i > 1 {
        RawNext(h, i - 2);
      }
      HeightsAt(h, i - 1);
      var prev := HeightsFrom(Clamp(Raw(h, i - 1)), i - 1, StepAt(i - 1));
      assert prev[1..] == HeightsFrom(Clamp(Raw(h, i)), i, StepAt(i));
      assert Heights(h)[i..] == prev[1..];
    }
  }

  /** The index of the entry for the root. */
  lemma HeightsEnd(h: nat, m: nat)
    requires Raw(h, m) <= 0 && (m > 0 ==> Raw(h, m - 1) > 0)
    ensures |Heights(h)| == m + 1 && Heights(h)[m] == 0
  {
    HeightsAt(h, m);
  }

  /** The length blockLocator reserves is exact. */
  lemma LocatorLength(h: nat, log: nat)
    requires h > 12 ==> Pow2(log) <= h - 10 < Pow2(log + 1)
    ensures |Heights(h)| == if h <= 12 then h + 1 else 12 + log
  {
    if h <= 11 {
      HeightsEnd(h, h);
    } else if h == 12 {
      assert Pow2(2) == 4;
      HeightsEnd(h, 12);
    } else {
      assert log > 0 by { assert Pow2(1) == 2; }
      HeightsEnd(h, 11 + log);
    }
  }

  lemma {:induction false} EntryAt(h: nat, i: nat)
    requires i < |Heights(h)|
    ensures (i == 0 || Raw(h, i - 1) > 0) && Heights(h)[i] == Clamp(Raw(h, i))
    ensures Raw(h, i) <= 0 ==> i == |Heights(h)| - 1
    decreases i
  {
    if i > 0 {
      EntryAt(h, i - 1);
      HeightsAt(h, i - 1);
    }
    HeightsAt(h, i);
  }

  /** Heights fall from h to 0 without repetition. */
  lemma LocatorDescends(h: nat, i: nat, j: nat)
    requires i < j < |Heights(h)|
    ensures Heights(h)[j] < Heights(h)[i] <= h
  {
    EntryAt(h, i);
    EntryAt(h, j);
    RawFalls(h, i, j);
    if i > 0 {
      RawFalls(h, 0, i);
    }
  }

  lemma LocatorEnds(h: nat)
    ensures |Heights(h)| > 0 && Heights(h)[0] == h && Heights(h)[|Heights(h)| - 1] == 0
  {
    HeightsAt(h, 0);
    EntryAt(h, |Heights(h)| - 1);
    HeightsAt(h, |Heights(h)| - 1);
  }

  /** Every stride that is used fits a 32-bit height. */
  lemma StrideFits(h: nat, i: nat)
    requires i < |Heights(h)| && Heights(h)[i] > 0 && h < 0x8000_0000
    ensures StepAt(i) < 0x8000_0000
  {
    EntryAt(h, i);
    assert Pow2(1) == 2;
  }

  /** Between entries the locator skips fewer heights than it has already come down. */
  lemma Gap(h: nat, i: nat, f: nat)
    requires i + 1 < |Heights(h)| && Heights(h)[i + 1] <= f < Heights(h)[i]
    ensures f - Heights(h)[i + 1] <= h - f
  {
    EntryAt(h, i);
    EntryAt(h, i + 1);
    RawNext(h, i);
    if i > 0 {
      RawFalls(h, 0, i);
    }
    if i == 11 {
      assert Pow2(1) == 2;
    }
  }

  // ------------------------------------------------------------------ blockLocator

  /** The hashes of the ancestors of node at the given heights. */
  ghost predicate Locates(locator: seq<Hash>, heights: seq<nat>, node: Node) {
    && |locator| == |heights|
    && forall i :: 0 <= i < |heights| ==> heights[i] < |Path(node)| && locator[i] == Path(node)[heights[i]].hash
  }

  /** blockLocator, for a given node or for the tip of the view. */
  method BlockLocator(view: ChainView, node0: Option<Node>) returns (locator: seq<Hash>)
    requires view.Valid() && (node0.Some? ==> Proper(node0.value))
    ensures node0.None? && view.Tip().None? ==> locator == []
    ensures node0.Some? ==> node0.value.height >= 0 && Locates(locator, Heights(node0.value.height), node0.value)
    ensures node0.None? && view.Tip().Some? ==>
      view.Tip().value.height >= 0 && Locates(locator, Heights(view.Tip().value.height), view.Tip().value)
  {
    locator := [];
    var first := if node0.None? then view.Tip() else node0;
    if first.None? {
      return;
    }
    var node := first.value;
    var step := 1;
    ghost var start, done: seq<nat> := node, [];
    ScanStart(start);
    hide *;
    while true
      invariant Scan(locator, done, node, step, start)
      decreases node.height
    {
      ScanFacts(locator, done, node, step, start);
      ghost var l, d, n, s := locator, done, node, step;
      locator := locator + [node.hash];
      done := done + [node.height];
      if node.height == 0 {
        break;
      }
      var height := if node.height - step < 0 then 0 else node.height - step;
      node := Earlier(view, node, height, start);
      if |locator| > 10 {
        step := step * 2;
      }
      ScanStep(l, d, n, s, start, node);
    }
  }

  /** The scan so far: entries for the heights done, and from node on the rest of the locator to come. */
  ghost predicate Scan(locator: seq<Hash>, done: seq<nat>, node: Node, step: int, start: Node) {
    && step > 0 && Proper(start) && start.height >= 0 && Proper(node) && node.height >= 0 && Above(node, start)
    && Locates(locator, done, start)
    && done + HeightsFrom(node.height, |locator|, step) == Heights(start.height)
  }

  lemma ScanStart(start: Node)
    requires Proper(start)
    ensures Scan([], [], start, 1, start)
  {
    PathAt(start, start.height);
    AboveSelf(start);
    assert [] + HeightsFrom(start.height, 0, 1) == Heights(start.height);
  }

  lemma ScanFacts(locator: seq<Hash>, done: seq<nat>, node: Node, step: int, start: Node)
    requires Scan(locator, done, node, step, start)
    ensures step > 0 && Proper(start) && Proper(node) && node.height >= 0 && Above(node, start)
    ensures node.height == 0 ==> start.height >= 0 && Locates(locator + [node.hash], Heights(start.height), start)
  {
    MoreLocated(locator, done, node, start);
  }

  lemma MoreLocated(locator: seq<Hash>, done: seq<nat>, node: Node, start: Node)
    requires Proper(start) && node.height >= 0 && Above(node, start) && Locates(locator, done, start)
    ensures Locates(locator + [node.hash], done + [node.height], start)
  {
    AboveAt(node, start);
    hide Path;
  }

  lemma ScanStep(locator: seq<Hash>, done: seq<nat>, node: Node, step: int, start: Node, r: Node)
    requires Scan(locator, done, node, step, start) && node.height > 0
    requires Proper(r) && Above(r, start) && r.height == Clamp(node.height - step)
    ensures Scan(locator + [node.hash], done + [node.height], r, if |locator| + 1 > 10 then step * 2 else step, start)
  {
    hide HeightsFrom, Locates, Heights, Proper, Above;
    MoreLocated(locator, done, node, start);
    var rest := HeightsFrom(Clamp(node.height - step), |locator| + 1, if |locator| + 1 > 10 then 2 * step else step);
    HeightsUnfold(node.height, |locator|, step);
    assert done + [node.height] + rest == done + ([node.height] + rest);
  }

  lemma HeightsUnfold(h: nat, n: nat, step: nat)
    requires step > 0 && h > 0
    ensures HeightsFrom(h, n, step) ==
            [h] + HeightsFrom(Clamp(h - step), n + 1, if n + 1 > 10 then 2 * step else step)
  {
  }

  /** The step back: through the view when it has the node, along the parents otherwise. */
  method Earlier(view: ChainView, node: Node, height: nat, ghost start: Node) returns (r: Node)
    requires view.Valid() && Proper(node) && height < node.height && Proper(start) && Above(node, start)
    ensures Proper(r) && r.height == height && Above(r, start)
  {
    PathAt(node, height);
    AboveAt(Path(node)[height], node);
    AboveTrans(Path(node)[height], node, start);
    if view.Contains(node) {
      view.ContainsMeaning(node);
      AboveAt(node, view.Tip().value);
      assert Path(node)[height] == Path(view.Tip().value)[height];
      r := view.nodes[height].value;
    } else {
      var a := Ancestor(node, height);
      r := a.value;
    }
  }

  // ------------------------------------------------------------------ answering a locator

  /** The first hash of the locator, from i on, that names a block of the view; its length if there is none. */
  ghost function FirstKnown(view: ChainView, index: map<Hash, Node>, locator: seq<Hash>, i: nat): (r: nat)
    requires i <= |locator|
    reads view
    ensures i <= r <= |locator|
    ensures r < |locator| ==> locator[r] in index && view.Contains(index[locator[r]])
    ensures forall k :: i <= k < r ==> !(locator[k] in index && view.Contains(index[locator[k]]))
    decreases |locator| - i
  {
    if i == |locator| || (locator[i] in index && view.Contains(index[locator[i]])) then i
    else FirstKnown(view, index, locator, i + 1)
  }

  ghost predicate InBoth(view: ChainView, index: map<Hash, Node>, hash: Hash)
    reads view
  {
    hash in index && view.Contains(index[hash])
  }

  ghost predicate IsFirst(view: ChainView, index: map<Hash, Node>, locator: seq<Hash>, k: int)
    reads view
  {
    && 0 <= k < |locator| && InBoth(view, index, locator[k])
    && forall j :: 0 <= j < k ==> !InBoth(view, index, locator[j])
  }

  /** The height of the latest block both sides are known to have, the root by default. */
  ghost function Known(view: ChainView, index: map<Hash, Node>, locator: seq<Hash>): (r: int)
    reads view
    ensures forall k :: IsFirst(view, index, locator, k) ==> r == index[locator[k]].height
    ensures (forall k :: 0 <= k < |locator| ==> !InBoth(view, index, locator[k])) ==> r == 0
  {
    var k := FirstKnown(view, index, locator, 0);
    if k < |locator| then index[locator[k]].height else 0
  }

  /** The height the answer runs to: that of the stop block if it lies ahead on the branch, else the tip. */
  ghost function Last(view: ChainView, index: map<Hash, Node>, hashStop: Hash, known: int): (r: int)
    reads view
    ensures InBoth(view, index, hashStop) && known < index[hashStop].height ==> r == index[hashStop].height
    ensures InBoth(view, index, hashStop) && index[hashStop].height <= known ==> r == view.Height()
    ensures !InBoth(view, index, hashStop) ==> r == view.Height()
  {
    if hashStop in index && view.Contains(index[hashStop]) && index[hashStop].height > known
    then index[hashStop].height else view.Height()
  }

  lemma KnownBounds(view: ChainView, index: map<Hash, Node>, locator: seq<Hash>)
    requires view.Valid() && view.Tip().Some?
    ensures 0 <= Known(view, index, locator) <= view.Height()
  {
  }

  /** locateInventory. */
  method LocateInventory(view: ChainView, index: map<Hash, Node>, locator: seq<Hash>, hashStop: Hash, maxEntries: nat)
    returns (start: Option<Node>, total: nat)
    requires view.Valid() && view.Tip().Some?
    ensures locator == [] ==> (start, total) == if hashStop in index then (Some(index[hashStop]), 1) else (None, 0)
    ensures locator != [] ==>
      var known := Known(view, index, locator);
      start == view.NodeByHeight(known + 1) && total == Min(Last(view, index, hashStop, known) - known, maxEntries)
  {
    if locator == [] {
      if hashStop !in index {
        return None, 0;
      }
      return Some(index[hashStop]), 1;
    }
    hide Path, Proper;
    PathAt(view.Tip().value, 0);
    var startNode := view.Genesis().value;
    var i := 0;
    while i < |locator|
      invariant 0 <= i <= |locator| && FirstKnown(view, index, locator, 0) == FirstKnown(view, index, locator, i)
      invariant startNode == view.Genesis().value
    {
      if locator[i] in index && view.Contains(index[locator[i]]) {
        startNode := index[locator[i]];
        break;
      }
      i := i + 1;
    }
    assert view.Contains(startNode);
    var known := startNode.height;
    start := view.Next(startNode);
    if start.None? {
      return None, 0;
    }
    PathAt(view.Tip().value, known + 1);
    PathAt(view.Tip().value, view.Height());
    total := view.Tip().value.height - start.value.height + 1;
    if hashStop in index && view.Contains(index[hashStop]) && index[hashStop].height >= start.value.height {
      total := index[hashStop].height - start.value.height + 1;
    }
    if total > maxEntries {
      total := maxEntries;
    }
  }

  /** hashes are those of the branch from height h on. */
  ghost predicate Follows(hashes: seq<Hash>, nodes: seq<Option<Node>>, h: int) {
    && 0 <= h && h + |hashes| <= |nodes|
    && forall i :: 0 <= i < |hashes| ==> nodes[h + i].Some? && hashes[i] == nodes[h + i].value.hash
  }

  /** The loop of locateBlocks: total hashes from node on, or fewer when the branch ends. */
  method CollectHashes(view: ChainView, node0: Node, total: nat) returns (hashes: seq<Hash>)
    requires view.Valid()
    ensures total == 0 ==> hashes == []
    ensures total > 0 && !view.Contains(node0) ==> hashes == [node0.hash]
    ensures total > 0 && view.Contains(node0) ==>
      Follows(hashes, view.nodes, node0.height) && |hashes| == Min(total, |view.nodes| - node0.height)
  {
    hashes := [];
    var node := node0;
    for i := 0 to total
      invariant |hashes| == i
      invariant i == 0 ==> node == node0
      invariant i > 0 ==> view.Contains(node0) && view.Contains(node) && node.height == node0.height + i
      invariant view.Contains(node0) ==> Follows(hashes, view.nodes, node0.height)
    {
      hashes := hashes + [node.hash];
      view.NextMeaning(node);
      var next := view.Next(node);
      if next.None? {
        if view.Contains(node) {
          LastOfView(view, node);
        }
        return;
      }
      OnView(view, next.value, node);
      node := next.value;
    }
  }

  lemma LastOfView(view: ChainView, node: Node)
    requires view.Valid() && view.Next(node).None? && view.Contains(node)
    ensures node.height == |view.nodes| - 1
  {
    view.NextMeaning(node);
    PathAt(view.Tip().value, node.height);
  }

  lemma OnView(view: ChainView, next: Node, node: Node)
    requires view.Valid() && view.Next(node) == Some(next)
    ensures view.Contains(node) && view.Contains(next) && next.height == node.height + 1
  {
    view.NextMeaning(node);
    PathAt(view.Tip().value, node.height + 1);
  }

  /** locateBlocks. */
  method LocateBlocks(view: ChainView, index: map<Hash, Node>, locator: seq<Hash>, hashStop: Hash, maxHashes: nat)
    returns (hashes: seq<Hash>)
    requires view.Valid() && view.Tip().Some? && (forall h :: h in index ==> index[h].hash == h)
    ensures locator == [] ==> hashes == if hashStop in index then [hashStop] else []
    ensures locator != [] ==>
      var known := Known(view, index, locator);
      |hashes| == Min(Last(view, index, hashStop, known) - known, maxHashes) && Follows(hashes, view.nodes, known + 1)
  {
    hide *;
    var start, total := LocateInventory(view, index, locator, hashStop, maxHashes);
    if locator != [] {
      AnswerStart(view, index, locator, hashStop, maxHashes);
    }
    if total == 0 {
      hashes := [];
      FollowsNone(view, index, locator);
    } else {
      hashes := CollectHashes(view, start.value, total);
      if locator == [] {
        OneHash(view, start.value, hashes);
      }
    }
  }

  lemma FollowsNone(view: ChainView, index: map<Hash, Node>, locator: seq<Hash>)
    requires view.Valid() && view.Tip().Some?
    ensures Follows([], view.nodes, Known(view, index, locator) + 1)
  {
    KnownBounds(view, index, locator);
  }

  lemma AnswerStart(view: ChainView, index: map<Hash, Node>, locator: seq<Hash>, hashStop: Hash, max: nat)
    requires view.Valid() && view.Tip().Some?
    ensures var known := Known(view, index, locator);
            var count := Min(Last(view, index, hashStop, known) - known, max);
            && 0 <= count && known + count < |view.nodes|
            && (count > 0 ==>
                  && view.NodeByHeight(known + 1).Some? && view.Contains(view.NodeByHeight(known + 1).value)
                  && view.NodeByHeight(known + 1).value.height == known + 1
                  && Min(count, |view.nodes| - (known + 1)) == count)
  {
    hide Path, Proper, Known, FirstKnown;
    KnownBounds(view, index, locator);
    var known := Known(view, index, locator);
    if known < view.Height() {
      PathAt(view.Tip().value, known + 1);
    }
  }

  lemma OneHash(view: ChainView, node: Node, hashes: seq<Hash>)
    requires !view.Contains(node) ==> hashes == [node.hash]
    requires view.Contains(node) ==>
      Follows(hashes, view.nodes, node.height) && |hashes| == Min(1, |view.nodes| - node.height)
    ensures hashes == [node.hash]
  {
  }

  /** The peer's index knows its own branch, and knows blocks of the other branch only as what they are. */
  ghost predicate Consistent(view: ChainView, index: map<Hash, Node>, n: Node)
    reads view
  {
    && (forall m :: view.Contains(m) ==> m.hash in index && index[m.hash] == m)
    && (forall m :: Above(m, n) && m.hash in index ==> index[m.hash] == m)
  }

  /** f is where the branch of n leaves the view. */
  ghost predicate ForksAt(view: ChainView, n: Node, f: int)
    reads view
  {
    && 0 <= f < |Path(n)| && view.Contains(Path(n)[f])
    && forall g :: f < g < |Path(n)| ==> !view.Contains(Path(n)[g])
  }

  /** Entry i of the locator is known to the peer exactly when it is not above the fork. */
  lemma KnownEntry(view: ChainView, index: map<Hash, Node>, n: Node, f: int, h: int)
    requires view.Valid() && Proper(n) && Consistent(view, index, n) && ForksAt(view, n, f) && 0 <= h < |Path(n)|
    ensures var x := Path(n)[h];
            (x.hash in index && view.Contains(index[x.hash]) <==> h <= f) && (h <= f ==> index[x.hash] == x)
  {
    var x := Path(n)[h];
    PathAt(n, h);
    PathAt(n, f);
    AboveAt(x, n);
    if h <= f {
      var y := Path(n)[f];
      assert Path(y)[h] == x;
      AboveAt(x, y);
      assert Above(x, y);
      view.ContainsMeaning(y);
      AboveTrans(x, y, view.Tip().value);
      view.ContainsMeaning(x);
    }
  }

  /**
   Synchronisation: a peer whose branch forks from that of n at height f starts its answer to n's locator
   at most one above f, and repeats at most as many shared blocks as n is above the fork.
   */
  lemma AnswerBound(view: ChainView, index: map<Hash, Node>, n: Node, locator: seq<Hash>, f: int)
    requires view.Valid() && Proper(n) && n.height >= 0 && Locates(locator, Heights(n.height), n)
    requires Consistent(view, index, n) && ForksAt(view, n, f)
    ensures 0 <= Known(view, index, locator) <= f
    ensures f - Known(view, index, locator) <= n.height - f
  {
    hide Heights, Path, Proper;
    var h, hs, k := n.height, Heights(n.height), FirstKnown(view, index, locator, 0);
    PathAt(n, h);
    LocatorEnds(h);
    KnownEntry(view, index, n, f, hs[|hs| - 1]);
    assert k < |locator|;
    KnownEntry(view, index, n, f, hs[k]);
    PathAt(n, hs[k]);
    if k > 0 {
      KnownEntry(view, index, n, f, hs[k - 1]);
      Gap(h, k - 1, f);
    }
  }
}
