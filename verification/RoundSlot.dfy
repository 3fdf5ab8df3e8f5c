/**
 Finding the best chain's block of a round and slot (blockchain/process.go): near the tip by walking
 back, further down by bisection over the heights. Both rely on round and slot not falling from parent to
 child. The header checks compare them (blockchain/validate.go:402-406), but not for a block that arrives
 before its parent, so a branch may be out of order.
 */
module RoundSlot {
  import opened Common
  import opened BlockTree
  import opened ChainView

  /** The node comes before the given round and slot. */
  predicate Before(n: Node, round: int, slot: int) {
    n.round < round || (n.round == round && n.slot < slot)
  }

  predicate Is(n: Node, round: int, slot: int) {
    n.round == round && n.slot == slot
  }

  // ------------------------------------------------------------------ order along a branch

  ghost predicate Rooted(n: Node) {
    Path(n)[0].round == 0 && Path(n)[0].slot == 0
  }

  /** The node comes after its parent. */
  ghost predicate Follows(n: Node) {
    n.parent.Some? ==> Before(n.parent.value, n.round, n.slot)
  }

  /** Round and slot grow along the branch from the zeros of the genesis block. */
  ghost predicate Ordered(n: Node) {
    match n.parent
    case None => n.round == 0 && n.slot == 0
    case Some(p) => Ordered(p) && Before(p, n.round, n.slot)
  }

  /** No block comes before its parent. */
  ghost predicate NeverFalls(n: Node) {
    match n.parent
    case None => true
    case Some(p) => NeverFalls(p) && !Before(n, p.round, p.slot)
  }

  lemma {:induction false} OrderedMeaning(n: Node)
    requires Proper(n)
    ensures Ordered(n) <==> Rooted(n) && forall m :: Above(m, n) ==> Follows(m)
    decreases n
  {
    match n.parent {
      case None =>
        assert Path(n) == [n];
      case Some(p) =>
        OrderedMeaning(p);
        AboveParent(n);
        AboveSelf(n);
        assert Path(n)[0] == Path(p)[0];
    }
  }

  /**
   When the tip of an ordered branch gives way to another node with the same root, that node's branch is
   ordered exactly if each block that was not on the branch before comes after its parent.
   */
  lemma OrderedAgain(tip: Node, node: Node)
    requires Proper(tip) && Proper(node) && Path(tip)[0] == Path(node)[0] && Ordered(tip)
    ensures Ordered(node) <==> forall n :: Above(n, node) && !Above(n, tip) ==> Follows(n)
  {
    OrderedMeaning(tip);
    OrderedMeaning(node);
  }

  lemma {:induction false} RisesAt(n: Node, i: int, j: int)
    requires Proper(n) && NeverFalls(n) && 0 <= i <= j <= n.height
    ensures |Path(n)| == n.height + 1 && !Before(Path(n)[j], Path(n)[i].round, Path(n)[i].slot)
    decreases n
  {
    PathAt(n, i);
    if i < j {
      var p := n.parent.value;
      PathAt(p, p.height);
      RisesAt(p, i, if j == n.height then p.height else j);
    }
  }

  lemma {:induction false} OrderedAt(n: Node, i: int, j: int)
    requires Proper(n) && Ordered(n) && 0 <= i < j <= n.height
    ensures |Path(n)| == n.height + 1 && Before(Path(n)[i], Path(n)[j].round, Path(n)[j].slot)
    decreases n
  {
    PathAt(n, i);
    var p := n.parent.value;
    PathAt(p, p.height);
    if j == n.height {
      if i < p.height {
        OrderedAt(p, i, p.height);
      }
    } else {
      OrderedAt(p, i, j);
    }
  }

  /** At most one block of a branch has a round and slot. */
  ghost predicate StampsDiffer(n: Node) {
    forall a, b :: Above(a, n) && Above(b, n) && Is(a, b.round, b.slot) ==> a == b
  }

  /** Blocks of a branch that never falls have different rounds and slots exactly if the branch is ordered. */
  lemma StampUnique(n: Node)
    requires Proper(n) && Rooted(n)
    ensures Ordered(n) <==> NeverFalls(n) && StampsDiffer(n)
  {
    OrderedMeaning(n);
    if Ordered(n) {
      forall a, b | Above(a, n) && Above(b, n) && Is(a, b.round, b.slot)
        ensures a == b
      {
        SameStamp(n, a, b);
      }
      OrderedRises(n);
    }
    if NeverFalls(n) && StampsDiffer(n) {
      forall m | Above(m, n) && m.parent.Some?
        ensures Follows(m)
      {
        ParentBefore(n, m);
      }
    }
  }

  lemma SameStamp(n: Node, a: Node, b: Node)
    requires Proper(n) && Ordered(n) && Above(a, n) && Above(b, n) && Is(a, b.round, b.slot)
    ensures a == b
  {
    AboveAt(a, n);
    AboveAt(b, n);
    if a.height < b.height {
      OrderedAt(n, a.height, b.height);
    } else if b.height < a.height {
      OrderedAt(n, b.height, a.height);
    }
  }

  lemma {:induction false} OrderedRises(n: Node)
    requires Ordered(n)
    ensures NeverFalls(n)
  {
    if n.parent.Some? {
      OrderedRises(n.parent.value);
    }
  }

  lemma ParentBefore(n: Node, m: Node)
    requires Proper(n) && NeverFalls(n) && StampsDiffer(n) && Above(m, n) && m.parent.Some?
    ensures Before(m.parent.value, m.round, m.slot)
  {
    var p := m.parent.value;
    AboveAt(m, n);
    AboveParent(m);
    AboveTrans(p, m, n);
    AboveAt(p, n);
    RisesAt(n, p.height, m.height);
    assert p != m;
  }

  // ------------------------------------------------------------------ the search

  /** Walking back until the round and slot are met or passed. */
  function WalkFrom(n: Node, round: int, slot: int): Option<Node> {
    if Before(n, round, slot) then None
    else if Is(n, round, slot) then Some(n)
    else
      match n.parent
      case None => None
      case Some(p) => WalkFrom(p, round, slot)
  }

  /** Bisection over the heights from (included) to end (excluded). */
  function Bisect(path: seq<Node>, from: nat, end: nat, round: int, slot: int): Option<Node>
    requires from <= end <= |path|
    decreases end - from
  {
    if from == end then None
    else
      var middle := (from + end) / 2;
      if Is(path[middle], round, slot) then Some(path[middle])
      else if Before(path[middle], round, slot) then Bisect(path, middle + 1, end, round, slot)
      else Bisect(path, from, middle, round, slot)
  }

  function Search(tip: Node, round: int, slot: int): Option<Node> {
    if Before(tip, round, slot) then None
    else if tip.round == round || tip.round == round + 1 then WalkFrom(tip, round, slot)
    else Bisect(Path(tip), 0, |Path(tip)| - 1, round, slot)
  }

  lemma {:induction false} WalkSound(n: Node, round: int, slot: int)
    requires Proper(n)
    ensures WalkFrom(n, round, slot).Some? ==>
      Above(WalkFrom(n, round, slot).value, n) && Is(WalkFrom(n, round, slot).value, round, slot)
    decreases n
  {
    AboveSelf(n);
    if n.parent.Some? {
      WalkSound(n.parent.value, round, slot);
      AboveParent(n);
    }
  }

  lemma {:induction false} BisectSound(path: seq<Node>, from: nat, end: nat, round: int, slot: int)
    requires from <= end <= |path|
    ensures var r := Bisect(path, from, end, round, slot); r.Some? ==> r.value in path && Is(r.value, round, slot)
    decreases end - from
  {
    if from < end {
      var middle := (from + end) / 2;
      BisectSound(path, middle + 1, end, round, slot);
      BisectSound(path, from, middle, round, slot);
    }
  }

  /** What is found is on the branch and has the round and slot. */
  lemma SearchSound(tip: Node, round: int, slot: int)
    requires Proper(tip)
    ensures var r := Search(tip, round, slot); r.Some? ==> Above(r.value, tip) && Is(r.value, round, slot)
  {
    WalkSound(tip, round, slot);
    BisectSound(Path(tip), 0, |Path(tip)| - 1, round, slot);
  }

  /** The node at height h of the branch has the round and slot. */
  ghost predicate Stamped(tip: Node, h: int, round: int, slot: int) {
    0 <= h < |Path(tip)| && Is(Path(tip)[h], round, slot)
  }

  lemma {:induction false} WalkComplete(n: Node, round: int, slot: int, h: int)
    requires Proper(n) && NeverFalls(n) && Stamped(n, h, round, slot)
    ensures WalkFrom(n, round, slot).Some?
    decreases n
  {
    PathAt(n, h);
    RisesAt(n, h, n.height);
    if h < n.height {
      var p := n.parent.value;
      PathAt(p, h);
      assert Path(p)[h] == Path(n)[h];
      WalkComplete(p, round, slot, h);
    }
  }

  lemma {:induction false} BisectComplete(tip: Node, from: nat, end: nat, round: int, slot: int, h: int)
    requires Proper(tip) && NeverFalls(tip) && from <= h < end <= |Path(tip)| && Stamped(tip, h, round, slot)
    ensures Bisect(Path(tip), from, end, round, slot).Some?
    decreases end - from
  {
    var middle := (from + end) / 2;
    PathAt(tip, h);
    if middle <= h {
      RisesAt(tip, middle, h);
      if middle < h {
        BisectComplete(tip, middle + 1, end, round, slot, h);
      }
    }
    if h < middle {
      RisesAt(tip, h, middle);
      BisectComplete(tip, from, middle, round, slot, h);
    }
  }

  /** On a branch that never falls, every block is found by its round and slot. */
  lemma SearchComplete(tip: Node, n: Node)
    requires Proper(tip) && NeverFalls(tip) && Above(n, tip)
    ensures Search(tip, n.round, n.slot).Some?
  {
    AboveAt(n, tip);
    RisesAt(tip, n.height, tip.height);
    PathAt(tip, tip.height);
    WalkComplete(tip, n.round, n.slot, n.height);
    if n.height < tip.height {
      BisectComplete(tip, 0, tip.height, n.round, n.slot, n.height);
    }
  }

  /** Every block of the branch is found by its round and slot. */
  ghost predicate Finds(tip: Node) {
    forall n :: Above(n, tip) ==> Search(tip, n.round, n.slot).Some?
  }

  /** While the branch grew, every block was found at every time, exactly if no block came before its parent. */
  lemma SearchExact(tip: Node)
    requires Proper(tip)
    ensures (forall t :: Above(t, tip) ==> Finds(t)) <==> NeverFalls(tip)
  {
    if NeverFalls(tip) {
      forall t, n | Above(t, tip) && Above(n, t)
        ensures Search(t, n.round, n.slot).Some?
      {
        RisesAbove(t, tip);
        AboveAt(t, tip);
        SearchComplete(t, n);
      }
    } else {
      var n := Fall(tip);
      AboveSelf(n);
      AboveAt(n, tip);
      AboveParent(n);
      var p := n.parent.value;
      assert Above(p, n) && Search(n, p.round, p.slot).None?;
    }
  }

  lemma {:induction false} RisesAbove(t: Node, tip: Node)
    requires Proper(tip) && NeverFalls(tip) && Above(t, tip)
    ensures NeverFalls(t)
    decreases tip
  {
    if t != tip {
      AboveParentOf(t, tip);
      RisesAbove(t, tip.parent.value);
    }
  }

  lemma {:induction false} Fall(tip: Node) returns (n: Node)
    requires Proper(tip) && !NeverFalls(tip)
    ensures Above(n, tip) && n.parent.Some? && Before(n, n.parent.value.round, n.parent.value.slot)
    decreases tip
  {
    var p := tip.parent.value;
    AboveSelf(tip);
    if NeverFalls(p) {
      n := tip;
    } else {
      n := Fall(p);
      AboveParent(tip);
    }
  }

  // ------------------------------------------------------------------ GetNodeByRoundSlot

  lemma {:induction false} RootOf(n: Node)
    requires Proper(n)
    ensures n.parent.None? ==> Path(n)[0] == n
    ensures n.parent.Some? ==> Path(n.parent.value)[0] == Path(n)[0]
  {
  }

  method WalkBack(c: ChainView, round: int, slot: int) returns (r: Option<Node>)
    requires c.Valid() && c.Tip().Some? && Rooted(c.Tip().value) && 0 <= round && 0 <= slot
    ensures r == WalkFrom(c.Tip().value, round, slot)
  {
    var node := c.Tip().value;
    while true
      invariant Proper(node) && Rooted(node)
      invariant WalkFrom(node, round, slot) == WalkFrom(c.Tip().value, round, slot)
      decreases node
    {
      if node.round < round {
        return None;
      }
      if node.round == round {
        if node.slot == slot {
          return Some(node);
        }
        if node.slot < slot {
          return None;
        }
      }
      RootOf(node);
      node := node.parent.value;
    }
  }

  /** The block found by the search; on a branch that never falls, none only if the branch has none. */
  method GetNodeByRoundSlot(c: ChainView, round: int, slot: int) returns (r: Option<Node>)
    requires c.Valid() && c.Tip().Some? && Rooted(c.Tip().value) && 0 <= round && 0 <= slot
    ensures r == Search(c.Tip().value, round, slot)
    ensures r.Some? ==> c.Contains(r.value) && Is(r.value, round, slot)
    ensures NeverFalls(c.Tip().value) && r.None? ==> forall n :: c.Contains(n) ==> !Is(n, round, slot)
  {
    var tip := c.Tip().value;
    Answers(c, round, slot);
    PathAt(tip, tip.height);
    if tip.round < round || (tip.round == round && tip.slot < slot) {
      return None;
    }
    if tip.round == round || tip.round == round + 1 {
      r := WalkBack(c, round, slot);
      return;
    }
    var from, end := 0, tip.height;
    while from < end
      invariant 0 <= from <= end <= tip.height
      invariant Bisect(Path(tip), from, end, round, slot) == Search(tip, round, slot)
    {
      var middle := (from + end) / 2;
      var node := c.NodeByHeight(middle).value;
      if node.round == round && node.slot == slot {
        return Some(node);
      }
      if node.round < round || (node.round == round && node.slot < slot) {
        from := middle + 1;
      } else {
        end := middle;
      }
    }
    r := None;
  }

  /** What the search means for the view. */
  lemma Answers(c: ChainView, round: int, slot: int)
    requires c.Valid() && c.Tip().Some?
    ensures var r := Search(c.Tip().value, round, slot);
            && (r.Some? ==> c.Contains(r.value) && Is(r.value, round, slot))
            && (NeverFalls(c.Tip().value) && r.None? ==> forall n :: c.Contains(n) ==> !Is(n, round, slot))
  {
    var tip := c.Tip().value;
    SearchSound(tip, round, slot);
    forall n
      ensures c.Contains(n) <==> Above(n, tip)
      ensures NeverFalls(tip) && Above(n, tip) && Is(n, round, slot) ==> Search(tip, round, slot).Some?
    {
      c.ContainsMeaning(n);
      if NeverFalls(tip) && Above(n, tip) {
        SearchComplete(tip, n);
      }
    }
  }
}
