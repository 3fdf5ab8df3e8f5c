/**
 The flat view of one branch of the block tree (blockchain/chainview.go).
 */
module ChainView {
  import opened Common
  import opened BlockTree

  /** nodes lists the path to tip, or nothing when there is no tip. */
  ghost predicate Flat(nodes: seq<Option<Node>>, tip: Option<Node>) {
    match tip
    case None => nodes == []
    case Some(t) => Proper(t) && |nodes| == |Path(t)| && forall i :: 0 <= i < |nodes| ==> nodes[i] == Some(Path(t)[i])
  }

  function Resize(nodes: seq<Option<Node>>, needed: nat): (r: seq<Option<Node>>)
    ensures |r| == needed && forall i :: 0 <= i < needed ==> r[i] == if i < |nodes| then nodes[i] else None
  {
    seq(needed, i requires 0 <= i => if i < |nodes| then nodes[i] else None)
  }

  /** What setTip's loop knows: above n the new path is in place, from n down the old entries. */
  ghost predicate Filled(nodes: seq<Option<Node>>, before: seq<Option<Node>>, node: Node, n: Option<Node>) {
    && Proper(node) && |nodes| == |Path(node)| == |before|
    && (n.Some? ==> 0 <= n.value.height < |nodes| && Path(node)[n.value.height] == n.value)
    && (forall i :: 0 <= i < |nodes| ==>
          nodes[i] == if n.Some? && i <= n.value.height then before[i] else Some(Path(node)[i]))
  }

  class ChainView {
    var nodes: seq<Option<Node>>

    ghost predicate Valid()
      reads this
    {
      Flat(nodes, Tip())
    }

    function Tip(): Option<Node>
      reads this
    {
      if nodes == [] then None else nodes[|nodes| - 1]
    }

    function Genesis(): Option<Node>
      reads this
    {
      if nodes == [] then None else nodes[0]
    }

    function Height(): int
      reads this
    {
      |nodes| - 1
    }

    function NodeByHeight(height: int): Option<Node>
      reads this
    {
      if height < 0 || height >= |nodes| then None else nodes[height]
    }

    predicate Contains(node: Node)
      reads this
    {
      NodeByHeight(node.height) == Some(node)
    }

    function Next(node: Node): Option<Node>
      reads this
    {
      if !Contains(node) then None else NodeByHeight(node.height + 1)
    }

    constructor ()
      ensures nodes == [] && Valid()
    {
      nodes := [];
    }

    /** setTip: whatever branch was shown before, the view becomes the path to the new tip. */
    method SetTip(node: Option<Node>)
      requires Valid() && (node.Some? ==> Proper(node.value))
      modifies this
      ensures Valid() && Tip() == node && Flat(nodes, node)
    {
      if node.None? {
        nodes := [];
        return;
      }
      ghost var was := nodes;
      ghost var oldTip := Tip();
      PathAt(node.value, node.value.height);
      nodes := Resize(nodes, node.value.height + 1);
      ghost var before := nodes;
      var n := node;
      while n.Some? && nodes[n.value.height] != n
        invariant Filled(nodes, before, node.value, n)
        decreases n
      {
        FilledNext(nodes, before, node.value, n.value);
        nodes := nodes[n.value.height := n];
        n := n.value.parent;
      }
      if n.Some? {
        Rejoined(was, oldTip, nodes, before, node.value, n.value);
      }
    }

    /** contains, exactly: membership in the branch. */
    lemma ContainsMeaning(node: Node)
      requires Valid()
      ensures Contains(node) <==> Tip().Some? && Above(node, Tip().value)
    {
      if Tip().Some? {
        AboveAt(node, Tip().value);
      }
    }

    /** next, exactly: the child of node on the branch, and none for the tip or a stranger. */
    lemma NextMeaning(node: Node)
      requires Valid()
      ensures Next(node).Some? <==> Contains(node) && Tip() != Some(node)
      ensures Next(node).Some? ==> Next(node).value.parent == Some(node) && Contains(Next(node).value)
    {
      if Tip().Some? {
        var t := Tip().value;
        PathAt(t, node.height);
        PathAt(t, node.height + 1);
        PathAt(t, t.height);
        if Contains(node) && node.height < t.height {
          ParentAt(t, node.height + 1);
        }
      }
    }

    /** findFork: the highest node that the branch of node shares with the view. */
    method FindFork(node: Option<Node>) returns (r: Option<Node>)
      requires Valid() && (node.Some? ==> Proper(node.value))
      ensures r.Some? ==> node.Some? && Above(r.value, node.value) && Contains(r.value)
      ensures r.Some? ==> forall g :: Above(g, node.value) && Contains(g) ==> Above(g, r.value)
      ensures r.None? ==> node.None? || forall g :: Above(g, node.value) ==> !Contains(g)
    {
      if node.None? {
        return None;
      }
      var chainHeight := Height();
      r := node;
      AboveSelf(node.value);
      PathAt(node.value, 0);
      if node.value.height > chainHeight {
        r := Ancestor(node.value, chainHeight);
        BelowTip(this, node.value, r);
      }
      while r.Some? && !Contains(r.value)
        invariant r.Some? ==> Proper(r.value) && Above(r.value, node.value)
        invariant forall g :: Above(g, node.value) && Contains(g) ==> r.Some? && Above(g, r.value)
        decreases r
      {
        StepUp(this, node.value, r.value);
        r := r.value.parent;
      }
    }
  }

  lemma ParentAt(t: Node, h: int)
    requires Proper(t) && 0 < h <= t.height && |Path(t)| == t.height + 1
    ensures Path(t)[h].parent == Some(Path(t)[h - 1])
  {
    PathAt(t, h);
    var m := Path(t)[h];
    assert Path(m) == Path(t)[..h + 1];
    assert Path(m)[h - 1] == Path(t)[h - 1];
  }

  lemma FilledNext(nodes: seq<Option<Node>>, before: seq<Option<Node>>, node: Node, n: Node)
    requires Filled(nodes, before, node, Some(n))
    ensures Filled(nodes[n.height := Some(n)], before, node, n.parent)
  {
    PathAt(node, n.height);
    if n.parent.Some? {
      ParentAt(node, n.height);
    }
  }

  /** Where the walk meets the old branch, everything below is already right. */
  lemma Rejoined(was: seq<Option<Node>>, oldTip: Option<Node>, nodes: seq<Option<Node>>, before: seq<Option<Node>>,
                 node: Node, n: Node)
    requires Flat(was, oldTip) && before == Resize(was, |before|) && Filled(nodes, before, node, Some(n))
    requires nodes[n.height] == Some(n)
    ensures Flat(nodes, Some(node))
  {
    var t := oldTip.value;
    SamePrefix(t, node, n);
    hide Path, Proper;
  }

  lemma SamePrefix(s: Node, t: Node, n: Node)
    requires Proper(s) && Proper(t) && 0 <= n.height < |Path(s)| && n.height < |Path(t)|
    requires Path(s)[n.height] == n == Path(t)[n.height]
    ensures forall i :: 0 <= i <= n.height ==> Path(s)[i] == Path(t)[i]
  {
    PathAt(s, n.height);
    PathAt(t, n.height);
    forall i | 0 <= i <= n.height
      ensures Path(s)[i] == Path(t)[i]
    {
      assert Path(s)[..n.height + 1][i] == Path(t)[..n.height + 1][i];
    }
  }

  /** Nothing above the view's height is shared with it. */
  lemma BelowTip(c: ChainView, node: Node, r: Option<Node>)
    requires c.Valid() && Proper(node) && node.height > c.Height() && |Path(node)| == node.height + 1
    requires r == if 0 <= c.Height() < |Path(node)| then Some(Path(node)[c.Height()]) else None
    ensures r.Some? ==> Proper(r.value) && Above(r.value, node)
    ensures forall g :: Above(g, node) && c.Contains(g) ==> r.Some? && Above(g, r.value)
  {
    var h := c.Height();
    PathAt(node, h);
    forall g | Above(g, node) && c.Contains(g)
      ensures r.Some? && Above(g, r.value)
    {
      AboveAt(g, node);
      assert Path(r.value)[g.height] == g;
    }
  }

  lemma StepUp(c: ChainView, node: Node, n: Node)
    requires Proper(node) && Proper(n) && Above(n, node) && !c.Contains(n)
    requires forall g :: Above(g, node) && c.Contains(g) ==> Above(g, n)
    ensures n.parent.Some? ==> Proper(n.parent.value) && Above(n.parent.value, node)
    ensures forall g :: Above(g, node) && c.Contains(g) ==> n.parent.Some? && Above(g, n.parent.value)
  {
    if n.parent.Some? {
      AboveParent(n);
      AboveTrans(n.parent.value, n, node);
    }
    forall g | Above(g, node) && c.Contains(g)
      ensures n.parent.Some? && Above(g, n.parent.value)
    {
      AboveParentOf(g, n);
    }
  }
}
