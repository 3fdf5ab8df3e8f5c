/**
 The tree of block nodes (blockNode in blockchain/blockindex.go): every node knows its parent, and the
 path from the root to a node is what a chain is.
 */
module BlockTree {
  import opened Common

  type Hash = int

  /** The immutable part of a block node. */
  datatype Node = Node(parent: Option<Node>, hash: Hash, height: int, weight: int, round: int, slot: int, time: int)

  const MAX_HEADER_WEIGHT: int := 0xffff

  /** A node as initBlockNode builds it: height and weight add up along the parents. */
  ghost predicate Proper(n: Node) {
    match n.parent
    case None => n.height == 0 && 0 <= n.weight <= MAX_HEADER_WEIGHT
    case Some(p) => Proper(p) && n.height == p.height + 1 && 0 <= n.weight - p.weight <= MAX_HEADER_WEIGHT
  }

  /** initBlockNode. */
  function NewNode(parent: Option<Node>, hash: Hash, headerWeight: int, round: int, slot: int, time: int): Node {
    match parent
    case None => Node(None, hash, 0, headerWeight, round, slot, time)
    case Some(p) => Node(parent, hash, p.height + 1, headerWeight + p.weight, round, slot, time)
  }

  /** The nodes from the root to n. */
  function Path(n: Node): (r: seq<Node>)
    ensures |r| > 0 && r[|r| - 1] == n
  {
    match n.parent
    case None => [n]
    case Some(p) => Path(p) + [n]
  }

  /** a is n or one of its ancestors. */
  ghost predicate Above(a: Node, n: Node) {
    a in Path(n)
  }

  ghost predicate ProperAbove(a: Node, n: Node) {
    n.parent.Some? && Above(a, n.parent.value)
  }

  /** The node at height h of the path is the path's node number h, and a path leads to each of its nodes. */
  lemma {:induction false} PathAt(n: Node, h: int)
    requires Proper(n)
    ensures |Path(n)| == n.height + 1
    ensures 0 <= h <= n.height ==>
              Path(n)[h].height == h && Proper(Path(n)[h]) && Path(Path(n)[h]) == Path(n)[..h + 1]
    decreases n
  {
    match n.parent {
      case None =>
        assert Path(n)[..1] == Path(n);
      case Some(p) =>
        PathAt(p, h);
        PathAt(p, p.height);
        if h == n.height {
          assert Path(n)[..h + 1] == Path(n);
        } else if 0 <= h <= p.height {
          assert Path(n)[..h + 1] == Path(p)[..h + 1];
        }
    }
  }

  lemma AboveAt(a: Node, n: Node)
    requires Proper(n)
    ensures Above(a, n) <==> 0 <= a.height <= n.height && |Path(n)| == n.height + 1 && Path(n)[a.height] == a
    ensures Above(a, n) ==> Proper(a) && Path(a) <= Path(n)
  {
    PathAt(n, a.height);
    if a in Path(n) {
      var k :| 0 <= k < |Path(n)| && Path(n)[k] == a;
      PathAt(n, k);
    }
  }

  lemma AboveTrans(a: Node, b: Node, c: Node)
    requires Proper(c) && Above(a, b) && Above(b, c)
    ensures Above(a, c)
  {
    AboveAt(b, c);
    var k :| 0 <= k < |Path(b)| && Path(b)[k] == a;
    assert Path(c)[k] == a;
  }

  /** Two nodes of one branch: the lower height is above the other. */
  lemma AboveEachOther(a: Node, b: Node, n: Node)
    requires Proper(n) && Above(a, n) && Above(b, n) && a.height <= b.height
    ensures Proper(b) && Above(a, b)
  {
    AboveAt(a, n);
    AboveAt(b, n);
    PathAt(b, b.height);
    hide Path, Proper;
    assert Path(b)[a.height] == Path(n)[a.height];
  }

  lemma AboveSelf(n: Node)
    ensures Above(n, n)
  {
    assert Path(n)[|Path(n)| - 1] == n;
  }

  lemma AboveParent(n: Node)
    requires Proper(n) && n.parent.Some?
    ensures Above(n.parent.value, n) && forall a :: Above(a, n) <==> a == n || Above(a, n.parent.value)
  {
    var p := n.parent.value;
    AboveSelf(p);
    forall a
      ensures Above(a, n) <==> a == n || Above(a, p)
    {
      assert Path(n) == Path(p) + [n];
    }
  }

  /** Total weight cannot outgrow its 64-bit field: heights are 32-bit and header weights 16-bit. */
  lemma {:induction false} WeightBound(n: Node)
    requires Proper(n)
    ensures 0 <= n.height && 0 <= n.weight <= MAX_HEADER_WEIGHT * (n.height + 1)
    ensures n.height < 0x8000_0000 ==> n.weight < 0x1_0000_0000_0000_0000
    decreases n
  {
    match n.parent {
      case None =>
      case Some(p) => WeightBound(p);
    }
  }

  lemma AboveParentOf(a: Node, n: Node)
    requires Above(a, n) && a != n
    ensures n.parent.Some? && Above(a, n.parent.value)
  {
  }

  /** Ancestor: the node of the path at a height, if there is one. */
  method Ancestor(node: Node, height: int) returns (r: Option<Node>)
    requires Proper(node)
    ensures r == if 0 <= height < |Path(node)| then Some(Path(node)[height]) else None
  {
    PathAt(node, height);
    if height < 0 || height > node.height {
      return None;
    }
    var n := Some(node);
    while n.Some? && n.value.height != height
      invariant n.Some? && Proper(n.value) && height <= n.value.height
      invariant |Path(n.value)| == n.value.height + 1 && Path(n.value)[height] == Path(node)[height]
      decreases n
    {
      var m := n.value;
      PathAt(m, height);
      PathAt(m.parent.value, height);
      assert Path(m)[height] == Path(m.parent.value)[height];
      n := m.parent;
    }
    r := n;
  }

  /** RelativeAncestor. */
  method RelativeAncestor(node: Node, distance: int) returns (r: Option<Node>)
    requires Proper(node)
    ensures r == if 0 <= distance <= node.height && |Path(node)| == node.height + 1
                 then Some(Path(node)[node.height - distance]) else None
  {
    PathAt(node, 0);
    r := Ancestor(node, node.height - distance);
  }
}
