/**
 The best chain and the stored set of unspent outputs together (blockchain/chain.go): every block that
 leaves the best chain is disconnected from its journal entry, and every block that joins it is connected,
 so that the stored set is always the one the blocks on the path to the tip make.
 */
module ChainState {
  import opened Common
  import opened BlockTree
  import opened Ledger
  import opened BlockOrder
  import opened UtxoView
  import opened Connecting
  import opened Disconnecting
  import opened Supply
  import BestChain
  import C = Conservation

  type Node = BlockTree.Node

  /** The transactions of a block with those its contract calls cause. */
  type Body = Node -> StoredBlock

  ghost predicate Filled(body: Body) {
    forall n :: |body(n).txs| > 0
  }

  /** The stored set of the branch that ends in n. */
  ghost function StoredAt(n: Node, base: Coins, body: Body): Coins
    requires Filled(body)
  {
    match n.parent
    case None => base
    case Some(p) => Connected(StoredAt(p, base, body), body(n).txs, body(n).vtxs, n.height)
  }

  /** The blocks of a branch above the genesis block. */
  ghost function Bodies(n: Node, body: Body): seq<StoredBlock> {
    match n.parent
    case None => []
    case Some(p) => Bodies(p, body) + [body(n)]
  }

  /** The stored set of a branch is what connecting its blocks one by one gives. */
  lemma {:induction false} StoredIs(n: Node, base: Coins, body: Body)
    requires Proper(n) && Filled(body)
    ensures |Bodies(n, body)| == n.height && HaveTxs(Bodies(n, body))
    ensures StoredAt(n, base, body) == Supply.Stored(base, Bodies(n, body))
    decreases n
  {
    hide Connected;
    if n.parent.Some? {
      var p := n.parent.value;
      StoredIs(p, base, body);
      var all, init := Bodies(n, body), Bodies(p, body);
      assert all[..|all| - 1] == init;
    }
  }

  /** A block can be connected where it stands. */
  ghost predicate Fits(n: Node, base: Coins, body: Body)
    requires Filled(body)
  {
    n.parent.Some? ==> Connectable(StoredAt(n.parent.value, base, body), body(n).txs, body(n).vtxs, n.height)
  }

  ghost predicate BranchFits(tip: Node, base: Coins, body: Body)
    requires Filled(body)
  {
    forall n :: Above(n, tip) ==> Fits(n, base, body)
  }

  /** What the journal must hold of a block. */
  ghost predicate Entered(n: Node, journals: map<BlockTree.Hash, seq<Coin>>, base: Coins, body: Body)
    requires Filled(body)
  {
    n.parent.Some? ==>
      var txs, vtxs := body(n).txs, body(n).vtxs;
      && Fits(n, base, body) && n.hash in journals
      && journals[n.hash] == Journal(StoredAt(n.parent.value, base, body), ConnectOrder(txs, vtxs, 0, 0),
                                     txs[|txs| - 1], n.height)
  }

  ghost predicate Journaled(tip: Node, journals: map<BlockTree.Hash, seq<Coin>>, base: Coins, body: Body)
    requires Filled(body)
  {
    forall n :: Above(n, tip) ==> Entered(n, journals, base, body)
  }

  /** Nodes of the branch that have one hash are one node. */
  ghost predicate HashesDiffer(tip: Node) {
    forall m, n :: Above(m, tip) && Above(n, tip) && m.hash == n.hash ==> m == n
  }

  ghost predicate Checked(a: BestChain.Arrival, n: Node) { a.verdict(n).Pass? || a.replays(n) }

  /**
   Validation means something: a block that passes, or that replays, can be connected to the stored set of
   its parent, if that is made by blocks that could be connected.
   */
  ghost predicate Trusted(a: BestChain.Arrival, base: Coins, body: Body)
    requires Filled(body)
  {
    forall n :: Proper(n) && n.parent.Some? && BranchFits(n.parent.value, base, body) && Checked(a, n) ==>
      Fits(n, base, body)
  }

  lemma BranchFitsParent(n: Node, base: Coins, body: Body)
    requires Proper(n) && n.parent.Some? && Filled(body)
    ensures BranchFits(n, base, body) <==> BranchFits(n.parent.value, base, body) && Fits(n, base, body)
  {
    hide Fits, Above;
    AboveParent(n);
  }

  lemma {:induction false} AttachedFits(n: Node, tip: Node, node: Node, a: BestChain.Arrival, base: Coins, body: Body)
    requires Filled(body) && Proper(tip) && Proper(node) && Above(n, node) && BestChain.Attached(a, tip, node)
    requires Trusted(a, base, body) && BranchFits(tip, base, body) && Path(tip)[0] == Path(node)[0]
    ensures BranchFits(n, base, body)
    decreases n
  {
    hide Fits, Path;
    AboveAt(n, node);
    if Above(n, tip) {
      Prefix(n, tip, base, body);
    } else {
      NotRoot(n, tip, node);
      var p := n.parent.value;
      AboveParent(n);
      AboveTrans(p, n, node);
      AttachedFits(p, tip, node, a, base, body);
      BranchFitsParent(n, base, body);
    }
  }

  lemma Prefix(n: Node, tip: Node, base: Coins, body: Body)
    requires Filled(body) && Proper(tip) && Above(n, tip) && BranchFits(tip, base, body)
    ensures BranchFits(n, base, body)
  {
    hide Fits, Above;
    forall m | Above(m, n)
      ensures Fits(m, base, body)
    {
      AboveTrans(m, n, tip);
    }
  }

  lemma NotRoot(n: Node, tip: Node, node: Node)
    requires Proper(tip) && Proper(node) && Above(n, node) && !Above(n, tip) && Path(tip)[0] == Path(node)[0]
    ensures n.parent.Some?
  {
    RootAbove(n, node);
    RootAbove(n, tip);
  }

  lemma RootAbove(n: Node, node: Node)
    requires Proper(node)
    ensures Above(n, node) && n.parent.None? ==> n == Path(node)[0]
    ensures Above(Path(node)[0], node)
  {
    AboveAt(n, node);
    assert Path(node)[0] in Path(node);
  }

  class State {
    const chain: BestChain.BlockChain
    const body: Body
    ghost const base: Coins
    var db: Coins
    var journals: map<BlockTree.Hash, seq<Coin>>

    /** The stored set and the journal are those of the branch that ends in tip. */
    ghost predicate Follows(tip: Node)
      reads this
    {
      && Filled(body) && Proper(tip) && BranchFits(tip, base, body) && Journaled(tip, journals, base, body)
      && db == StoredAt(tip, base, body)
    }

    ghost predicate Valid()
      reads this, chain, chain.bestChain
    {
      chain.Valid() && Follows(chain.Tip())
    }

    constructor (c: BestChain.BlockChain, coins: Coins, contents: Body)
      requires c.Valid() && c.Tip().parent.None? && Filled(contents)
      ensures Valid() && chain == c && base == coins && body == contents
    {
      chain, base, body, db, journals := c, coins, contents, coins, map[];
      new;
      c.Parts();
      assert Path(c.Tip()) == [c.Tip()];
    }

    /** connectBlock for a child of the tip. */
    method Attach(view: UtxoViewpoint, n: Node)
      requires n.parent.Some? && Follows(n.parent.value) && Proper(n) && Fits(n, base, body) && HashesDiffer(n)
      requires Synced(view.entries, db)
      modifies `db, `journals, view
      ensures Follows(n) && Synced(view.entries, db)
    {
      hide Connectable, Synced, Connected, Journal, ConnectOrder, Above, Proper, Path;
      ghost var p, before := n.parent.value, journals;
      var b := body(n);
      var ok, stxos;
      ok, db, stxos := ConnectBlock(view, db, b.txs, b.vtxs, n.height);
      journals := journals[n.hash := stxos];
      EnteredNext(n, before, journals, base, body);
      BranchFitsParent(n, base, body);
    }

    /** disconnectBlock for the tip. */
    method Detach(view: UtxoViewpoint, n: Node)
      requires n.parent.Some? && Follows(n) && HashesDiffer(n) && Synced(view.entries, db)
      modifies `db, `journals, view
      ensures Follows(n.parent.value) && Synced(view.entries, db)
    {
      hide Connectable, Synced, Connected, Journal, ConnectOrder, Above, Proper, Path;
      ghost var p, before := n.parent.value, journals;
      TipEntered(n, journals, base, body);
      var b := body(n);
      var ok;
      ok, db := DisconnectBlock(view, db, b.txs, b.vtxs, n.height, journals[n.hash], StoredAt(p, base, body));
      journals := journals - {n.hash};
      EnteredBefore(n, before, journals, base, body);
      BranchFitsParent(n, base, body);
      ParentProper(n);
    }

    /** The second pass of reorganizeChain, and the connection of a block that extends the tip. */
    method Move(tip: Node, node: Node)
      requires Follows(tip) && Proper(node) && BranchFits(node, base, body) && Path(tip)[0] == Path(node)[0]
      requires HashesDiffer(tip) && HashesDiffer(node)
      modifies `db, `journals
      ensures Follows(node)
    {
      hide *;
      var view := new UtxoViewpoint();
      EmptyView(view.entries, db);
      var n := tip;
      FollowsParts(tip);
      AboveSelf(tip);
      var at := Ancestor(node, n.height);
      while at != Some(n)
        invariant Proper(n) && Follows(n) && Above(n, tip) && Synced(view.entries, db)
        invariant at == if 0 <= n.height < |Path(node)| then Some(Path(node)[n.height]) else None
        decreases n
      {
        StepBack(n, tip, node);
        Detach(view, n);
        n := n.parent.value;
        at := Ancestor(node, n.height);
      }
      OnBranch(n, node);
      while n != node
        invariant Proper(n) && Follows(n) && Above(n, node) && Synced(view.entries, db)
        decreases node.height - n.height
      {
        StepOn(n, node);
        var next := Ancestor(node, n.height + 1);
        FitsOn(next.value, node, base, body);
        Attach(view, next.value);
        n := next.value;
      }
    }

    /** A block arrives: if the best chain moves, the stored set moves with it. */
    method Accept(a: BestChain.Arrival) returns (main: bool, ok: bool)
      requires Valid() && a.hash !in chain.index && 0 <= a.weight <= MAX_HEADER_WEIGHT && Trusted(a, base, body)
      modifies this, chain, chain.bestChain
      ensures Valid() && BestChain.Stepped(chain.emptyRound, old(chain.Now()), a, chain.Now())
    {
      hide *;
      ValidParts();
      chain.Parts();
      var tip := chain.bestChain.Tip().value;
      main, ok := chain.MaybeAcceptBlock(a);
      chain.Parts();
      var node := chain.bestChain.Tip().value;
      SameBranch(chain.index, chain.status, tip);
      SameBranch(chain.index, chain.status, node);
      AboveSelf(node);
      AttachedFits(node, tip, node, a, base, body);
      Move(tip, node);
      FollowsValid();
    }

    /** A block that is already known changes nothing. */
    method Process(a: BestChain.Arrival)
      requires Valid() && 0 <= a.weight <= MAX_HEADER_WEIGHT && Trusted(a, base, body)
      modifies this, chain, chain.bestChain
      ensures Valid() && chain.bestChain.Tip().Some?
      ensures BestChain.Processed(chain.emptyRound, old(chain.Now()), a, chain.Now())
    {
      hide *;
      ValidParts();
      chain.Parts();
      chain.NowIs();
      if a.hash !in chain.index {
        var main, ok := Accept(a);
        ValidParts();
        chain.Parts();
      }
      OneArrival(chain.emptyRound, old(chain.Now()), a, chain.Now());
    }

    lemma ValidParts()
      requires Valid()
      ensures chain.Valid() && Follows(chain.Tip()) && Filled(body) && BranchFits(chain.Tip(), base, body)
    {
    }

    lemma FollowsParts(tip: Node)
      requires Follows(tip)
      ensures Filled(body) && Proper(tip) && BranchFits(tip, base, body) && db == StoredAt(tip, base, body)
    {
    }

    lemma FollowsValid()
      requires chain.Valid() && Follows(chain.Tip())
      ensures Valid()
    {
    }
  }

  lemma SameBranch(index: map<BlockTree.Hash, Node>, status: BestChain.Statuses, tip: Node)
    requires BestChain.IndexOk(index, status) && BestChain.Known(index, tip)
    ensures HashesDiffer(tip)
  {
    forall m, n | Above(m, tip) && Above(n, tip) && m.hash == n.hash
      ensures m == n
    {
      BestChain.AncestorsKnown(index, status, m, tip);
      BestChain.AncestorsKnown(index, status, n, tip);
    }
  }

  lemma EmptyView(e: Entries, db: Coins)
    requires e == map[]
    ensures Synced(e, db)
  {
  }

  lemma TipEntered(n: Node, journals: map<BlockTree.Hash, seq<Coin>>, base: Coins, body: Body)
    requires Filled(body) && Journaled(n, journals, base, body)
    ensures Entered(n, journals, base, body)
  {
    AboveSelf(n);
  }

  lemma EnteredNext(n: Node, before: map<BlockTree.Hash, seq<Coin>>, after: map<BlockTree.Hash, seq<Coin>>,
                    base: Coins, body: Body)
    requires Filled(body) && Proper(n) && n.parent.Some? && HashesDiffer(n)
    requires Journaled(n.parent.value, before, base, body) && Entered(n, after, base, body)
    requires forall h :: h in before && h != n.hash ==> h in after && after[h] == before[h]
    ensures Journaled(n, after, base, body)
  {
    hide Fits, Above, Journal, ConnectOrder;
    AboveParent(n);
    AboveSelf(n);
    forall m | Above(m, n)
      ensures Entered(m, after, base, body)
    {
      if m != n {
        assert Entered(m, before, base, body);
        assert m.hash != n.hash;
      }
    }
  }

  lemma EnteredBefore(n: Node, before: map<BlockTree.Hash, seq<Coin>>, after: map<BlockTree.Hash, seq<Coin>>,
                      base: Coins, body: Body)
    requires Filled(body) && Proper(n) && n.parent.Some? && HashesDiffer(n) && Journaled(n, before, base, body)
    requires forall h :: h in before && h != n.hash ==> h in after && after[h] == before[h]
    ensures Journaled(n.parent.value, after, base, body)
  {
    hide Fits, Above, Journal, ConnectOrder;
    var p := n.parent.value;
    AboveParent(n);
    AboveSelf(n);
    forall m | Above(m, p)
      ensures Entered(m, after, base, body)
    {
      assert Entered(m, before, base, body);
      NotBelow(m, n);
      assert m.hash != n.hash;
    }
  }

  lemma NotBelow(m: Node, n: Node)
    requires Proper(n) && n.parent.Some? && Above(m, n.parent.value)
    ensures m != n
  {
    AboveAt(m, n.parent.value);
  }

  lemma ParentProper(n: Node)
    requires Proper(n) && n.parent.Some?
    ensures Proper(n.parent.value) && n.height == n.parent.value.height + 1
  {
  }

  lemma {:induction false} DifferAbove(n: Node, tip: Node)
    requires Proper(tip) && Above(n, tip) && HashesDiffer(tip)
    ensures HashesDiffer(n)
  {
    hide Above;
    forall a, b | Above(a, n) && Above(b, n) && a.hash == b.hash
      ensures a == b
    {
      AboveTrans(a, n, tip);
      AboveTrans(b, n, tip);
    }
  }

  /** A node that is not on the other branch has a parent, towards the root. */
  lemma StepBack(n: Node, tip: Node, node: Node)
    requires Proper(tip) && Proper(node) && Proper(n) && Above(n, tip) && Path(tip)[0] == Path(node)[0]
    requires HashesDiffer(tip)
    requires Some(n) != if 0 <= n.height < |Path(node)| then Some(Path(node)[n.height]) else None
    ensures n.parent.Some? && Proper(n.parent.value) && Above(n.parent.value, tip) && HashesDiffer(n)
  {
    AboveAt(n, tip);
    DifferAbove(n, tip);
    RootAbove(n, tip);
    RootAbove(n, node);
    AboveAt(n, node);
    if n.parent.Some? {
      AboveParent(n);
      AboveTrans(n.parent.value, n, tip);
    }
  }

  lemma OnBranch(n: Node, node: Node)
    requires Proper(node) && 0 <= n.height < |Path(node)| && Path(node)[n.height] == n
    ensures Above(n, node)
  {
  }

  lemma StepOn(n: Node, node: Node)
    requires Proper(node) && Above(n, node) && n != node && HashesDiffer(node)
    ensures 0 <= n.height + 1 < |Path(node)| && n.height < node.height
    ensures var next := Path(node)[n.height + 1];
            && next.parent == Some(n) && Proper(next) && Above(next, node) && HashesDiffer(next)
            && next.height == n.height + 1
  {
    AboveAt(n, node);
    AboveAt(node, node);
    PathAt(node, node.height);
    PathAt(node, n.height);
    PathAt(node, n.height + 1);
    var next := Path(node)[n.height + 1];
    DifferAbove(next, node);
    assert Path(next) == Path(next.parent.value) + [next];
    assert Path(next)[..n.height + 1] == Path(n);
  }

  lemma FitsOn(n: Node, node: Node, base: Coins, body: Body)
    requires Filled(body) && BranchFits(node, base, body) && Above(n, node)
    ensures Fits(n, base, body)
  {
  }

  /**
   Every run: after any blocks, the stored set is what connecting the blocks on the path to the tip, one by
   one, makes of the coins at the start.
   */
  method Run(s: State, arrivals: seq<BestChain.Arrival>) returns (ghost trace: seq<BestChain.Snapshot>)
    requires s.Valid() && forall i :: 0 <= i < |arrivals| ==>
      0 <= arrivals[i].weight <= MAX_HEADER_WEIGHT && Trusted(arrivals[i], s.base, s.body)
    modifies s, s.chain, s.chain.bestChain
    ensures s.Valid() && HaveTxs(Bodies(s.chain.Tip(), s.body))
    ensures s.db == Supply.Stored(s.base, Bodies(s.chain.Tip(), s.body))
    ensures BestChain.IsRun(s.chain.emptyRound, trace, arrivals)
    ensures trace[0] == old(s.chain.Now()) && trace[|arrivals|] == s.chain.Now()
  {
    hide *;
    s.ValidParts();
    s.chain.Parts();
    trace := [s.chain.Now()];
    assert arrivals[..0] == [];
    RunStart(s.chain.emptyRound, s.chain.Now());
    for i := 0 to |arrivals|
      invariant s.Valid() && s.chain.bestChain.Tip().Some? && |trace| == i + 1 && trace[0] == old(s.chain.Now())
      invariant trace[i] == s.chain.Now() && BestChain.IsRun(s.chain.emptyRound, trace, arrivals[..i])
    {
      s.Process(arrivals[i]);
      assert arrivals[..i + 1] == arrivals[..i] + [arrivals[i]];
      RunOn(s.chain.emptyRound, trace, arrivals[..i], arrivals[i], s.chain.Now());
      trace := trace + [s.chain.Now()];
    }
    assert arrivals[..|arrivals|] == arrivals;
    s.ValidParts();
    s.chain.Parts();
    s.FollowsParts(s.chain.Tip());
    StoredIs(s.chain.Tip(), s.base, s.body);
  }

  lemma RunStart(emptyRound: bool, s: BestChain.Snapshot)
    ensures BestChain.IsRun(emptyRound, [s], [])
  {
  }

  lemma RunOn(emptyRound: bool, trace: seq<BestChain.Snapshot>, arrivals: seq<BestChain.Arrival>,
              a: BestChain.Arrival, s: BestChain.Snapshot)
    requires BestChain.IsRun(emptyRound, trace, arrivals)
    requires BestChain.Processed(emptyRound, trace[|arrivals|], a, s)
    ensures BestChain.IsRun(emptyRound, trace + [s], arrivals + [a])
  {
    hide BestChain.Processed;
  }

  lemma OneArrival(emptyRound: bool, before: BestChain.Snapshot, a: BestChain.Arrival, after: BestChain.Snapshot)
    requires if a.hash in before.index then after == before else BestChain.Stepped(emptyRound, before, a, after)
    ensures BestChain.Processed(emptyRound, before, a, after)
  {
  }

  /** So what circulates at any time is bounded by the subsidies of the best chain. */
  lemma CirculatingAtTip(s: State, f: Reader, interval: nat, maturity: int, a: Asset)
    requires s.Valid() && HaveTxs(Bodies(s.chain.Tip(), s.body)) && Reads(f) && !C.IsIndivisible(a)
    requires Checks(s.base, Bodies(s.chain.Tip(), s.body), f, interval, maturity)
    ensures Circulating(s.db, a) <= Most(s.base, Bodies(s.chain.Tip(), s.body), interval, a)
  {
    s.chain.Parts();
    StoredIs(s.chain.Tip(), s.base, s.body);
    ChainWorth(s.base, Bodies(s.chain.Tip(), s.body), f, interval, maturity, a);
  }
}
