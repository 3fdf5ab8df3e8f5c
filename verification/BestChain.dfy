/**
 Best-chain selection (blockchain/chain.go, blockchain/accept.go): one step of the block-processing
 machine accepts a block and lets it extend the best chain, start a side chain, or cause a
 reorganisation. Block validation is an arbitrary oracle; storage does not fail.
 */
module BestChain {
  import opened Common
  import opened BlockTree
  import opened ChainView
  import opened RoundSlot

  /** The status flags of a block node that best-chain selection reads or sets. */
  datatype Status = Status(valid: bool, failed: bool, badAncestor: bool)

  predicate KnownInvalid(s: Status) { s.failed || s.badAncestor }

  /** What full validation of a block may say: a RuleError marks the block, any other error does not. */
  datatype Verdict = Pass | RuleError | OtherError

  /**
   A block arriving with everything the node cannot decide by itself: whether its round can be found,
   whether it fits its position, its validation verdicts,
   and which blocks have a stored virtual block that replays without error.
   */
  datatype Arrival = Arrival(hash: Hash, prev: Hash, weight: int, round: int, slot: int, time: int,
                             roundOk: bool, contextOk: bool, fastAdd: bool, hasVirtual: bool,
                             verdict: Node -> Verdict, stored: Node -> bool, replays: Node -> bool)

  /** The node of a block: its round is that of its header, or its parent's if the header names an earlier one. */
  function NodeOf(prev: Node, a: Arrival): Node {
    NewNode(Some(prev), a.hash, a.weight, if a.round < prev.round then prev.round else a.round, a.slot, a.time)
  }

  type Statuses = map<Hash, Status>

  ghost predicate IndexOk(index: map<Hash, Node>, status: Statuses) {
    && status.Keys == index.Keys
    && forall h :: h in index ==>
         && index[h].hash == h && Proper(index[h])
         && (index[h].parent.Some? ==>
               index[h].parent.value.hash in index && index[index[h].parent.value.hash] == index[h].parent.value)
  }

  /** An ancestor, not n itself, failed validation. */
  ghost predicate HasFailedAncestor(status: Statuses, n: Node) {
    exists a :: ProperAbove(a, n) && a.hash in status && status[a.hash].failed
  }

  /** Every node flagged for an invalid ancestor has one that failed validation. */
  ghost predicate FlagsJustified(index: map<Hash, Node>, status: Statuses) {
    forall h :: h in index && h in status && status[h].badAncestor ==> HasFailedAncestor(status, index[h])
  }

  ghost predicate BranchClean(status: Statuses, tip: Node) {
    forall n :: Above(n, tip) ==> n.hash in status && !KnownInvalid(status[n.hash])
  }

  predicate Known(index: map<Hash, Node>, n: Node) {
    n.hash in index && index[n.hash] == n
  }

  lemma {:induction false} AncestorsKnown(index: map<Hash, Node>, status: Statuses, a: Node, n: Node)
    requires IndexOk(index, status) && Known(index, n) && Above(a, n)
    ensures Known(index, a) && a.hash in status
    decreases n
  {
    if a != n {
      AboveParentOf(a, n);
      AncestorsKnown(index, status, a, n.parent.value);
    }
  }

  // ------------------------------------------------------------------ flags

  /** flags went up on some known-invalid-descended nodes among seg, and nothing else changed. */
  ghost predicate Flagged(status: Statuses, status': Statuses, index: map<Hash, Node>) {
    && status'.Keys == status.Keys
    && forall h :: h in status && h in index ==>
         || status'[h] == status[h]
         || (status'[h] == status[h].(badAncestor := true) && HasFailedAncestor(status, index[h]))
  }

  lemma {:induction false} InvalidHasFailed(index: map<Hash, Node>, status: Statuses, a: Node, n: Node)
    requires IndexOk(index, status) && FlagsJustified(index, status)
    requires Known(index, a) && Proper(n) && ProperAbove(a, n) && KnownInvalid(status[a.hash])
    ensures HasFailedAncestor(status, n)
  {
    if !status[a.hash].failed {
      var b :| ProperAbove(b, a) && b.hash in status && status[b.hash].failed;
      AboveParent(a);
      AboveTrans(b, a.parent.value, a);
      AboveTrans(b, a, n.parent.value);
    }
  }

  ghost predicate Hashed(ns: seq<Node>, status: Statuses) {
    forall k :: 0 <= k < |ns| ==> ns[k].hash in status
  }

  ghost predicate Listed(ns: seq<Node>, h: Hash) {
    exists k :: 0 <= k < |ns| && ns[k].hash == h
  }

  /** after differs from before by the badAncestor flag of the nodes in ns, and in nothing else. */
  ghost predicate Marked(before: Statuses, after: Statuses, ns: seq<Node>) {
    && after.Keys == before.Keys
    && forall h :: h in before ==>
         after[h] == if Listed(ns, h) then before[h].(badAncestor := true) else before[h]
  }

  /** No node of the branch of node above fork is known to be invalid. */
  ghost predicate Clear(status: Statuses, node: Node, fork: Node) {
    forall n :: Above(n, node) && n.height > fork.height ==> n.hash in status && !KnownInvalid(status[n.hash])
  }

  ghost predicate IsFork(fork: Node, node: Node, tip: Node) {
    Above(fork, node) && Above(fork, tip) && forall g :: Above(g, node) && Above(g, tip) ==> Above(g, fork)
  }

  ghost function Segment(n: Node, fork: Node): seq<Node>
  {
    if 0 <= fork.height < |Path(n)| then Path(n)[fork.height + 1..] else []
  }

  function Reverse(s: seq<Node>): (r: seq<Node>)
    ensures |r| == |s| && forall i :: 0 <= i < |s| ==> r[i] == s[|s| - 1 - i]
  {
    seq(|s|, i requires 0 <= i < |s| => s[|s| - 1 - i])
  }

  /** Every branch starts at the genesis block. */
  ghost predicate OneRoot(index: map<Hash, Node>, genesis: Option<Node>) {
    forall h :: h in index && index[h].parent.None? ==> Some(index[h]) == genesis
  }

  /** A block passes: by replaying its stored virtual block if it was validated before, else by validation. */
  ghost predicate Passes(status: Statuses, a: Arrival, n: Node) {
    if n.hash in status && status[n.hash].valid && a.stored(n) then a.replays(n) else a.verdict(n).Pass?
  }

  ghost predicate AllPass(status: Statuses, a: Arrival, ns: seq<Node>) {
    forall i :: 0 <= i < |ns| ==> Passes(status, a, ns[i])
  }

  /** Flags are never lowered, and go up only for the verdict they stand for. */
  ghost predicate Sound(before: Statuses, after: Statuses, index: map<Hash, Node>, a: Arrival) {
    && after.Keys == before.Keys
    && forall h :: h in before && h in index ==>
         && (before[h].failed ==> after[h].failed)
         && (after[h].failed && !before[h].failed ==> a.verdict(index[h]).RuleError?)
         && (before[h].valid ==> after[h].valid)
         && (after[h].valid && !before[h].valid ==> a.verdict(index[h]).Pass?)
         && (before[h].badAncestor ==> after[h].badAncestor)
  }

  ghost predicate OnlyValidated(before: Statuses, after: Statuses) {
    && after.Keys == before.Keys
    && forall h :: h in before ==> after[h] == before[h] || after[h] == before[h].(valid := true)
  }

  ghost predicate SameAhead(before: Statuses, now: Statuses, ns: seq<Node>, i: int)
    requires 0 <= i <= |ns|
  {
    forall k :: i <= k < |ns| && ns[k].hash in before && ns[k].hash in now ==> now[ns[k].hash] == before[ns[k].hash]
  }

  /** A side-chain block that takes over: heavier than the tip, on a clear branch whose blocks all pass. */
  ghost predicate Outweighs(status: Statuses, tip: Node, node: Node, a: Arrival) {
    && node.weight > tip.weight && tip.height != 0
    && exists fork :: IsFork(fork, node, tip) && Clear(status, node, fork) && AllPass(status, a, Segment(node, fork))
  }

  /** Sound, but for the block itself, which a fast add takes for valid once its virtual block replayed. */
  ghost predicate Justified(before: Statuses, after: Statuses, index: map<Hash, Node>, a: Arrival, node: Node) {
    && after.Keys == before.Keys
    && forall h :: h in before && h in index ==>
         && (before[h].failed ==> after[h].failed)
         && (after[h].failed && !before[h].failed ==> a.verdict(index[h]).RuleError?)
         && (before[h].valid ==> after[h].valid)
         && (after[h].valid && !before[h].valid ==>
               a.verdict(index[h]).Pass? || (h == node.hash && a.fastAdd && a.hasVirtual && a.replays(node)))
         && (before[h].badAncestor ==> after[h].badAncestor)
  }

  // ------------------------------------------------------------------ what a step does, exactly

  /** The blocks of ns were found valid. */
  ghost function Validate(status: Statuses, ns: seq<Node>): Statuses {
    map h | h in status :: if Listed(ns, h) then status[h].(valid := true) else status[h]
  }

  /** The block breaks a rule: it has to be validated, and fails. */
  ghost predicate Breaks(status: Statuses, a: Arrival, n: Node) {
    !(n.hash in status && status[n.hash].valid && a.stored(n)) && a.verdict(n).RuleError?
  }

  /** The first i blocks pass and the next one, if there is one, does not. */
  ghost predicate PassUpTo(status: Statuses, a: Arrival, ns: seq<Node>, i: int) {
    0 <= i <= |ns| && AllPass(status, a, ns[..i]) && (i < |ns| ==> !Passes(status, a, ns[i]))
  }

  /**
   What checking ns in turn leaves: the blocks that pass are valid; if the first that does not pass breaks a
   rule it has failed, and those after it have an invalid ancestor.
   */
  ghost predicate CheckOutcome(before: Statuses, after: Statuses, a: Arrival, ns: seq<Node>) {
    exists i :: PassUpTo(before, a, ns, i) && CheckedTo(before, after, a, ns, i)
  }

  ghost predicate CheckedTo(before: Statuses, after: Statuses, a: Arrival, ns: seq<Node>, i: int) {
    && 0 <= i <= |ns|
    && var v := Validate(before, ns[..i]);
       if i < |ns| && ns[i].hash in v && Breaks(before, a, ns[i])
       then Marked(v[ns[i].hash := v[ns[i].hash].(failed := true)], after, ns[i + 1..])
       else after == v
  }

  /** The highest block of the branch of node above fork that is known to be invalid. */
  ghost predicate HighestInvalid(status: Statuses, node: Node, fork: Node, bad: Node) {
    && Above(bad, node) && bad.height > fork.height && bad.hash in status
    && (status[bad.hash].failed || status[bad.hash].badAncestor) && Clear(status, node, bad)
  }

  /** Where getReorganizeNodes meets an invalid block, all blocks above that one are flagged. */
  ghost predicate FlaggedAbove(before: Statuses, after: Statuses, node: Node, fork: Node) {
    exists bad :: HighestInvalid(before, node, fork, bad) && Marked(before, after, Segment(node, bad))
  }

  /** The header of the block comes after the tip, and skips no round unless that is allowed. */
  ghost predicate InTurn(emptyRound: bool, tip: Node, a: Arrival) {
    Before(tip, a.round, a.slot) && (emptyRound || a.round <= tip.round + 1)
  }

  /** The block is only replayed: it is known to be valid, or to be taken as such, and has its virtual block. */
  ghost predicate Fast(status: Statuses, node: Node, a: Arrival) {
    (a.fastAdd || (node.hash in status && status[node.hash].valid)) && a.hasVirtual
  }

  /** node becomes the tip: as the next block, or by outweighing the best chain and passing all checks. */
  ghost predicate TakesOver(emptyRound: bool, status: Statuses, tip: Node, node: Node, a: Arrival) {
    if node.parent == Some(tip)
    then InTurn(emptyRound, tip, a) && if Fast(status, node, a) then a.replays(node) else a.verdict(node).Pass?
    else Outweighs(status, tip, node, a)
  }

  /** The flags after the block was offered to the best chain. */
  ghost predicate StatusAfter(emptyRound: bool, before: Statuses, after: Statuses, tip: Node, node: Node, a: Arrival) {
    if node.parent == Some(tip) then
      node.hash in before &&
      after == if TakesOver(emptyRound, before, tip, node, a)
               then before[node.hash := before[node.hash].(valid := true)]
               else if InTurn(emptyRound, tip, a) && !Fast(before, node, a) && a.verdict(node).RuleError?
               then before[node.hash := before[node.hash].(failed := true)]
               else before
    else if node.weight <= tip.weight then after == before
    else exists fork :: IsFork(fork, node, tip) && SideStatus(before, after, tip, node, fork, a)
  }

  ghost predicate SideStatus(before: Statuses, after: Statuses, tip: Node, node: Node, fork: Node, a: Arrival) {
    if !Clear(before, node, fork) then FlaggedAbove(before, after, node, fork)
    else if tip.height == 0 then after == before
    else CheckOutcome(before, after, a, Segment(node, fork))
  }

  /** A heavier side chain runs through an invalid block, so there is nothing to reorganise. */
  ghost predicate Blocked(status: Statuses, tip: Node, node: Node) {
    && node.parent != Some(tip) && node.weight > tip.weight
    && exists fork :: IsFork(fork, node, tip) && !Clear(status, node, fork)
  }

  /** What is answered: whether the best chain took the block or had nothing to do, and whether there was no error. */
  ghost predicate Answered(status: Statuses, tip: Node, node: Node, takes: bool, main: bool, ok: bool) {
    && (main <==> takes || Blocked(status, tip, node))
    && (ok <==> main || (node.parent != Some(tip) && node.weight <= tip.weight))
  }

  /** The block index, the flags and the tip. */
  datatype Snapshot = Snapshot(index: map<Hash, Node>, status: Statuses, tip: Node)

  /** A block is taken into the index: its parent is there and not invalid, and it fits its round and place. */
  ghost predicate Acceptable(s: Snapshot, a: Arrival) {
    && a.prev in s.index && a.prev in s.status && !s.status[a.prev].failed && !s.status[a.prev].badAncestor
    && a.roundOk && (a.fastAdd || a.contextOk)
  }

  /** The node of a block on its parent, field by field. */
  ghost predicate IsNodeOf(n: Node, prev: Node, a: Arrival) {
    && n.parent == Some(prev) && n.hash == a.hash && n.height == prev.height + 1 && n.weight == prev.weight + a.weight
    && (n.round == a.round || (n.round == prev.round > a.round)) && prev.round <= n.round
    && n.slot == a.slot && n.time == a.time
  }

  /** One step, exactly: nothing changes, or the block is in the index and was offered to the best chain. */
  ghost predicate Stepped(emptyRound: bool, before: Snapshot, a: Arrival, after: Snapshot) {
    if !Acceptable(before, a) then after == before
    else
      && a.hash in after.index && after.index == before.index[a.hash := after.index[a.hash]]
      && IsNodeOf(after.index[a.hash], before.index[a.prev], a)
      && var node, added := after.index[a.hash], before.status[a.hash := Status(false, false, false)];
         && after.tip == (if TakesOver(emptyRound, added, before.tip, node, a) then node else before.tip)
         && StatusAfter(emptyRound, added, after.status, before.tip, node, a)
  }

  class BlockChain {
    var index: map<Hash, Node>
    var status: Statuses
    const bestChain: ChainView
    const emptyRound: bool

    /** The invariant of every run. */
    ghost predicate Valid()
      reads this, bestChain
    {
      && bestChain.Valid() && bestChain.Tip().Some? && Known(index, bestChain.Tip().value)
      && IndexOk(index, status) && FlagsJustified(index, status) && BranchClean(status, bestChain.Tip().value)
      && OneRoot(index, bestChain.Genesis())
    }

    ghost function Tip(): Node
      reads bestChain
      requires bestChain.Tip().Some?
    {
      bestChain.Tip().value
    }

    lemma TipIs()
      requires bestChain.Tip().Some?
      ensures bestChain.Tip() == Some(Tip())
    {
    }

    lemma Parts()
      requires Valid()
      ensures bestChain.Valid() && bestChain.Tip().Some? && bestChain.Tip() == Some(Tip())
      ensures Known(index, Tip()) && Proper(Tip())
      ensures IndexOk(index, status) && FlagsJustified(index, status) && BranchClean(status, Tip()) &&
          OneRoot(index, bestChain.Genesis())
    {
    }

    lemma Whole()
      requires bestChain.Valid() && bestChain.Tip().Some? && Known(index, Tip())
      requires IndexOk(index, status) && FlagsJustified(index, status) && BranchClean(status, Tip()) &&
          OneRoot(index, bestChain.Genesis())
      ensures Valid()
    {
    }

    /** A chain that holds nothing but the genesis block. */
    constructor (genesis: Node, allowEmptyRounds: bool)
      requires genesis.parent.None? && Proper(genesis)
      ensures Valid() && fresh(bestChain) && Tip() == genesis && index == map[genesis.hash := genesis]
    {
      index := map[genesis.hash := genesis];
      status := map[genesis.hash := Status(true, false, false)];
      emptyRound := allowEmptyRounds;
      bestChain := new ChainView();
      new;
      bestChain.SetTip(Some(genesis));
    }

    /** The part of getReorganizeNodes that walks from node to the fork. */
    method CollectAttach(node: Node, fork: Node) returns (attach: seq<Node>, invalid: Option<Node>)
      requires IndexOk(index, status) && Known(index, node) && Above(fork, node)
      ensures invalid.None? ==> attach == Segment(node, fork) && Clear(status, node, fork)
      ensures invalid.Some? ==>
        && Known(index, invalid.value) && Above(invalid.value, node) && invalid.value.height > fork.height
        && KnownInvalid(status[invalid.value.hash]) && attach == Segment(node, invalid.value)
        && Clear(status, node, invalid.value)
    {
      hide *;
      attach := [];
      var n := node;
      WalkStart(index, status, node);
      while n != fork
        invariant Proper(n) && Known(index, n) && Above(n, node) && Above(fork, n)
        invariant attach == Segment(node, n) && Clear(status, node, n)
        decreases n
      {
        WalkUp(index, status, node, fork, n);
        if KnownInvalid(status[n.hash]) {
          return attach, Some(n);
        }
        attach := [n] + attach;
        n := n.parent.value;
      }
      invalid := None;
    }

    /** Flags every node of a list for an invalid ancestor. */
    method MarkInvalidAncestor(ns: seq<Node>)
      requires Hashed(ns, status)
      modifies this`status
      ensures Marked(old(status), status, ns)
    {
      for i := 0 to |ns|
        invariant Marked(old(status), status, ns[..i])
      {
        MarkedNext(old(status), status, ns, i);
        status := status[ns[i].hash := status[ns[i].hash].(badAncestor := true)];
      }
      assert ns[..|ns|] == ns;
    }

    /** The tip down to the fork, as getReorganizeNodes lists what has to be detached. */
    method CollectDetach(fork: Node) returns (detach: seq<Node>)
      requires bestChain.Valid() && bestChain.Tip().Some? && Above(fork, Tip())
      ensures detach == Reverse(Segment(Tip(), fork))
    {
      var n := bestChain.Tip().value;
      ghost var tip := n;
      detach := [];
      AboveSelf(tip);
      PathAt(tip, tip.height);
      assert Segment(tip, tip) == [];
      hide Path, Proper, Segment, Above;
      while n != fork
        invariant Proper(tip) && Proper(n) && Above(n, tip) && Above(fork, n) && detach == Reverse(Segment(tip, n))
        decreases n
      {
        WalkDown(tip, fork, n);
        detach := detach + [n];
        n := n.parent.value;
      }
    }

    /**
     getReorganizeNodes: the two sides of the fork, unless the branch of node runs through a block known
     to be invalid; then node is left flagged and there is nothing to reorganise.
     */
    method GetReorganizeNodes(node: Node) returns (detach: seq<Node>, attach: seq<Node>, ghost fork: Node)
      requires Valid() && Known(index, node) && node.parent.Some? && !Above(node, Tip())
      modifies this`status
      ensures Valid() && IsFork(fork, node, Tip()) && node.hash in status
      ensures Flagged(old(status), status, index)
      ensures Clear(old(status), node, fork) ==>
        attach == Segment(node, fork) && detach == Reverse(Segment(Tip(), fork)) && status == old(status)
      ensures !Clear(old(status), node, fork) ==>
        attach == [] && detach == [] && KnownInvalid(status[node.hash])
      ensures !Clear(old(status), node, fork) && node.hash in old(status) && !KnownInvalid(old(status)[node.hash]) ==>
        FlaggedAbove(old(status), status, node, fork)
    {
      hide *;
      Parts();
      NodeProper(index, status, node);
      var found := bestChain.FindFork(Some(node));
      ForkExists(this, node, found);
      fork := found.value;
      attach, detach := [], [];
      ParentOfSide(index, status, node, fork, Tip());
      if KnownInvalid(status[node.parent.value.hash]) {
        OneHashed(node, status);
        MarkInvalidAncestor([node]);
        MarksJustified(index, old(status), status, node, fork, Tip(), node.parent.value, [node]);
        ParentHighest(old(status), status, node, fork);
        Whole();
        return;
      }
      var invalid: Option<Node>;
      attach, invalid := CollectAttach(node, found.value);
      if invalid.Some? {
        SegmentHashes(index, status, node, invalid.value);
        NodeProper(index, status, invalid.value);
        MarkInvalidAncestor(attach);
        MarksJustified(index, old(status), status, node, fork, Tip(), invalid.value, attach);
        HighestIs(old(status), status, node, fork, invalid.value);
        Whole();
        attach := [];
        return;
      }
      detach := CollectDetach(found.value);
      NothingFlagged(status, index);
    }

    /**
     The checks of reorganizeChain, before anything is moved. Blocks already validated are replayed, the
     others validated; the first block that breaks a rule is marked, and all after it with it.
     */
    method CheckAttach(node: Node, attach: seq<Node>, a: Arrival, ghost fork: Node) returns (ok: bool)
      requires Valid() && Known(index, node) && IsFork(fork, node, Tip()) && attach == Segment(node, fork)
      modifies this`status
      ensures Valid() && Sound(old(status), status, index, a)
      ensures ok <==> AllPass(old(status), a, attach)
      ensures ok ==> OnlyValidated(old(status), status)
      ensures CheckOutcome(old(status), status, a, attach)
    {
      hide *;
      ChecksStart(status, index, a, attach);
      NoneValidated(status, attach);
      Parts();
      ForkAbove(fork, node, Tip());
      for i := 0 to |attach|
        invariant Valid() && Sound(old(status), status, index, a) && OnlyValidated(old(status), status)
        invariant AllPass(old(status), a, attach[..i]) && SameAhead(old(status), status, attach, i)
        invariant status == Validate(old(status), attach[..i])
      {
        Parts();
        var n := attach[i];
        ghost var now := status;
        CheckAt(index, old(status), now, node, fork, Tip(), attach, i, a);
        StopsAt(old(status), now, a, attach, i);
        ValidateNext(old(status), attach, i);
        if status[n.hash].valid && a.stored(n) {
          if !a.replays(n) {
            return false;
          }
        } else {
          match a.verdict(n) {
            case RuleError =>
              status := status[n.hash := status[n.hash].(failed := true)];
              ghost var failed := status;
              StillHashed(attach[i + 1..], now, failed);
              MarkInvalidAncestor(attach[i + 1..]);
              RuleBroken(index, old(status), now, failed, status, node, fork, Tip(), attach, i, a);
              BrokenAt(old(status), now, status, a, attach, i);
              Whole();
              return false;
            case OtherError =>
              return false;
            case Pass =>
              status := status[n.hash := status[n.hash].(valid := true)];
              Validated(index, old(status), now, status, node, fork, Tip(), attach, i, a);
              Whole();
          }
        }
        PassedOne(old(status), now, status, a, attach, i);
      }
      assert attach[..|attach|] == attach;
      AllChecked(old(status), status, a, attach);
      ok := true;
    }

    /** The second pass of reorganizeChain: takes the old branch off block by block and puts the new one on. */
    method MoveTip(detach: seq<Node>, attach: seq<Node>)
      requires bestChain.Valid() && attach != []
      requires forall i :: 0 <= i < |detach| ==> Proper(detach[i]) && detach[i].parent.Some?
      requires forall i :: 0 <= i < |attach| ==> Proper(attach[i])
      modifies bestChain
      ensures bestChain.Valid() && bestChain.Tip() == Some(attach[|attach| - 1])
    {
      for i := 0 to |detach|
        invariant bestChain.Valid()
      {
        assert Proper(detach[i].parent.value);
        bestChain.SetTip(detach[i].parent);
      }
      for i := 0 to |attach|
        invariant bestChain.Valid() && (i > 0 ==> bestChain.Tip() == Some(attach[i - 1]))
      {
        bestChain.SetTip(Some(attach[i]));
      }
    }

    /**
     reorganizeChain: the best chain moves to node exactly when every block to attach passes and the
     genesis block is not the tip; otherwise the best chain is left as it was.
     */
    method ReorganizeChain(node: Node, detach: seq<Node>, attach: seq<Node>, a: Arrival, ghost fork: Node)
      returns (ok: bool)
      requires Valid() && Known(index, node) && IsFork(fork, node, Tip()) && node != fork
      requires (attach == [] && detach == []) ||
               (attach == Segment(node, fork) && detach == Reverse(Segment(Tip(), fork)) && Clear(status, node, fork))
      modifies this`status, bestChain
      ensures Valid() && Sound(old(status), status, index, a)
      ensures attach == [] ==> ok && status == old(status)
      ensures attach != [] && old(Tip()).height == 0 ==> status == old(status)
      ensures attach != [] && old(Tip()).height != 0 ==> CheckOutcome(old(status), status, a, attach)
      ensures attach != [] ==> (ok <==> old(Tip()).height != 0 && AllPass(old(status), a, attach))
      ensures attach != [] && ok ==> Tip() == node
      ensures attach == [] || !ok ==> bestChain.nodes == old(bestChain.nodes) && Tip() == old(Tip())
    {
      hide *;
      Parts();
      ChecksStart(status, index, a, attach);
      if detach == [] && attach == [] {
        return true;
      }
      SidesProper(index, status, node, fork, Tip());
      if bestChain.Tip().value.height == 0 {
        return false;
      }
      ok := CheckAttach(node, attach, a, fork);
      if ok {
        Parts();
        ghost var genesis := bestChain.Genesis();
        BranchMoves(index, old(status), status, node, fork, Tip());
        MoveTip(detach, attach);
        TipIs();
        NewGenesis(bestChain, node, index, status, genesis);
        Whole();
      }
    }

    /** The round and slot in the header of a block that extends the tip must come after the tip's. */
    predicate BadSlotOrRound(tip: Node, a: Arrival) {
      || (emptyRound && tip.round > a.round)
      || (!emptyRound && tip.round + 1 != a.round && tip.round != a.round)
      || (tip.slot >= a.slot && tip.round == a.round)
    }

    /** That is: it comes after the tip, and skips no round unless that is allowed. */
    lemma InTurnIs(tip: Node, a: Arrival)
      ensures InTurn(emptyRound, tip, a) <==> !BadSlotOrRound(tip, a)
    {
    }

    lemma GoodFollows(tip: Node, a: Arrival)
      requires !BadSlotOrRound(tip, a)
      ensures NodeOf(tip, a).parent == Some(tip) && Follows(NodeOf(tip, a))
    {
    }

    /** The branch of connectBestChain for a block whose parent is the tip. */
    method ExtendTip(node: Node, a: Arrival) returns (main: bool, ok: bool)
      requires Valid() && Known(index, node) && node.parent == bestChain.Tip() && node.hash in status
      requires !KnownInvalid(status[node.hash]) && node == NodeOf(Tip(), a)
      modifies this`status, bestChain
      ensures Valid() && main == ok && (ok <==> TakesOver(emptyRound, old(status), old(Tip()), node, a))
      ensures ok ==> Follows(node)
      ensures StatusAfter(emptyRound, old(status), status, old(Tip()), node, a)
      ensures Justified(old(status), status, index, a, node)
      ensures ok ==> Tip() == node
      ensures !ok ==> bestChain.nodes == old(bestChain.nodes) && Tip() == old(Tip())
    {
      hide Path, Proper, Above, IndexOk, FlagsJustified, BranchClean, OneRoot, Flat, NodeOf, Follows, InTurn;
      Parts();
      var tip := bestChain.Tip().value;
      ghost var genesis := bestChain.Genesis();
      var fast := (a.fastAdd || status[node.hash].valid) && a.hasVirtual;
      ExtendFacts(index, status, node, tip, a);
      InTurnIs(tip, a);
      if BadSlotOrRound(tip, a) {
        return false, false;
      }
      GoodFollows(tip, a);
      if !fast {
        match a.verdict(node) {
          case Pass =>
            status := status[node.hash := status[node.hash].(valid := true)];
          case RuleError =>
            status := status[node.hash := status[node.hash].(failed := true)];
            FailKeeps(index, old(status), old(status), status, tip, node, a);
            ExtendJustified(index, old(status), status, a, node);
            return false, false;
          case OtherError =>
            return false, false;
        }
      } else if !a.replays(node) {
        return false, false;
      }
      bestChain.SetTip(Some(node));
      if fast || !status[node.hash].valid {
        status := status[node.hash := status[node.hash].(valid := true)];
      }
      NewTip(index, old(status), status, node, tip);
      ExtendJustified(index, old(status), status, a, node);
      NewGenesis(bestChain, node, index, status, genesis);
      return true, true;
    }

    /** connectBestChain for a block that has just been added to the index. */
    method ConnectBestChain(node: Node, a: Arrival) returns (main: bool, ok: bool)
      requires Valid() && Known(index, node) && node.hash in status && node.parent.Some? && !Above(node, Tip())
      requires !KnownInvalid(status[node.hash]) && node == NodeOf(node.parent.value, a)
      modifies this`status, bestChain
      ensures Valid() && Justified(old(status), status, index, a, node)
      ensures Tip() == node <==> TakesOver(emptyRound, old(status), old(Tip()), node, a)
      ensures StatusAfter(emptyRound, old(status), status, old(Tip()), node, a)
      ensures Answered(old(status), old(Tip()), node, Tip() == node, main, ok)
      ensures Tip() == node && node.parent == old(bestChain.Tip()) ==> Follows(node)
      ensures Attached(a, old(Tip()), Tip()) && Known(index, old(Tip()))
      ensures Tip() != node ==> bestChain.nodes == old(bestChain.nodes) && Tip() == old(Tip())
      ensures main ==> ok
    {
      hide *;
      Parts();
      ghost var tip := Tip();
      AboveSelf(tip);
      NodeProper(index, status, node);
      ParentByHash(index, status, node, tip);
      TakesMeaning(emptyRound, status, tip, node, a);
      Unmoved(a, tip);
      TakesAttached(emptyRound, status, tip, node, a);
      if node.parent.value.hash == bestChain.Tip().value.hash {
        main, ok := ExtendTip(node, a);
        Parts();
        ExtendAnswered(old(status), tip, node, main);
        return;
      }
      if node.weight <= bestChain.Tip().value.weight {
        SameJustified(index, status, a, node);
        LightSide(emptyRound, status, tip, node, a);
        return false, true;
      }
      var detach, attach, fork := GetReorganizeNodes(node);
      Parts();
      ForkOff(fork, node, tip);
      SidesProper(index, status, node, fork, tip);
      ghost var mid := status;
      ReorgTakes(old(status), node, fork, tip, a);
      ok := ReorganizeChain(node, detach, attach, a, fork);
      ReorgJustified(index, old(status), mid, status, a, node);
      main := ok;
      SideIs(old(status), status, tip, node, fork, a);
      HeavySide(emptyRound, old(status), status, tip, node, fork, a, ok);
    }

    /** The block enters the index as node, on a side chain, and is offered to the best chain. */
    method Offer(prev: Node, node: Node, a: Arrival) returns (main: bool, ok: bool)
      requires Valid() && a.hash !in index && 0 <= a.weight <= MAX_HEADER_WEIGHT && Acceptable(Now(), a)
      requires a.prev in index && prev == index[a.prev] && Known(index, prev) && node == NodeOf(prev, a)
      modifies this, bestChain
      ensures Valid() && old(Tip()).weight <= Tip().weight
      ensures Stepped(emptyRound, old(Now()), a, Now())
      ensures Tip() != old(Tip()) ==>
        Tip().hash == a.hash && (Tip().parent == Some(old(Tip())) || Tip().weight > old(Tip()).weight)
      ensures Tip() == old(Tip()) ==> bestChain.nodes == old(bestChain.nodes)
      ensures index == old(index) || (a.hash in index && index == old(index)[a.hash := index[a.hash]])
      ensures forall h :: h in old(index) && h in index && h in old(status) && h in status ==>
        && (old(status)[h].failed ==> status[h].failed) && (old(status)[h].valid ==> status[h].valid)
        && (status[h].failed && !old(status)[h].failed ==> a.verdict(index[h]).RuleError?)
      ensures Attached(a, old(Tip()), Tip())
      ensures Path(Tip())[0] == old(Path(Tip())[0])
      ensures Tip().parent == Some(old(Tip())) ==> Follows(Tip())
      ensures old(Ordered(Tip())) ==>
        (Ordered(Tip()) <==> forall n :: Above(n, Tip()) && !Above(n, old(Tip())) ==> Follows(n))
      ensures a.hash in index && Answered(old(status)[a.hash := Status(false, false, false)], old(Tip()),
                                          index[a.hash], Tip() == index[a.hash], main, ok)
    {
      hide *;
      Parts();
      NowIs();
      ghost var tip := Tip();
      Unmoved(a, tip);
      Added(index, status, prev, node, a, tip, bestChain.Genesis());
      index := index[a.hash := node];
      status := status[a.hash := Status(false, false, false)];
      Whole();
      TakesMeaning(emptyRound, status, tip, node, a);
      ghost var added := status;
      main, ok := ConnectBestChain(node, a);
      FlagsOfRest(old(index), index, old(status), added, status, a, node);
      Parts();
      SameRoot(index, status, tip, Tip(), bestChain.Genesis());
      OrderedIfBefore(tip, Tip());
      NowIs();
      StepDone(emptyRound, old(Now()), a, Now(), prev, node);
    }

    /**
     maybeAcceptBlock: one step of the machine. Whatever the oracles say, the invariant holds after it, the
     best chain changes only to the new block, and only by extending the tip or by outweighing it.
     */
    method MaybeAcceptBlock(a: Arrival) returns (main: bool, ok: bool)
      requires Valid() && a.hash !in index && 0 <= a.weight <= MAX_HEADER_WEIGHT
      modifies this, bestChain
      ensures Valid() && old(Tip()).weight <= Tip().weight
      ensures Stepped(emptyRound, old(Now()), a, Now())
      ensures Tip() != old(Tip()) ==>
        Tip().hash == a.hash && (Tip().parent == Some(old(Tip())) || Tip().weight > old(Tip()).weight)
      ensures Tip() == old(Tip()) ==> bestChain.nodes == old(bestChain.nodes)
      ensures index == old(index) || (a.hash in index && index == old(index)[a.hash := index[a.hash]])
      ensures forall h :: h in old(index) && h in index && h in old(status) && h in status ==>
        && (old(status)[h].failed ==> status[h].failed) && (old(status)[h].valid ==> status[h].valid)
        && (status[h].failed && !old(status)[h].failed ==> a.verdict(index[h]).RuleError?)
      ensures Attached(a, old(Tip()), Tip())
      ensures Path(Tip())[0] == old(Path(Tip())[0])
      ensures Tip().parent == Some(old(Tip())) ==> Follows(Tip())
      ensures old(Ordered(Tip())) ==>
        (Ordered(Tip()) <==> forall n :: Above(n, Tip()) && !Above(n, old(Tip())) ==> Follows(n))
      ensures if !old(Acceptable(Now(), a)) then !main && !ok
              else a.hash in index && Answered(old(status)[a.hash := Status(false, false, false)], old(Tip()),
                                               index[a.hash], Tip() == index[a.hash], main, ok)
    {
      hide *;
      Parts();
      Unmoved(a, Tip());
      NowIs();
      Refuses(emptyRound, Now(), a);
      if a.prev !in index {
        return false, false;
      }
      var prev := index[a.prev];
      InStatus(index, status, a.prev);
      if KnownInvalid(status[prev.hash]) {
        return false, false;
      }
      if !a.roundOk || (!a.fastAdd && !a.contextOk) {
        return false, false;
      }
      var round := RoundFor(prev.round, a.round);
      var node := NewNode(Some(prev), a.hash, a.weight, round, a.slot, a.time);
      NodeIs(prev, a, round);
      main, ok := Offer(prev, node, a);
    }

    ghost function Now(): Snapshot
      reads this, bestChain
      requires bestChain.Tip().Some?
    {
      Snapshot(index, status, Tip())
    }

    lemma NowIs()
      requires bestChain.Tip().Some?
      ensures Now() == Snapshot(index, status, Tip())
    {
    }
  }

  /** From the parent's round, one round after the other up to that of the header. */
  method RoundFor(from: int, round: int) returns (r: int)
    ensures r == if round < from then from else round
  {
    r := from;
    while r < round
      invariant r == from || from < r <= round
    {
      r := r + 1;
    }
  }

  /** The guards of maybeAcceptBlock are those of an acceptable block. */
  lemma Refuses(emptyRound: bool, s: Snapshot, a: Arrival)
    requires IndexOk(s.index, s.status)
    ensures Acceptable(s, a) <==>
      a.prev in s.index && s.index[a.prev].hash == a.prev && a.prev in s.status && !KnownInvalid(s.status[a.prev]) &&
      a.roundOk && (a.fastAdd || a.contextOk)
    ensures !Acceptable(s, a) ==> Stepped(emptyRound, s, a, s)
    ensures a.prev in s.index ==> s.index[a.prev].hash == a.prev && a.prev in s.status
  {
  }

  lemma StepDone(emptyRound: bool, before: Snapshot, a: Arrival, after: Snapshot, prev: Node, node: Node)
    requires Acceptable(before, a) && prev == before.index[a.prev] && node == NodeOf(prev, a)
    requires after.index == before.index[a.hash := node]
    requires var added := before.status[a.hash := Status(false, false, false)];
             && (after.tip == node <==> TakesOver(emptyRound, added, before.tip, node, a))
             && (after.tip != node ==> after.tip == before.tip)
             && StatusAfter(emptyRound, added, after.status, before.tip, node, a)
    ensures Stepped(emptyRound, before, a, after)
  {
    hide TakesOver, StatusAfter;
  }

  lemma WalkStart(index: map<Hash, Node>, status: Statuses, node: Node)
    requires IndexOk(index, status) && Known(index, node)
    ensures Proper(node) && Above(node, node) && Segment(node, node) == [] && Clear(status, node, node)
  {
    AboveSelf(node);
    PathAt(node, node.height);
    forall n | Above(n, node)
      ensures n.height <= node.height
    {
      AboveAt(n, node);
    }
  }

  lemma SegmentStep(node: Node, n: Node)
    requires Proper(node) && Above(n, node) && n.parent.Some?
    ensures var p := n.parent.value;
            && Above(p, node) && n.height == p.height + 1 && Segment(node, p) == [n] + Segment(node, n)
            && forall m :: Above(m, node) && m.height > p.height ==> m == n || m.height > n.height
  {
    var p := n.parent.value;
    ParentOn(node, n);
    SegmentCons(node, n);
    hide Path, Proper, Above, Segment;
    forall m | Above(m, node) && m.height > p.height && m.height <= n.height
      ensures m == n
    {
      AboveAt(m, node);
      AboveAt(n, node);
    }
  }

  lemma ParentOn(node: Node, n: Node)
    requires Proper(node) && Above(n, node) && n.parent.Some?
    ensures Above(n.parent.value, node) && n.height == n.parent.value.height + 1
  {
    AboveAt(n, node);
    AboveParent(n);
    hide Path, Above;
    AboveTrans(n.parent.value, n, node);
  }

  lemma SegmentCons(node: Node, n: Node)
    requires Proper(node) && Above(n, node) && n.parent.Some?
    ensures Segment(node, n.parent.value) == [n] + Segment(node, n)
  {
    hide Path, Proper, Above;
    ParentOn(node, n);
    AboveAt(n, node);
    AboveAt(n.parent.value, node);
  }

  lemma WalkUp(index: map<Hash, Node>, status: Statuses, node: Node, fork: Node, n: Node)
    requires IndexOk(index, status) && Known(index, node) && Known(index, n) && Above(n, node) && Above(fork, n)
    requires n != fork
    ensures n.parent.Some? && n.height > fork.height && n.hash in status
    ensures var p := n.parent.value;
            && Proper(p) && Known(index, p) && Above(p, node) && Above(fork, p)
            && Segment(node, p) == [n] + Segment(node, n)
            && (Clear(status, node, n) && !KnownInvalid(status[n.hash]) ==> Clear(status, node, p))
  {
    AboveParentOf(fork, n);
    hide Path, Above, Segment;
    SegmentStep(node, n);
    AboveAt(fork, n.parent.value);
  }

  lemma MarkedNext(before: Statuses, now: Statuses, ns: seq<Node>, i: int)
    requires 0 <= i < |ns| && ns[i].hash in before && Marked(before, now, ns[..i])
    ensures Marked(before, now[ns[i].hash := now[ns[i].hash].(badAncestor := true)], ns[..i + 1])
  {
    forall h: Hash
      ensures Listed(ns[..i + 1], h) <==> Listed(ns[..i], h) || h == ns[i].hash
    {
      assert ns[..i + 1][i] == ns[i];
      if Listed(ns[..i], h) {
        var k :| 0 <= k < i && ns[..i][k].hash == h;
        assert ns[..i + 1][k].hash == h;
      }
      if Listed(ns[..i + 1], h) {
        var k :| 0 <= k < i + 1 && ns[..i + 1][k].hash == h;
        assert k < i ==> ns[..i][k].hash == h;
      }
    }
  }

  lemma WalkDown(tip: Node, fork: Node, n: Node)
    requires Proper(tip) && Proper(n) && Above(n, tip) && Above(fork, n) && n != fork
    ensures n.parent.Some? && Proper(n.parent.value) && Above(n.parent.value, tip) && Above(fork, n.parent.value)
    ensures Reverse(Segment(tip, n.parent.value)) == Reverse(Segment(tip, n)) + [n]
  {
    AboveParentOf(fork, n);
    hide Path, Above, Segment;
    SegmentStep(tip, n);
    var s := Segment(tip, n);
    assert Reverse([n] + s) == Reverse(s) + [n];
  }

  /** All branches share the genesis block, so there is always a fork. */
  lemma ForkExists(c: BlockChain, node: Node, found: Option<Node>)
    requires c.Valid() && Known(c.index, node)
    requires found.Some? ==> Above(found.value, node) && c.bestChain.Contains(found.value)
    requires found.Some? ==> forall g :: Above(g, node) && c.bestChain.Contains(g) ==> Above(g, found.value)
    requires found.None? ==> forall g :: Above(g, node) ==> !c.bestChain.Contains(g)
    ensures found.Some? && IsFork(found.value, node, c.Tip())
  {
    PathAt(node, 0);
    var root := Path(node)[0];
    AboveAt(root, node);
    AncestorsKnown(c.index, c.status, root, node);
    assert |Path(root)| == 1;
    assert root.parent.None?;
    forall g
      ensures c.bestChain.Contains(g) <==> Above(g, c.Tip())
    {
      c.bestChain.ContainsMeaning(g);
    }
    assert c.bestChain.Contains(root);
  }

  lemma NodeProper(index: map<Hash, Node>, status: Statuses, node: Node)
    requires IndexOk(index, status) && Known(index, node)
    ensures Proper(node) && node.hash in status
  {
  }

  ghost predicate KnownOn(index: map<Hash, Node>, status: Statuses, node: Node, n: Node, h: int) {
    Known(index, n) && n.hash in status && Above(n, node) && n.height == h
  }

  lemma SegmentKnown(index: map<Hash, Node>, status: Statuses, node: Node, bottom: Node)
    requires IndexOk(index, status) && Known(index, node) && Above(bottom, node)
    ensures forall k :: 0 <= k < |Segment(node, bottom)| ==>
              KnownOn(index, status, node, Segment(node, bottom)[k], bottom.height + 1 + k)
  {
    AboveAt(bottom, node);
    forall k | 0 <= k < |Segment(node, bottom)|
      ensures KnownOn(index, status, node, Segment(node, bottom)[k], bottom.height + 1 + k)
    {
      SegmentAt(node, bottom, k);
      AncestorsKnown(index, status, Segment(node, bottom)[k], node);
    }
  }

  lemma SegmentHashes(index: map<Hash, Node>, status: Statuses, node: Node, bottom: Node)
    requires IndexOk(index, status) && Known(index, node) && Above(bottom, node)
    ensures Hashed(Segment(node, bottom), status)
  {
    SegmentKnown(index, status, node, bottom);
    forall k | 0 <= k < |Segment(node, bottom)|
      ensures Segment(node, bottom)[k].hash in status
    {
      assert KnownOn(index, status, node, Segment(node, bottom)[k], bottom.height + 1 + k);
    }
  }

  lemma SegmentAt(node: Node, bottom: Node, k: int)
    requires Proper(node) && Above(bottom, node) && 0 <= k < |Segment(node, bottom)|
    ensures Above(Segment(node, bottom)[k], node) && Segment(node, bottom)[k].height == bottom.height + 1 + k
  {
    AboveAt(bottom, node);
    PathAt(node, bottom.height + 1 + k);
    assert Segment(node, bottom)[k] == Path(node)[bottom.height + 1 + k];
  }

  /** An invalid parent lies above the fork: the best chain is clean. */
  lemma ParentOfSide(index: map<Hash, Node>, status: Statuses, node: Node, fork: Node, tip: Node)
    requires IndexOk(index, status) && Known(index, node) && node.parent.Some? && Proper(tip)
    requires BranchClean(status, tip) && IsFork(fork, node, tip) && !Above(node, tip)
    ensures var p := node.parent.value;
            && Known(index, p) && Proper(p) && p.hash in status && Above(p, node) && Segment(node, p) == [node]
            && (KnownInvalid(status[p.hash]) ==> p.height > fork.height)
  {
    var p := node.parent.value;
    AboveSelf(node);
    SegmentStep(node, node);
    WalkStart(index, status, node);
    AboveAt(fork, node);
    AboveAt(p, node);
    if p.height <= fork.height {
      AboveParentOf(fork, node);
      AboveAt(fork, p);
      assert p == fork;
    }
  }

  /** Flagging the descendants of an invalid side-chain node keeps the invariant of the flags. */
  lemma MarksJustified(index: map<Hash, Node>, before: Statuses, after: Statuses, node: Node, fork: Node, tip: Node,
                       bad: Node, ns: seq<Node>)
    requires IndexOk(index, before) && FlagsJustified(index, before) && BranchClean(before, tip) && Known(index, node)
    requires IsFork(fork, node, tip) && Known(index, tip)
    requires Known(index, bad) && Above(bad, node) && bad.height > fork.height && KnownInvalid(before[bad.hash])
    requires ns == Segment(node, bad) && Marked(before, after, ns)
    ensures IndexOk(index, after) && FlagsJustified(index, after) && BranchClean(after, tip)
    ensures Flagged(before, after, index) && KnownInvalid(after[node.hash]) && !Clear(before, node, fork)
  {
    SegmentKnown(index, before, node, bad);
    forall k | 0 <= k < |ns|
      ensures Known(index, ns[k]) && HasFailedAncestor(before, ns[k]) && !Above(ns[k], tip)
    {
      assert KnownOn(index, before, node, ns[k], bad.height + 1 + k);
      BadBelow(node, bad, ns[k]);
      InvalidHasFailed(index, before, bad, ns[k]);
      OffChain(node, fork, tip, ns[k]);
    }
    FlagsUp(index, before, after, tip, ns);
    NodeFlagged(index, before, after, node, bad, ns);
  }

  lemma BadBelow(node: Node, bad: Node, n: Node)
    requires Proper(node) && Above(bad, node) && Above(n, node) && n.height > bad.height
    ensures Proper(n) && ProperAbove(bad, n)
  {
    AboveEachOther(bad, n, node);
    AboveParentOf(bad, n);
  }

  lemma OffChain(node: Node, fork: Node, tip: Node, n: Node)
    requires IsFork(fork, node, tip) && Proper(node) && Above(n, node) && n.height > fork.height
    ensures !Above(n, tip)
  {
    AboveAt(fork, node);
    AboveAt(n, fork);
  }

  lemma FailedStays(before: Statuses, after: Statuses, n: Node)
    requires forall h :: h in before ==> h in after && (before[h].failed ==> after[h].failed)
    requires HasFailedAncestor(before, n)
    ensures HasFailedAncestor(after, n)
  {
    var a :| ProperAbove(a, n) && a.hash in before && before[a.hash].failed;
    assert after[a.hash].failed;
  }

  lemma FlagsUp(index: map<Hash, Node>, before: Statuses, after: Statuses, tip: Node, ns: seq<Node>)
    requires IndexOk(index, before) && FlagsJustified(index, before) && BranchClean(before, tip)
    requires Known(index, tip) && Marked(before, after, ns)
    requires forall k :: 0 <= k < |ns| ==>
               Known(index, ns[k]) && HasFailedAncestor(before, ns[k]) && !Above(ns[k], tip)
    ensures IndexOk(index, after) && FlagsJustified(index, after) && BranchClean(after, tip)
    ensures Flagged(before, after, index)
  {
    forall h | h in index
      ensures after[h] == before[h] || (after[h] == before[h].(badAncestor := true) &&
          HasFailedAncestor(before, index[h]))
      ensures after[h].badAncestor ==> HasFailedAncestor(after, index[h])
    {
      if HasFailedAncestor(before, index[h]) {
        FailedStays(before, after, index[h]);
      }
    }
    forall n | Above(n, tip)
      ensures n.hash in after && !KnownInvalid(after[n.hash])
    {
      AncestorsKnown(index, before, n, tip);
    }
  }

  lemma NodeFlagged(index: map<Hash, Node>, before: Statuses, after: Statuses, node: Node, bad: Node, ns: seq<Node>)
    requires IndexOk(index, before) && Known(index, node) && Above(bad, node)
    requires bad.hash in before && KnownInvalid(before[bad.hash])
    requires ns == Segment(node, bad) && Marked(before, after, ns)
    ensures node.hash in after && KnownInvalid(after[node.hash])
  {
    AboveAt(bad, node);
    if bad != node {
      assert ns[|ns| - 1] == node;
    }
  }

  lemma NothingFlagged(status: Statuses, index: map<Hash, Node>)
    ensures Flagged(status, status, index)
  {
  }

  // ------------------------------------------------------------------ the checks of a reorganisation

  lemma ChecksStart(status: Statuses, index: map<Hash, Node>, a: Arrival, attach: seq<Node>)
    ensures Sound(status, status, index, a) && OnlyValidated(status, status)
    ensures AllPass(status, a, attach[..0]) && SameAhead(status, status, attach, 0)
  {
  }

  /** What holds of the next block to check. */
  lemma CheckAt(index: map<Hash, Node>, before: Statuses, now: Statuses, node: Node, fork: Node, tip: Node,
                attach: seq<Node>, i: int, a: Arrival)
    requires IndexOk(index, now) && Known(index, node) && IsFork(fork, node, tip) && attach == Segment(node, fork)
    requires 0 <= i < |attach| && SameAhead(before, now, attach, i) && OnlyValidated(before, now)
    ensures var n := attach[i];
            && Known(index, n) && n.hash in now && !Above(n, tip)
            && (Passes(before, a, n) <==> if now[n.hash].valid && a.stored(n) then a.replays(n) else a.verdict(n).Pass?)
            && (!Passes(before, a, n) ==> !AllPass(before, a, attach))
    ensures Hashed(attach[i + 1..], now)
  {
    SegmentKnown(index, now, node, fork);
    var n := attach[i];
    assert KnownOn(index, now, node, n, fork.height + 1 + i);
    OffChain(node, fork, tip, n);
    SegmentHashes(index, now, node, fork);
  }

  lemma {:induction false} SegmentTail(node: Node, fork: Node, i: int)
    requires Proper(node) && Above(fork, node) && 0 <= i < |Segment(node, fork)|
    ensures Segment(node, Segment(node, fork)[i]) == Segment(node, fork)[i + 1..]
  {
    SegmentAt(node, fork, i);
    AboveAt(fork, node);
    AboveAt(Segment(node, fork)[i], node);
  }

  /** Blocks of one branch have different hashes: the index has one block for each. */
  lemma OtherHash(index: map<Hash, Node>, status: Statuses, node: Node, fork: Node, i: int, k: int)
    requires IndexOk(index, status) && Known(index, node) && Above(fork, node)
    requires 0 <= i < k < |Segment(node, fork)|
    ensures Segment(node, fork)[i].hash != Segment(node, fork)[k].hash
  {
    SegmentKnown(index, status, node, fork);
    assert KnownOn(index, status, node, Segment(node, fork)[i], fork.height + 1 + i);
    assert KnownOn(index, status, node, Segment(node, fork)[k], fork.height + 1 + k);
  }

  lemma Validated(index: map<Hash, Node>, before: Statuses, now: Statuses, after: Statuses, node: Node, fork: Node,
                  tip: Node, attach: seq<Node>, i: int, a: Arrival)
    requires IndexOk(index, now) && FlagsJustified(index, now) && BranchClean(now, tip)
    requires Known(index, node) && Above(fork, node) && attach == Segment(node, fork) && 0 <= i < |attach|
    requires Known(index, attach[i]) && attach[i].hash in now && a.verdict(attach[i]).Pass?
    requires after == now[attach[i].hash := now[attach[i].hash].(valid := true)]
    requires Sound(before, now, index, a) && OnlyValidated(before, now) && SameAhead(before, now, attach, i)
    ensures IndexOk(index, after) && FlagsJustified(index, after) && BranchClean(after, tip)
    ensures Sound(before, after, index, a) && OnlyValidated(before, after) && SameAhead(before, after, attach, i + 1)
  {
    hide *;
    ValidKeeps(index, now, after, tip, attach[i]);
    SoundValid(index, before, now, after, attach[i], a);
    AheadValid(index, before, now, after, node, fork, attach, i);
  }

  lemma SoundValid(index: map<Hash, Node>, before: Statuses, now: Statuses, after: Statuses, n: Node, a: Arrival)
    requires Known(index, n) && n.hash in now && a.verdict(n).Pass?
    requires after == now[n.hash := now[n.hash].(valid := true)]
    requires Sound(before, now, index, a) && OnlyValidated(before, now)
    ensures Sound(before, after, index, a) && OnlyValidated(before, after)
  {
  }

  lemma AheadValid(index: map<Hash, Node>, before: Statuses, now: Statuses, after: Statuses, node: Node, fork: Node,
                   attach: seq<Node>, i: int)
    requires IndexOk(index, now) && Known(index, node) && Above(fork, node) && attach == Segment(node, fork)
    requires 0 <= i < |attach| && attach[i].hash in now && SameAhead(before, now, attach, i)
    requires after == now[attach[i].hash := now[attach[i].hash].(valid := true)]
    ensures SameAhead(before, after, attach, i + 1)
  {
    forall k | i < k < |attach|
      ensures attach[k].hash != attach[i].hash
    {
      OtherHash(index, now, node, fork, i, k);
    }
    hide Segment, Above, IndexOk;
  }

  lemma ValidKeeps(index: map<Hash, Node>, now: Statuses, after: Statuses, tip: Node, n: Node)
    requires IndexOk(index, now) && FlagsJustified(index, now) && BranchClean(now, tip) && n.hash in now
    requires after == now[n.hash := now[n.hash].(valid := true)]
    ensures IndexOk(index, after) && FlagsJustified(index, after) && BranchClean(after, tip)
  {
    forall h | h in index && after[h].badAncestor
      ensures HasFailedAncestor(after, index[h])
    {
      FailedStays(now, after, index[h]);
    }
  }

  lemma PassedOne(before: Statuses, now: Statuses, after: Statuses, a: Arrival, attach: seq<Node>, i: int)
    requires 0 <= i < |attach| && AllPass(before, a, attach[..i]) && Passes(before, a, attach[i])
    requires SameAhead(before, after, attach, i) || SameAhead(before, after, attach, i + 1)
    ensures AllPass(before, a, attach[..i + 1]) && SameAhead(before, after, attach, i + 1)
  {
    assert attach[..i + 1] == attach[..i] + [attach[i]];
  }

  lemma OneHashed(n: Node, status: Statuses)
    requires n.hash in status
    ensures Hashed([n], status)
  {
  }

  lemma StillHashed(ns: seq<Node>, before: Statuses, after: Statuses)
    requires Hashed(ns, before) && before.Keys <= after.Keys
    ensures Hashed(ns, after)
  {
  }

  lemma FailKeeps(index: map<Hash, Node>, before: Statuses, now: Statuses, failed: Statuses, tip: Node, n: Node,
          a: Arrival)
    requires IndexOk(index, now) && FlagsJustified(index, now) && BranchClean(now, tip) && Known(index, tip)
    requires Known(index, n) && n.hash in now && !Above(n, tip) && a.verdict(n).RuleError?
    requires failed == now[n.hash := now[n.hash].(failed := true)] && Sound(before, now, index, a)
    ensures IndexOk(index, failed) && FlagsJustified(index, failed) && BranchClean(failed, tip)
    ensures Sound(before, failed, index, a) && KnownInvalid(failed[n.hash])
  {
    forall h | h in index && failed[h].badAncestor
      ensures HasFailedAncestor(failed, index[h])
    {
      FailedStays(now, failed, index[h]);
    }
    forall m | Above(m, tip)
      ensures m.hash in failed && !KnownInvalid(failed[m.hash])
    {
      AncestorsKnown(index, now, m, tip);
    }
  }

  lemma SoundMarks(index: map<Hash, Node>, before: Statuses, failed: Statuses, after: Statuses, ns: seq<Node>,
          a: Arrival)
    requires Sound(before, failed, index, a) && Marked(failed, after, ns)
    ensures Sound(before, after, index, a)
  {
    hide Listed;
  }

  /** The block that broke a rule is marked, and with it everything attached on top of it. */
  lemma RuleBroken(index: map<Hash, Node>, before: Statuses, now: Statuses, failed: Statuses, after: Statuses,
                   node: Node, fork: Node, tip: Node, attach: seq<Node>, i: int, a: Arrival)
    requires IndexOk(index, now) && FlagsJustified(index, now) && BranchClean(now, tip) && Known(index, tip)
    requires Known(index, node) && IsFork(fork, node, tip) && attach == Segment(node, fork) && 0 <= i < |attach|
    requires Known(index, attach[i]) && attach[i].hash in now && !Above(attach[i], tip)
    requires a.verdict(attach[i]).RuleError?
    requires failed == now[attach[i].hash := now[attach[i].hash].(failed := true)]
    requires Marked(failed, after, attach[i + 1..]) && Sound(before, now, index, a)
    ensures IndexOk(index, after) && FlagsJustified(index, after) && BranchClean(after, tip)
    ensures Sound(before, after, index, a)
  {
    NodeProper(index, now, node);
    ForkAbove(fork, node, tip);
    hide *;
    FailKeeps(index, before, now, failed, tip, attach[i], a);
    SegmentTail(node, fork, i);
    SegmentAt(node, fork, i);
    MarksJustified(index, failed, after, node, fork, tip, attach[i], attach[i + 1..]);
    SoundMarks(index, before, failed, after, attach[i + 1..], a);
  }

  lemma ForkAbove(fork: Node, node: Node, tip: Node)
    requires IsFork(fork, node, tip)
    ensures Above(fork, node) && Above(fork, tip)
  {
  }

  lemma SidesProper(index: map<Hash, Node>, status: Statuses, node: Node, fork: Node, tip: Node)
    requires IndexOk(index, status) && Known(index, node) && Known(index, tip) && IsFork(fork, node, tip) &&
        node != fork
    ensures forall i :: 0 <= i < |Reverse(Segment(tip, fork))| ==>
              Proper(Reverse(Segment(tip, fork))[i]) && Reverse(Segment(tip, fork))[i].parent.Some?
    ensures forall i :: 0 <= i < |Segment(node, fork)| ==> Proper(Segment(node, fork)[i])
    ensures Segment(node, fork) != [] && Segment(node, fork)[|Segment(node, fork)| - 1] == node
  {
    forall i | 0 <= i < |Segment(node, fork)|
      ensures Proper(Segment(node, fork)[i])
    {
      SegmentProper(node, fork, i);
    }
    forall i | 0 <= i < |Segment(tip, fork)|
      ensures Proper(Segment(tip, fork)[i]) && Segment(tip, fork)[i].parent.Some?
    {
      SegmentProper(tip, fork, i);
    }
    AboveAt(fork, node);
  }

  lemma SegmentProper(node: Node, fork: Node, i: int)
    requires Proper(node) && Above(fork, node) && 0 <= i < |Segment(node, fork)|
    ensures Proper(Segment(node, fork)[i]) && Segment(node, fork)[i].parent.Some?
  {
    SegmentAt(node, fork, i);
    AboveAt(fork, node);
    AboveAt(Segment(node, fork)[i], node);
  }

  /** The new branch is clean: below the fork it is the old one, above it was cleared and checked. */
  lemma BranchMoves(index: map<Hash, Node>, before: Statuses, after: Statuses, node: Node, fork: Node, tip: Node)
    requires IndexOk(index, after) && Known(index, node) && IsFork(fork, node, tip)
    requires Clear(before, node, fork) && OnlyValidated(before, after) && BranchClean(after, tip) && Proper(tip)
    ensures BranchClean(after, node)
  {
    ForkAbove(fork, node, tip);
    forall n | Above(n, node)
      ensures n.hash in after && !KnownInvalid(after[n.hash])
    {
      if n.height <= fork.height {
        BelowFork(n, fork, node, tip);
      }
    }
  }

  lemma BelowFork(n: Node, fork: Node, node: Node, tip: Node)
    requires Proper(node) && Proper(tip) && Above(n, node) && Above(fork, node) && Above(fork, tip)
    requires n.height <= fork.height
    ensures Above(n, tip)
  {
    hide Above, Proper;
    AboveEachOther(n, fork, node);
    AboveTrans(n, fork, tip);
  }

  lemma RootOf(index: map<Hash, Node>, status: Statuses, node: Node)
    requires IndexOk(index, status) && Known(index, node)
    ensures Known(index, Path(node)[0]) && Path(node)[0].parent.None?
  {
    PathAt(node, 0);
    var root := Path(node)[0];
    AboveAt(root, node);
    AncestorsKnown(index, status, root, node);
    assert |Path(root)| == 1;
  }

  lemma NewGenesis(view: ChainView, node: Node, index: map<Hash, Node>, status: Statuses, genesis: Option<Node>)
    requires view.Valid() && view.Tip() == Some(node) && IndexOk(index, status) && Known(index, node)
    requires OneRoot(index, genesis)
    ensures OneRoot(index, view.Genesis())
  {
    RootOf(index, status, node);
  }

  lemma ExtendFacts(index: map<Hash, Node>, status: Statuses, node: Node, tip: Node, a: Arrival)
    requires IndexOk(index, status) && Known(index, node) && node.parent == Some(tip)
    ensures Proper(node) && !Above(node, tip) && Sound(status, status, index, a)
  {
    AboveAt(node, tip);
  }

  lemma NewTip(index: map<Hash, Node>, before: Statuses, after: Statuses, node: Node, tip: Node)
    requires IndexOk(index, before) && FlagsJustified(index, before) && BranchClean(before, tip)
    requires Known(index, node) && node.parent == Some(tip) && node.hash in before && !KnownInvalid(before[node.hash])
    requires after == before[node.hash := before[node.hash].(valid := true)]
    ensures IndexOk(index, after) && FlagsJustified(index, after) && BranchClean(after, node)
  {
    ValidKeeps(index, before, after, tip, node);
    AboveParent(node);
  }

  lemma ParentByHash(index: map<Hash, Node>, status: Statuses, node: Node, tip: Node)
    requires IndexOk(index, status) && Known(index, node) && Known(index, tip) && node.parent.Some?
    ensures node.parent.value.hash == tip.hash <==> node.parent == Some(tip)
  {
  }

  lemma ForkOff(fork: Node, node: Node, tip: Node)
    requires IsFork(fork, node, tip) && !Above(node, tip)
    ensures node != fork
  {
  }

  lemma ForkUnique(f: Node, g: Node, node: Node, tip: Node)
    requires IsFork(f, node, tip) && IsFork(g, node, tip) && Proper(node)
    ensures f == g
  {
    AboveAt(f, node);
    AboveAt(g, node);
    AboveAt(f, g);
    AboveAt(g, f);
  }

  lemma SameJustified(index: map<Hash, Node>, status: Statuses, a: Arrival, node: Node)
    ensures Justified(status, status, index, a, node)
  {
  }

  lemma ExtendJustified(index: map<Hash, Node>, before: Statuses, after: Statuses, a: Arrival, node: Node)
    requires Known(index, node) && node.hash in before
    requires after == before || (after == before[node.hash := before[node.hash].(failed := true)] &&
        a.verdict(node).RuleError?)
             || (after == before[node.hash := before[node.hash].(valid := true)] &&
                 (before[node.hash].valid || a.verdict(node).Pass? || (a.fastAdd && a.hasVirtual && a.replays(node))))
    ensures Justified(before, after, index, a, node)
  {
  }

  lemma ReorgJustified(index: map<Hash, Node>, before: Statuses, mid: Statuses, after: Statuses, a: Arrival, node: Node)
    requires Flagged(before, mid, index) && Sound(mid, after, index, a)
    ensures Justified(before, after, index, a, node)
  {
    hide HasFailedAncestor;
  }

  lemma ReorgTakes(status: Statuses, node: Node, fork: Node, tip: Node, a: Arrival)
    requires IsFork(fork, node, tip) && Proper(node)
    ensures Outweighs(status, tip, node, a) <==>
            node.weight > tip.weight && tip.height != 0 && Clear(status, node, fork) &&
                AllPass(status, a, Segment(node, fork))
  {
    hide Clear, AllPass, Above, Segment, Proper;
    if Outweighs(status, tip, node, a) {
      var f :| IsFork(f, node, tip) && Clear(status, node, f) && AllPass(status, a, Segment(node, f));
      ForkUnique(f, fork, node, tip);
    }
  }

  lemma InStatus(index: map<Hash, Node>, status: Statuses, h: Hash)
    requires IndexOk(index, status) && h in index
    ensures h in status && Known(index, index[h]) && index[h].hash in status
  {
  }

  /** A new block on a known parent enters the index unflagged and off the best chain. */
  lemma Added(index: map<Hash, Node>, status: Statuses, prev: Node, node: Node, a: Arrival, tip: Node,
              genesis: Option<Node>)
    requires IndexOk(index, status) && FlagsJustified(index, status) && BranchClean(status, tip)
    requires Known(index, tip) && Known(index, prev) && OneRoot(index, genesis)
    requires a.hash !in index && 0 <= a.weight <= MAX_HEADER_WEIGHT
    requires node == NodeOf(prev, a)
    ensures var index' := index[a.hash := node];
            var status' := status[a.hash := Status(false, false, false)];
            && IndexOk(index', status') && FlagsJustified(index', status') && BranchClean(status', tip)
            && Known(index', tip) && Known(index', node) && OneRoot(index', genesis)
            && node.hash == a.hash && node.hash in status' && !KnownInvalid(status'[node.hash])
    ensures Proper(node) && node.parent == Some(prev) && prev.weight <= node.weight && !Above(node, tip)
  {
    NodeProper(index, status, prev);
    NewNodeFacts(prev, node, a);
    NotInStatus(index, status, a.hash);
    hide *;
    AddedIndex(index, status, prev, node, tip);
    AddedFlags(index, status, node);
    AddedBranch(index, status, node, tip);
    AddedRoot(index, genesis, node);
  }

  lemma NewNodeFacts(prev: Node, node: Node, a: Arrival)
    requires Proper(prev) && 0 <= a.weight <= MAX_HEADER_WEIGHT
    requires node == NodeOf(prev, a)
    ensures Proper(node) && node.hash == a.hash && node.parent == Some(prev) && prev.weight <= node.weight
  {
  }

  lemma NotInStatus(index: map<Hash, Node>, status: Statuses, h: Hash)
    requires IndexOk(index, status) && h !in index
    ensures h !in status && !KnownInvalid(status[h := Status(false, false, false)][h])
  {
  }

  lemma AddedIndex(index: map<Hash, Node>, status: Statuses, prev: Node, node: Node, tip: Node)
    requires IndexOk(index, status) && Known(index, prev) && Known(index, tip) && node.hash !in index
    requires Proper(node) && node.parent == Some(prev)
    ensures IndexOk(index[node.hash := node], status[node.hash := Status(false, false, false)])
    ensures Known(index[node.hash := node], tip) && Known(index[node.hash := node], node)
  {
  }

  lemma AddedRoot(index: map<Hash, Node>, genesis: Option<Node>, node: Node)
    requires OneRoot(index, genesis) && node.parent.Some?
    ensures OneRoot(index[node.hash := node], genesis)
  {
  }

  lemma AddedFlags(index: map<Hash, Node>, status: Statuses, node: Node)
    requires FlagsJustified(index, status) && node.hash !in index && node.hash !in status
    ensures FlagsJustified(index[node.hash := node], status[node.hash := Status(false, false, false)])
  {
    var index', status' := index[node.hash := node], status[node.hash := Status(false, false, false)];
    forall h | h in index' && h in status' && status'[h].badAncestor
      ensures HasFailedAncestor(status', index'[h])
    {
      FailedStays(status, status', index[h]);
    }
  }

  lemma AddedBranch(index: map<Hash, Node>, status: Statuses, node: Node, tip: Node)
    requires IndexOk(index, status) && BranchClean(status, tip) && Known(index, tip) && node.hash !in index
    ensures BranchClean(status[node.hash := Status(false, false, false)], tip) && !Above(node, tip)
  {
    if Above(node, tip) {
      AncestorsKnown(index, status, node, tip);
    }
  }

  lemma FlagsOfRest(index: map<Hash, Node>, index': map<Hash, Node>, before: Statuses, mid: Statuses, after: Statuses,
                    a: Arrival, node: Node)
    requires index' == index[a.hash := node] && a.hash !in index && Justified(mid, after, index', a, node)
    requires before.Keys == index.Keys && mid == before[a.hash := Status(false, false, false)]
    ensures forall h :: h in index && h in index' && h in before && h in after ==>
      && (before[h].failed ==> after[h].failed) && (before[h].valid ==> after[h].valid)
      && (after[h].failed && !before[h].failed ==> a.verdict(index'[h]).RuleError?)
  {
  }

  /** Every block that a new tip puts on the best chain was validated or replayed. */
  ghost predicate Attached(a: Arrival, tip: Node, node: Node) {
    forall n :: Above(n, node) && !Above(n, tip) ==> a.verdict(n).Pass? || a.replays(n)
  }

  lemma ExtendAnswered(status: Statuses, tip: Node, node: Node, takes: bool)
    requires node.parent == Some(tip)
    ensures Answered(status, tip, node, takes, takes, takes)
  {
  }

  lemma LightSide(emptyRound: bool, status: Statuses, tip: Node, node: Node, a: Arrival)
    requires node.parent != Some(tip) && node.weight <= tip.weight
    ensures StatusAfter(emptyRound, status, status, tip, node, a) && Answered(status, tip, node, false, false, true)
  {
  }

  lemma SideIs(before: Statuses, after: Statuses, tip: Node, node: Node, fork: Node, a: Arrival)
    requires !Clear(before, node, fork) ==> FlaggedAbove(before, after, node, fork)
    requires Clear(before, node, fork) && tip.height == 0 ==> after == before
    requires Clear(before, node, fork) && tip.height != 0 ==> CheckOutcome(before, after, a, Segment(node, fork))
    ensures SideStatus(before, after, tip, node, fork, a)
  {
  }

  lemma HeavySide(emptyRound: bool, before: Statuses, after: Statuses, tip: Node, node: Node, fork: Node, a: Arrival,
                  ok: bool)
    requires node.parent != Some(tip) && node.weight > tip.weight && IsFork(fork, node, tip) && Proper(node)
    requires SideStatus(before, after, tip, node, fork, a)
    requires ok <==> !Clear(before, node, fork) || (tip.height != 0 && AllPass(before, a, Segment(node, fork)))
    ensures StatusAfter(emptyRound, before, after, tip, node, a)
    ensures Answered(before, tip, node, TakesOver(emptyRound, before, tip, node, a), ok, ok)
  {
    hide Clear, AllPass, Segment, SideStatus, Proper, Above;
    ReorgTakes(before, node, fork, tip, a);
    if Blocked(before, tip, node) {
      var f :| IsFork(f, node, tip) && !Clear(before, node, f);
      ForkUnique(f, fork, node, tip);
    }
  }

  /** The parent is the highest invalid block when the block itself is not known to be invalid. */
  lemma ParentHighest(before: Statuses, after: Statuses, node: Node, fork: Node)
    requires Proper(node) && node.parent.Some? && node.parent.value.height > fork.height
    requires node.hash in before && node.parent.value.hash in before && KnownInvalid(before[node.parent.value.hash])
    requires Segment(node, node.parent.value) == [node] && Marked(before, after, [node])
    ensures !KnownInvalid(before[node.hash]) ==> FlaggedAbove(before, after, node, fork)
  {
    hide Marked, Segment;
    var p := node.parent.value;
    AboveParent(node);
    AboveSelf(node);
    forall n | Above(n, node) && n.height > p.height
      ensures n == node
    {
      if n != node {
        AboveAt(n, p);
      }
    }
    assert !KnownInvalid(before[node.hash]) ==> HighestInvalid(before, node, fork, p);
  }

  lemma HighestIs(before: Statuses, after: Statuses, node: Node, fork: Node, bad: Node)
    requires Above(bad, node) && bad.height > fork.height && bad.hash in before && KnownInvalid(before[bad.hash])
    requires Clear(before, node, bad) && Marked(before, after, Segment(node, bad))
    ensures FlaggedAbove(before, after, node, fork)
  {
  }

  lemma NoneValidated(status: Statuses, ns: seq<Node>)
    ensures Validate(status, ns[..0]) == status
  {
  }

  /** One more block found valid. */
  lemma ValidateNext(status: Statuses, ns: seq<Node>, i: int)
    requires 0 <= i < |ns|
    ensures var v := Validate(status, ns[..i]);
            ns[i].hash in v ==> Validate(status, ns[..i + 1]) == v[ns[i].hash := v[ns[i].hash].(valid := true)]
  {
    forall h
      ensures Listed(ns[..i + 1], h) <==> Listed(ns[..i], h) || h == ns[i].hash
    {
      ListedNext(ns, i, h);
    }
  }

  lemma ListedNext(ns: seq<Node>, i: int, h: Hash)
    requires 0 <= i < |ns|
    ensures Listed(ns[..i + 1], h) <==> Listed(ns[..i], h) || h == ns[i].hash
  {
    assert ns[..i + 1][i] == ns[i];
    if Listed(ns[..i], h) {
      var k :| 0 <= k < i && ns[..i][k].hash == h;
      assert ns[..i + 1][k].hash == h;
    }
    if Listed(ns[..i + 1], h) {
      var k :| 0 <= k < i + 1 && ns[..i + 1][k].hash == h;
      assert k < i ==> ns[..i][k].hash == h;
    }
  }

  /** If block i does not pass and breaks no rule, the flags stay; a block that is only replayed is valid. */
  lemma StopsAt(before: Statuses, now: Statuses, a: Arrival, ns: seq<Node>, i: int)
    requires 0 <= i < |ns| && AllPass(before, a, ns[..i]) && now == Validate(before, ns[..i])
    requires ns[i].hash in now && SameAhead(before, now, ns, i)
    ensures ns[i].hash in before && now[ns[i].hash] == before[ns[i].hash]
    ensures !Passes(before, a, ns[i]) && !Breaks(before, a, ns[i]) ==> CheckOutcome(before, now, a, ns)
    ensures Breaks(before, a, ns[i]) <==> !(now[ns[i].hash].valid && a.stored(ns[i])) && a.verdict(ns[i]).RuleError?
    ensures now[ns[i].hash].valid ==> now[ns[i].hash := now[ns[i].hash].(valid := true)] == now
  {
    hide AllPass, Validate;
    assert ns[i].hash in before by { ValidateKeys(before, ns[..i]); }
    if !Passes(before, a, ns[i]) && !Breaks(before, a, ns[i]) {
      assert PassUpTo(before, a, ns, i) && CheckedTo(before, now, a, ns, i);
    }
  }

  lemma ValidateKeys(status: Statuses, ns: seq<Node>)
    ensures Validate(status, ns).Keys == status.Keys
  {
  }

  lemma BrokenAt(before: Statuses, now: Statuses, after: Statuses, a: Arrival, ns: seq<Node>, i: int)
    requires 0 <= i < |ns| && AllPass(before, a, ns[..i]) && now == Validate(before, ns[..i]) && ns[i].hash in now
    requires Breaks(before, a, ns[i]) && !Passes(before, a, ns[i])
    requires Marked(now[ns[i].hash := now[ns[i].hash].(failed := true)], after, ns[i + 1..])
    ensures CheckOutcome(before, after, a, ns)
  {
    hide AllPass, Validate, Marked, Passes, Breaks;
    assert PassUpTo(before, a, ns, i) && CheckedTo(before, after, a, ns, i);
  }

  lemma AllChecked(before: Statuses, after: Statuses, a: Arrival, ns: seq<Node>)
    requires AllPass(before, a, ns) && after == Validate(before, ns)
    ensures CheckOutcome(before, after, a, ns)
  {
    hide AllPass, Validate;
    assert ns[..|ns|] == ns;
    assert PassUpTo(before, a, ns, |ns|) && CheckedTo(before, after, a, ns, |ns|);
  }

  lemma TakesMeaning(emptyRound: bool, status: Statuses, tip: Node, node: Node, a: Arrival)
    ensures node.parent != Some(tip) ==>
      (TakesOver(emptyRound, status, tip, node, a) <==> Outweighs(status, tip, node, a))
    ensures Outweighs(status, tip, node, a) ==> node.weight > tip.weight
  {
  }

  lemma TakesAttached(emptyRound: bool, status: Statuses, tip: Node, node: Node, a: Arrival)
    requires Proper(node) && Proper(tip)
    ensures TakesOver(emptyRound, status, tip, node, a) ==> Attached(a, tip, node)
  {
    if TakesOver(emptyRound, status, tip, node, a) {
      if node.parent == Some(tip) {
        ChildAttached(a, tip, node);
      } else {
        SideAttached(status, a, tip, node);
      }
    }
  }

  lemma ChildAttached(a: Arrival, tip: Node, node: Node)
    requires Proper(node) && node.parent == Some(tip) && (a.verdict(node).Pass? || a.replays(node))
    ensures Attached(a, tip, node)
  {
    AboveParent(node);
  }

  lemma SideAttached(status: Statuses, a: Arrival, tip: Node, node: Node)
    requires Proper(node) && Proper(tip) && Outweighs(status, tip, node, a)
    ensures Attached(a, tip, node)
  {
    hide Path, Proper, Above, Segment, Clear;
    var fork :| IsFork(fork, node, tip) && AllPass(status, a, Segment(node, fork));
    forall n | Above(n, node) && !Above(n, tip)
      ensures a.verdict(n).Pass? || a.replays(n)
    {
      if n.height <= fork.height {
        AboveEachOther(n, fork, node);
        AboveTrans(n, fork, tip);
      } else {
        InSegment(n, node, fork);
        PassesIn(status, a, Segment(node, fork), n);
      }
    }
  }

  lemma PassesIn(status: Statuses, a: Arrival, ns: seq<Node>, n: Node)
    requires AllPass(status, a, ns) && n in ns
    ensures a.verdict(n).Pass? || a.replays(n)
  {
    var k :| 0 <= k < |ns| && ns[k] == n;
    assert Passes(status, a, ns[k]);
  }

  lemma InSegment(n: Node, node: Node, fork: Node)
    requires Proper(node) && Above(n, node) && Above(fork, node) && n.height > fork.height
    ensures n in Segment(node, fork)
  {
    AboveAt(n, node);
    AboveAt(fork, node);
    assert Segment(node, fork)[n.height - fork.height - 1] == n;
  }

  /** All branches have the genesis block as their root. */
  lemma SameRoot(index: map<Hash, Node>, status: Statuses, m: Node, n: Node, genesis: Option<Node>)
    requires IndexOk(index, status) && Known(index, m) && Known(index, n) && OneRoot(index, genesis)
    ensures Path(m)[0] == Path(n)[0] && Proper(m) && Proper(n)
  {
    RootKnown(index, status, m);
    RootKnown(index, status, n);
  }

  lemma RootKnown(index: map<Hash, Node>, status: Statuses, n: Node)
    requires IndexOk(index, status) && Known(index, n)
    ensures Known(index, Path(n)[0]) && Path(n)[0].parent.None?
  {
    var root := Path(n)[0];
    PathAt(n, 0);
    AboveAt(root, n);
    AncestorsKnown(index, status, root, n);
    assert |Path(root)| == 1;
  }

  lemma OrderedIfBefore(tip: Node, node: Node)
    requires Proper(tip) && Proper(node) && Path(tip)[0] == Path(node)[0]
    ensures Ordered(tip) ==> (Ordered(node) <==> forall n :: Above(n, node) && !Above(n, tip) ==> Follows(n))
  {
    hide Ordered, Follows, Above, Path, Proper;
    if Ordered(tip) {
      OrderedAgain(tip, node);
    }
  }

  lemma NodeIs(prev: Node, a: Arrival, round: int)
    requires round == if a.round < prev.round then prev.round else a.round
    ensures NewNode(Some(prev), a.hash, a.weight, round, a.slot, a.time) == NodeOf(prev, a)
    ensures NodeOf(prev, a).parent == Some(prev)
  {
  }

  lemma Unmoved(a: Arrival, tip: Node)
    requires Proper(tip)
    ensures Attached(a, tip, tip) && tip.parent != Some(tip)
    ensures Ordered(tip) ==> (Ordered(tip) <==> forall n :: Above(n, tip) && !Above(n, tip) ==> Follows(n))
  {
  }

  /** Each tip is the one before, its child, or strictly heavier. */
  ghost predicate Progresses(trace: seq<Snapshot>) {
    forall i :: 0 <= i < |trace| - 1 ==> Rises(trace[i].tip, trace[i + 1].tip)
  }

  ghost predicate Rises(s: Node, t: Node) {
    t == s || (t.parent == Some(s) && s.weight <= t.weight) || s.weight < t.weight
  }

  /** Blocks that are already known are refused, as ProcessBlock does; every other one makes a step. */
  ghost predicate Processed(emptyRound: bool, before: Snapshot, a: Arrival, after: Snapshot) {
    if a.hash in before.index then after == before else Stepped(emptyRound, before, a, after)
  }

  ghost predicate IsRun(emptyRound: bool, trace: seq<Snapshot>, arrivals: seq<Arrival>) {
    |trace| == |arrivals| + 1 &&
    forall i :: 0 <= i < |arrivals| ==> Processed(emptyRound, trace[i], arrivals[i], trace[i + 1])
  }

  lemma {:induction false} NeverLighter(trace: seq<Snapshot>, i: nat, j: nat)
    requires Progresses(trace) && i <= j < |trace|
    ensures trace[i].tip.weight <= trace[j].tip.weight
    decreases j
  {
    if i < j {
      NeverLighter(trace, i, j - 1);
      assert Rises(trace[j - 1].tip, trace[j - 1 + 1].tip);
    }
  }

  /**
   Every run: after any sequence of blocks, with any verdicts, the invariant holds, every block made exactly
   the step it should, and the tips the chain went through never lost weight.
   */
  method Run(c: BlockChain, arrivals: seq<Arrival>) returns (ghost trace: seq<Snapshot>)
    requires c.Valid() && forall i :: 0 <= i < |arrivals| ==> 0 <= arrivals[i].weight <= MAX_HEADER_WEIGHT
    modifies c, c.bestChain
    ensures c.Valid() && IsRun(c.emptyRound, trace, arrivals)
    ensures trace[0] == old(c.Now()) && trace[|arrivals|] == c.Now()
    ensures Progresses(trace) && old(c.Tip()).weight <= c.Tip().weight
  {
    hide *;
    c.Parts();
    c.NowIs();
    trace := [c.Now()];
    assert arrivals[..0] == [];
    RunStart(c.emptyRound, c.Now());
    for i := 0 to |arrivals|
      invariant c.Valid() && |trace| == i + 1 && trace[0] == old(c.Now()) && Progresses(trace)
      invariant c.bestChain.Tip().Some? && trace[i] == c.Now() && IsRun(c.emptyRound, trace, arrivals[..i])
    {
      c.Parts();
      c.NowIs();
      if arrivals[i].hash !in c.index {
        var main, ok := c.MaybeAcceptBlock(arrivals[i]);
        c.Parts();
        c.NowIs();
        OneStep(c.emptyRound, trace[i], arrivals[i], c.Now());
      } else {
        NoStep(c.emptyRound, trace[i], arrivals[i]);
      }
      assert arrivals[..i + 1] == arrivals[..i] + [arrivals[i]];
      RunNext(c.emptyRound, trace, arrivals[..i], arrivals[i], c.Now());
      trace := trace + [c.Now()];
    }
    assert arrivals[..|arrivals|] == arrivals;
    c.Parts();
    c.NowIs();
    NeverLighter(trace, 0, |arrivals|);
  }

  lemma OneStep(emptyRound: bool, before: Snapshot, a: Arrival, after: Snapshot)
    requires a.hash !in before.index && Stepped(emptyRound, before, a, after)
    requires before.tip.weight <= after.tip.weight
    requires after.tip != before.tip ==> after.tip.parent == Some(before.tip) || after.tip.weight > before.tip.weight
    ensures Processed(emptyRound, before, a, after) && Rises(before.tip, after.tip)
  {
  }

  lemma NoStep(emptyRound: bool, s: Snapshot, a: Arrival)
    requires a.hash in s.index
    ensures Processed(emptyRound, s, a, s) && Rises(s.tip, s.tip)
  {
  }

  lemma RunStart(emptyRound: bool, s: Snapshot)
    ensures IsRun(emptyRound, [s], []) && Progresses([s])
  {
  }

  lemma RunNext(emptyRound: bool, trace: seq<Snapshot>, arrivals: seq<Arrival>, a: Arrival, s: Snapshot)
    requires IsRun(emptyRound, trace, arrivals) && Progresses(trace)
    requires Processed(emptyRound, trace[|arrivals|], a, s) && Rises(trace[|arrivals|].tip, s.tip)
    ensures IsRun(emptyRound, trace + [s], arrivals + [a]) && Progresses(trace + [s])
  {
    hide Processed, Rises;
  }

  // ------------------------------------------------------------------ a branch out of order

  const ROOT: Node := Node(None, 0, 0, 0, 0, 0, 0)

  /** The best chain: one block on the genesis block. */
  const BEST: Node := NewNode(Some(ROOT), 1, 1, 1, 1, 0)

  /** A side chain of the same weight. */
  const SIDE: Node := NewNode(Some(ROOT), 2, 1, 1, 2, 0)

  const NEW: Status := Status(false, false, false)

  /** A block on the side chain that arrived before its parent, and whose round and slot nobody compared. */
  function Late(slot: int): Arrival {
    Arrival(3, 2, 1, 1, slot, 0, true, true, false, false, n => Pass, n => false, n => false)
  }

  /** Two branches from one root. */
  lemma TwoBranches(root: Node, best: Node, side: Node, node: Node)
    requires root.parent.None? && best.parent == Some(root) && side.parent == Some(root) && node.parent == Some(side)
    ensures Path(node) == [root, side, node] && Above(side, node) && side != node
    ensures Proper(root) && root.height == 0 && best !in {root, side, node} ==>
      IsFork(root, node, best) && Segment(node, root) == [side, node]
  {
    assert Path(root) == [root] && Path(side) == [root, side];
    assert Path(node)[1] == side && Path(node)[1..] == [side, node];
    assert Path(best) == [root, best] && |Path(side)| != |Path(node)|;
    assert forall g :: Above(g, node) && Above(g, best) && best !in {root, side, node} ==> g == root;
  }

  lemma LateNodes(slot: int)
    ensures var node := NodeOf(SIDE, Late(slot));
            && ROOT.parent.None? && BEST.parent == Some(ROOT) && SIDE.parent == Some(ROOT) && node.parent == Some(SIDE)
            && Proper(ROOT) && ROOT.height == 0 && BEST !in {ROOT, SIDE, node}
            && node.weight == 2 && BEST.weight == 1 && BEST.height == 1
            && ROOT.hash == 0 && SIDE.hash == 2 && node.hash == 3
            && Is(ROOT, 0, 0) && Is(BEST, 1, 1) && Is(SIDE, 1, 2) && Is(node, 1, slot)
    ensures forall n :: Late(slot).verdict(n).Pass? && !Late(slot).stored(n)
  {
  }

  lemma LateOrder(root: Node, best: Node, side: Node, node: Node, slot: int)
    requires root.parent.None? && best.parent == Some(root) && side.parent == Some(root) && node.parent == Some(side)
    requires Is(root, 0, 0) && Is(best, 1, 1) && Is(side, 1, 2) && Is(node, 1, slot)
    ensures Ordered(best) && (Ordered(node) <==> slot > 2)
    ensures slot == 2 ==> Is(side, node.round, node.slot)
    ensures slot < 2 ==> Search(node, side.round, side.slot).None?
  {
    assert Ordered(root) && Ordered(side);
  }

  /**
   Its slot may be anything, and still it takes over. With the slot of its parent, or an earlier one, the
   best chain is out of order: two blocks have one round and slot, or the parent is not found by its own.
   */
  lemma LateTakesOver(slot: int)
    ensures var node := NodeOf(SIDE, Late(slot));
            && Outweighs(map[0 := NEW, 1 := NEW, 2 := NEW, 3 := NEW], BEST, node, Late(slot))
            && Ordered(BEST) && (Ordered(node) <==> slot > 2)
            && Above(SIDE, node) && SIDE != node && (slot == 2 ==> Is(SIDE, node.round, node.slot))
            && (slot < 2 ==> Search(node, SIDE.round, SIDE.slot).None?)
  {
    hide *;
    var node := NodeOf(SIDE, Late(slot));
    LateNodes(slot);
    TwoBranches(ROOT, BEST, SIDE, node);
    LateOrder(ROOT, BEST, SIDE, node, slot);
    LateOutweighs(map[0 := NEW, 1 := NEW, 2 := NEW, 3 := NEW], ROOT, BEST, SIDE, node, Late(slot));
  }

  lemma LateOutweighs(status: Statuses, root: Node, best: Node, side: Node, node: Node, a: Arrival)
    requires IsFork(root, node, best) && Path(node) == [root, side, node] && Segment(node, root) == [side, node]
    requires node.weight > best.weight && best.height != 0 && forall n :: a.verdict(n).Pass? && !a.stored(n)
    requires forall n :: n in [root, side, node] ==> n.hash in status && status[n.hash] == NEW
    ensures Outweighs(status, best, node, a)
  {
    hide IsFork, Segment;
    assert Clear(status, node, root);
    assert AllPass(status, a, Segment(node, root));
  }
}
