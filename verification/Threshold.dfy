/**
 Threshold states of rule changes (blockchain/thresholdstate.go, the "State transitions" section of
 BIP 9): the memoised computation against the recursive definition over confirmation windows.
 */
module Threshold {
  import opened Common
  import opened BlockTree

  datatype State = Defined | Started | LockedIn | Active | Failed

  const MEDIAN_TIME_BLOCKS: int := 11

  /** A rule change; a vote that cannot be read is None. */
  datatype Checker = Checker(begin: int, end: int, threshold: nat, window: int, vote: Node -> Option<bool>)

  // ------------------------------------------------------------------ past median time

  /** The timestamps of n and up to k - 1 blocks before it. */
  function Times(n: Node, k: nat): (r: seq<int>)
    requires k > 0
    ensures 0 < |r| <= k
    decreases k
  {
    match n.parent
    case None => [n.time]
    case Some(p) => if k == 1 then [n.time] else [n.time] + Times(p, k - 1)
  }

  function Insert(x: int, s: seq<int>): seq<int> {
    if s == [] || x <= s[0] then [x] + s else [s[0]] + Insert(x, s[1..])
  }

  function Sorted(s: seq<int>): (r: seq<int>) {
    if s == [] then [] else Insert(s[0], Sorted(s[1..]))
  }

  predicate Ascending(s: seq<int>) {
    forall i, j :: 0 <= i < j < |s| ==> s[i] <= s[j]
  }

  ghost predicate AtLeast(s: seq<int>, z: int) {
    forall i :: 0 <= i < |s| ==> z <= s[i]
  }

  /** How many of s are below x, and how many are not above it. */
  function Below(s: seq<int>, x: int): nat {
    if s == [] then 0 else (if s[0] < x then 1 else 0) + Below(s[1..], x)
  }

  function UpTo(s: seq<int>, x: int): nat { Below(s, x + 1) }

  lemma {:induction false} InsertKeeps(y: int, s: seq<int>, x: int)
    requires Ascending(s)
    ensures Ascending(Insert(y, s)) && |Insert(y, s)| == |s| + 1
    ensures Below(Insert(y, s), x) == Below(s, x) + if y < x then 1 else 0
    ensures forall z :: z <= y && AtLeast(s, z) ==> AtLeast(Insert(y, s), z)
  {
    if s == [] || y <= s[0] {
      assert ([y] + s)[1..] == s;
    } else {
      InsertKeeps(y, s[1..], x);
      assert AtLeast(s[1..], s[0]);
      var r := Insert(y, s[1..]);
      assert ([s[0]] + r)[1..] == r;
    }
  }

  lemma {:induction false} SortedIs(s: seq<int>, x: int)
    ensures Ascending(Sorted(s)) && |Sorted(s)| == |s| && Below(Sorted(s), x) == Below(s, x)
  {
    if s != [] {
      SortedIs(s[1..], x);
      InsertKeeps(s[0], Sorted(s[1..]), x);
    }
  }

  /** In a sorted sequence at most k are below entry k, and more than k are not above it. */
  lemma {:induction false} Rank(s: seq<int>, k: nat)
    requires Ascending(s) && k < |s|
    ensures Below(s, s[k]) <= k < UpTo(s, s[k])
    decreases |s|
  {
    if k == 0 {
      NoneBelow(s, s[0]);
    } else {
      assert s[1..][k - 1] == s[k];
      Rank(s[1..], k - 1);
    }
  }

  lemma {:induction false} NoneBelow(s: seq<int>, x: int)
    requires forall i :: 0 <= i < |s| ==> x <= s[i]
    ensures Below(s, x) == 0
  {
    if s != [] {
      NoneBelow(s[1..], x);
    }
  }

  /** The past median time of n. */
  function MedianTime(n: Node): int {
    var t := Times(n, MEDIAN_TIME_BLOCKS);
    SortedIs(t, 0);
    Sorted(t)[|t| / 2]
  }

  /** The times that count are those of the node and up to ten blocks before it. */
  lemma {:induction false} TimesAre(n: Node, k: nat)
    requires Proper(n) && k > 0
    ensures |Path(n)| == n.height + 1 && |Times(n, k)| == Min(k, n.height + 1)
    ensures forall i :: 0 <= i < |Times(n, k)| ==> Times(n, k)[i] == Path(n)[n.height - i].time
    decreases k
  {
    PathAt(n, n.height);
    if k > 1 && n.parent.Some? {
      var p := n.parent.value;
      TimesAre(p, k - 1);
      assert Path(n) == Path(p) + [n];
    }
  }

  /** It is a median: at most half of the times are earlier, and more than half are not later. */
  lemma MedianRank(n: Node)
    ensures var t := Times(n, 11);
            Below(t, MedianTime(n)) <= |t| / 2 < UpTo(t, MedianTime(n))
  {
    var t := Times(n, MEDIAN_TIME_BLOCKS);
    var m := MedianTime(n);
    SortedIs(t, m);
    SortedIs(t, m + 1);
    Rank(Sorted(t), |t| / 2);
  }

  /** What the timestamps from iter on add, when i are already collected. */
  function Remaining(iter: Option<Node>, i: nat): seq<int> {
    if iter.Some? && i < MEDIAN_TIME_BLOCKS then Times(iter.value, MEDIAN_TIME_BLOCKS - i) else []
  }

  lemma Collect(n: Node, i: nat, done: seq<int>)
    requires i < MEDIAN_TIME_BLOCKS
    ensures done + Remaining(Some(n), i) == (done + [n.time]) + Remaining(n.parent, i + 1)
  {
    assert Remaining(Some(n), i) == [n.time] + Remaining(n.parent, i + 1);
  }

  /** CalcPastMedianTime: collects the timestamps, sorts them and takes the middle one. */
  method CalcPastMedianTime(node: Node) returns (r: int)
    ensures r == MedianTime(node)
  {
    var timestamps: seq<int> := [];
    var iter := Some(node);
    ghost var all := Remaining(iter, 0);
    assert [] + all == all;
    assert all == Times(node, MEDIAN_TIME_BLOCKS);
    var i := 0;
    while i < MEDIAN_TIME_BLOCKS && iter.Some?
      invariant 0 <= i <= MEDIAN_TIME_BLOCKS && all == timestamps + Remaining(iter, i)
    {
      hide Remaining;
      Collect(iter.value, i, timestamps);
      timestamps := timestamps + [iter.value.time];
      iter := iter.value.parent;
      i := i + 1;
    }
    assert timestamps + [] == timestamps;
    SortedIs(timestamps, 0);
    var sorted := Sorted(timestamps);
    r := sorted[|sorted| / 2];
  }

  // ------------------------------------------------------------------ the recursive definition

  /** How many of the k blocks ending with n voted for the change. */
  function Votes(n: Node, k: nat, c: Checker): Option<nat>
    decreases k
  {
    if k == 0 then Some(0)
    else
      var v := c.vote(n);
      if v.None? then None
      else
        var rest := if k == 1 || n.parent.None? then Some(0) else Votes(n.parent.value, k - 1, c);
        if rest.None? then None else Some(rest.value + if v.value then 1 else 0)
  }

  /** The heights of the k blocks ending with n that voted for the change. */
  ghost function Yes(n: Node, k: nat, c: Checker): set<int>
    requires Proper(n) && k <= n.height + 1
  {
    PathAt(n, n.height);
    set h | n.height - k < h <= n.height && c.vote(Path(n)[h]) == Some(true)
  }

  ghost predicate Readable(n: Node, k: nat, c: Checker)
    requires Proper(n) && k <= n.height + 1
  {
    PathAt(n, n.height);
    forall h :: n.height - k < h <= n.height ==> c.vote(Path(n)[h]).Some?
  }

  /** Votes counts the blocks that voted for the change, if every vote of the window can be read. */
  lemma {:induction false} VotesCount(n: Node, k: nat, c: Checker)
    requires Proper(n) && k <= n.height + 1
    ensures Votes(n, k, c).Some? <==> Readable(n, k, c)
    ensures Readable(n, k, c) ==> Votes(n, k, c) == Some(|Yes(n, k, c)|)
    decreases k
  {
    PathAt(n, n.height);
    if k == 0 {
      assert Yes(n, k, c) == {};
    } else if k == 1 {
      assert Path(n)[n.height] == n;
      assert Yes(n, k, c) == if c.vote(n) == Some(true) then {n.height} else {};
    } else {
      var p := n.parent.value;
      VotesCount(p, k - 1, c);
      YesNext(n, k, c);
      ReadableNext(n, k, c);
    }
  }

  /** The path of a node is that of its parent and the node. */
  lemma ParentPath(n: Node, h: int)
    requires Proper(n) && n.parent.Some? && 0 <= h <= n.height
    ensures var p := n.parent.value;
            && Proper(p) && n.height == p.height + 1 && |Path(n)| == n.height + 1 && |Path(p)| == p.height + 1
            && Path(n)[h] == if h <= p.height then Path(p)[h] else n
  {
    PathAt(n, n.height);
    PathAt(n.parent.value, n.parent.value.height);
  }

  lemma YesNext(n: Node, k: nat, c: Checker)
    requires Proper(n) && 1 < k <= n.height + 1 && n.parent.Some?
    ensures Proper(n.parent.value) && k - 1 <= n.parent.value.height + 1
    ensures |Yes(n, k, c)| == |Yes(n.parent.value, k - 1, c)| + if c.vote(n) == Some(true) then 1 else 0
  {
    ParentPath(n, n.height);
    hide Path, Proper;
    var all, rest := Yes(n, k, c), Yes(n.parent.value, k - 1, c);
    forall h: int
      ensures h in all <==> h in rest || (h == n.height && c.vote(n) == Some(true))
    {
      if 0 <= h <= n.height {
        ParentPath(n, h);
      }
    }
    assert n.height !in rest;
    assert all == if c.vote(n) == Some(true) then rest + {n.height} else rest;
  }

  lemma ReadableNext(n: Node, k: nat, c: Checker)
    requires Proper(n) && 1 < k <= n.height + 1 && n.parent.Some?
    ensures Proper(n.parent.value) && k - 1 <= n.parent.value.height + 1
    ensures Readable(n, k, c) <==> Readable(n.parent.value, k - 1, c) && c.vote(n).Some?
  {
    ParentPath(n, n.height);
    hide Path, Proper;
    forall h | 0 <= h <= n.height
      ensures Path(n)[h] == if h < n.height then Path(n.parent.value)[h] else n
    {
      ParentPath(n, h);
    }
  }

  /** One transition, at the last block n of a window. */
  function Next(s: State, n: Node, c: Checker): Option<State>
    requires c.window > 0
  {
    match s
    case Defined =>
      if MedianTime(n) >= c.end then Some(Failed) else if MedianTime(n) >= c.begin then Some(Started) else Some(Defined)
    case Started =>
      if MedianTime(n) >= c.end then Some(Failed)
      else
        var v := Votes(n, c.window, c);
        if v.None? then None else if v.value >= c.threshold then Some(LockedIn) else Some(Started)
    case LockedIn => Some(Active)
    case Active => Some(Active)
    case Failed => Some(Failed)
  }

  predicate IsEnd(n: Node, c: Checker)
    requires c.window > 0
  {
    n.height >= 0 && (n.height + 1) % c.window == 0
  }

  /** The last block of the window before the one that ends with n. */
  function EndBefore(n: Node, c: Checker): Option<Node> {
    if 0 <= n.height - c.window < |Path(n)| then Some(Path(n)[n.height - c.window]) else None
  }

  lemma EndBeforeIs(n: Node, c: Checker)
    requires Proper(n) && c.window > 0 && IsEnd(n, c)
    ensures EndBefore(n, c).Some? <==> n.height >= c.window
    ensures EndBefore(n, c).Some? ==>
      var m := EndBefore(n, c).value;
      Proper(m) && m.height == n.height - c.window && IsEnd(m, c) && Above(m, n)
  {
    PathAt(n, n.height - c.window);
    if n.height >= c.window {
      AboveAt(Path(n)[n.height - c.window], n);
      EndMod(n.height + 1, c.window);
    }
  }

  lemma EndMod(x: int, w: int)
    requires w > 0 && x % w == 0
    ensures (x - w) % w == 0
  {
    assert x - w == w * (x / w - 1);
    MulMod(x / w - 1, w);
  }

  lemma MulMod(k: int, w: int)
    requires w > 0
    ensures (w * k) % w == 0
  {
    var x := w * k;
    NoMultiple(w, k - x / w, x % w);
  }

  /**
   The state after the window that ends with n, without any cache. None: a vote could not be read.
   A window whose median time is before the start is Defined whatever came before it.
   */
  function StateAfter(n: Node, c: Checker): Option<State>
    requires Proper(n) && c.window > 0 && IsEnd(n, c)
    decreases n.height
  {
    EndBeforeIs(n, c);
    if MedianTime(n) < c.begin then Some(Defined)
    else
      var before := if EndBefore(n, c).Some? then StateAfter(EndBefore(n, c).value, c) else Some(Defined);
      if before.None? then None else Next(before.value, n, c)
  }

  /** The last block of the window before the block that follows prev. */
  function WindowEnd(prev: Node, c: Checker): Node
    requires c.window > 0 && Proper(prev) && prev.height + 1 >= c.window
  {
    var h := prev.height - (prev.height + 1) % c.window;
    PathAt(prev, h);
    Path(prev)[h]
  }

  lemma WindowEndIs(prev: Node, c: Checker)
    requires c.window > 0 && Proper(prev) && prev.height + 1 >= c.window
    ensures var e := WindowEnd(prev, c);
            Proper(e) && IsEnd(e, c) && Above(e, prev) && e.height == prev.height - (prev.height + 1) % c.window
  {
    var h := prev.height - (prev.height + 1) % c.window;
    PathAt(prev, h);
    AboveAt(Path(prev)[h], prev);
    Floor(prev.height + 1, c.window);
  }

  lemma Floor(x: int, w: int)
    requires w > 0 && x >= w
    ensures (x - x % w) % w == 0 && x - x % w >= w
  {
    assert x - x % w == w * (x / w);
    MulMod(x / w, w);
  }

  /** The state of the block after prev. */
  function StateFor(prev: Option<Node>, c: Checker): Option<State>
    requires c.window > 0 && (prev.Some? ==> Proper(prev.value))
  {
    if prev.None? || prev.value.height + 1 < c.window then Some(Defined)
    else
      WindowEndIs(prev.value, c);
      StateAfter(WindowEnd(prev.value, c), c)
  }

  // ------------------------------------------------------------------ what the states guarantee

  /** All blocks of a window get the same state. */
  lemma SameInWindow(prev: Node, c: Checker)
    requires c.window > 0 && Proper(prev) && prev.parent.Some? && (prev.height + 1) % c.window != 0
    ensures StateFor(Some(prev), c) == StateFor(prev.parent, c)
  {
    var p := prev.parent.value;
    PathAt(prev, prev.height);
    PathAt(p, p.height);
    if prev.height + 1 >= c.window {
      StepMod(prev.height, c.window);
      var h := prev.height - (prev.height + 1) % c.window;
      assert Path(prev)[h] == Path(p)[h];
    }
  }

  /** Without a multiple at x + 1 the remainder just grows by one, so both windows start at the same height. */
  lemma StepMod(x: int, w: int)
    requires w > 0 && x >= 0 && (x + 1) % w != 0 && x + 1 >= w
    ensures (x + 1) % w == x % w + 1 && x >= w
  {
    var q, r := x / w, x % w;
    assert x + 1 == w * q + (r + 1);
    if r + 1 == w {
      assert x + 1 == w * (q + 1);
      MulMod(q + 1, w);
    } else {
      DivUnique(x + 1, w, q, r + 1);
    }
  }

  /** How the state moves from one window to the next, exactly. */
  lemma Transition(n: Node, c: Checker)
    requires Proper(n) && c.window > 0 && IsEnd(n, c) && EndBefore(n, c).Some?
    requires Proper(EndBefore(n, c).value) && IsEnd(EndBefore(n, c).value, c)
    ensures var s := StateAfter(EndBefore(n, c).value, c);
            && (s == Some(LockedIn) ==> (StateAfter(n, c) == Some(Active) <==> c.begin <= MedianTime(n)))
            && (s == Some(Active) ==> (StateAfter(n, c) == Some(Active) <==> c.begin <= MedianTime(n)))
            && (s == Some(Failed) ==> (StateAfter(n, c) == Some(Failed) <==> c.begin <= MedianTime(n)))
            && (MedianTime(n) < c.begin ==> StateAfter(n, c) == Some(Defined))
  {
  }

  /** The state before the window that ends with n. */
  ghost function Came(n: Node, c: Checker): Option<State>
    requires Proper(n) && c.window > 0 && IsEnd(n, c)
  {
    EndBeforeIs(n, c);
    if EndBefore(n, c).Some? then StateAfter(EndBefore(n, c).value, c) else Some(Defined)
  }

  /**
   When a window ends in which state: in terms of its median time, the state before it, and how many of its
   blocks voted for the change.
   */
  lemma StateIff(n: Node, c: Checker)
    requires Proper(n) && c.window > 0 && IsEnd(n, c)
    ensures c.window <= n.height + 1
    ensures var t, s, came := MedianTime(n), StateAfter(n, c), Came(n, c);
            && (s == Some(Started) <==>
                  c.begin <= t < c.end &&
                  (came == Some(Defined) ||
                   (came == Some(Started) && Readable(n, c.window, c) && |Yes(n, c.window, c)| < c.threshold)))
            && (s == Some(LockedIn) <==>
                  c.begin <= t < c.end && came == Some(Started) && Readable(n, c.window, c) &&
                  |Yes(n, c.window, c)| >= c.threshold)
            && (s == Some(Active) <==> c.begin <= t && came in {Some(LockedIn), Some(Active)})
            && (s == Some(Failed) <==>
                  c.begin <= t && (came == Some(Failed) || (came in {Some(Defined), Some(Started)} && c.end <= t)))
            && (s == Some(Defined) <==> t < c.begin)
  {
    Floor(n.height + 1, c.window);
    VotesCount(n, c.window, c);
    hide Votes, Readable, Yes, MedianTime, Path;
  }

  /** Before the first window is over, every change is only defined; after that, the last finished window decides. */
  lemma StateForIs(prev: Option<Node>, c: Checker)
    requires c.window > 0 && (prev.Some? ==> Proper(prev.value))
    ensures prev.None? || prev.value.height + 1 < c.window ==> StateFor(prev, c) == Some(Defined)
    ensures prev.Some? && prev.value.height + 1 >= c.window ==>
      exists e :: LastEnd(e, prev.value, c) && StateFor(prev, c) == StateAfter(e, c)
  {
    if prev.Some? && prev.value.height + 1 >= c.window {
      WindowEndIs(prev.value, c);
      assert LastEnd(WindowEnd(prev.value, c), prev.value, c);
    }
  }

  /** e ends the last window that is over at prev. */
  ghost predicate LastEnd(e: Node, prev: Node, c: Checker)
    requires c.window > 0
  {
    && Proper(e) && Above(e, prev) && IsEnd(e, c) && prev.height - c.window < e.height <= prev.height
  }

  /** Median times do not fall from the end of one window to the end of the next. */
  ghost predicate MediansRise(n: Node, c: Checker)
    requires Proper(n) && c.window > 0 && IsEnd(n, c)
    decreases n.height
  {
    EndBeforeIs(n, c);
    EndBefore(n, c).Some? ==>
      MedianTime(EndBefore(n, c).value) <= MedianTime(n) && MediansRise(EndBefore(n, c).value, c)
  }

  /** Windows ending at e or later on the branch of n. */
  ghost predicate LaterEnd(e: Node, n: Node, c: Checker)
    requires Proper(n) && c.window > 0 && IsEnd(n, c)
    decreases n.height
  {
    EndBeforeIs(n, c);
    n == e || (EndBefore(n, c).Some? && LaterEnd(e, EndBefore(n, c).value, c))
  }

  /** The windows after e, up to the one that ends with n, all have the given state. */
  ghost predicate Keeps(e: Node, n: Node, c: Checker, s: State)
    requires Proper(n) && c.window > 0 && IsEnd(n, c)
    decreases n.height
  {
    EndBeforeIs(n, c);
    n == e || (StateAfter(n, c) == Some(s) && EndBefore(n, c).Some? && Keeps(e, EndBefore(n, c).value, c, s))
  }

  /** At the ends of these windows the median time is not before the start. */
  ghost predicate Reached(e: Node, n: Node, c: Checker)
    requires Proper(n) && c.window > 0 && IsEnd(n, c)
    decreases n.height
  {
    EndBeforeIs(n, c);
    n == e || (c.begin <= MedianTime(n) && EndBefore(n, c).Some? && Reached(e, EndBefore(n, c).value, c))
  }

  predicate Settled(s: State) { s == LockedIn || s == Active || s == Failed }

  /** What a rule change that is locked in, active or failed is meant to be from the next window on. */
  function Outcome(s: State): State { if s == LockedIn then Active else s }

  /**
   Along a branch, a settled rule change has its outcome in all later windows if and only if none of them
   ends with a median time before the start.
   */
  lemma {:induction false} OutcomeKept(e: Node, n: Node, c: Checker, s: State)
    requires Proper(n) && Proper(e) && c.window > 0 && IsEnd(n, c) && IsEnd(e, c) && LaterEnd(e, n, c)
    requires StateAfter(e, c) == Some(s) && Settled(s)
    ensures Keeps(e, n, c, Outcome(s)) <==> Reached(e, n, c)
    decreases n.height
  {
    if n != e {
      EndBeforeIs(n, c);
      var m := EndBefore(n, c).value;
      OutcomeKept(e, m, c, s);
      if Keeps(e, m, c, Outcome(s)) {
        LastKept(e, m, c, s);
      }
      Transition(n, c);
    }
  }

  lemma LastKept(e: Node, m: Node, c: Checker, s: State)
    requires Proper(m) && c.window > 0 && IsEnd(m, c) && Keeps(e, m, c, Outcome(s))
    requires m == e ==> StateAfter(m, c) == Some(s)
    ensures StateAfter(m, c) == Some(s) || StateAfter(m, c) == Some(Outcome(s))
  {
  }

  /** With rising medians every later window is reached. */
  lemma {:induction false} RiseReaches(e: Node, n: Node, c: Checker)
    requires Proper(n) && Proper(e) && c.window > 0 && IsEnd(n, c) && IsEnd(e, c) && LaterEnd(e, n, c)
    requires MediansRise(n, c) && c.begin <= MedianTime(e)
    ensures Reached(e, n, c) && c.begin <= MedianTime(n)
    decreases n.height
  {
    if n != e {
      EndBeforeIs(n, c);
      RiseReaches(e, EndBefore(n, c).value, c);
    }
  }

  /** So with rising medians LockedIn is followed by Active, and Active and Failed are permanent. */
  lemma TerminalStays(e: Node, n: Node, c: Checker, s: State)
    requires Proper(n) && Proper(e) && c.window > 0 && IsEnd(n, c) && IsEnd(e, c) && LaterEnd(e, n, c)
    requires MediansRise(n, c) && StateAfter(e, c) == Some(s) && Settled(s)
    ensures Keeps(e, n, c, Outcome(s))
    ensures n != e ==> StateAfter(n, c) == Some(Outcome(s))
  {
    RiseReaches(e, n, c);
    OutcomeKept(e, n, c, s);
  }

  // ------------------------------------------------------------------ when states do not last

  /** Nodes at the given times, one on top of the other. */
  function Timed(times: seq<int>): Node
    requires times != []
  {
    var h := |times| - 1;
    Node(if h == 0 then None else Some(Timed(times[..h])), h, h, 0, 0, 0, times[h])
  }

  lemma {:induction false} TimedProper(times: seq<int>)
    requires times != []
    ensures Proper(Timed(times)) && Timed(times).height == |times| - 1
  {
    if |times| > 1 {
      TimedProper(times[..|times| - 1]);
    }
  }

  /** Windows of one block, so that every block ends one; everybody votes for the change. */
  const QUICK: Checker := Checker(5, 50, 1, 1, n => Some(true))

  lemma QuickEnd(times: seq<int>, t: int)
    requires times != []
    ensures Proper(Timed(times)) && IsEnd(Timed(times), QUICK)
    ensures Proper(Timed(times + [t])) && IsEnd(Timed(times + [t]), QUICK)
    ensures EndBefore(Timed(times + [t]), QUICK) == Some(Timed(times))
  {
    TimedProper(times);
    TimedProper(times + [t]);
    var n, m := Timed(times + [t]), Timed(times);
    assert (times + [t])[..|times|] == times;
    PathAt(n, n.height);
    PathAt(m, m.height);
    assert Path(n) == Path(m) + [n];
  }

  /** From one window to the next, the state s is lost. */
  ghost predicate FallsBack(m: Node, n: Node, c: Checker, s: State) {
    && c.window > 0 && Proper(m) && IsEnd(m, c) && Proper(n) && IsEnd(n, c) && EndBefore(n, c) == Some(m)
    && StateAfter(m, c) == Some(s) && StateAfter(n, c) == Some(Defined)
  }

  /** The times of a chain, as sorted for the median. */
  ghost predicate MediansOf(times: seq<int>, sorted: seq<int>) {
    times != [] && Sorted(Times(Timed(times), MEDIAN_TIME_BLOCKS)) == sorted && |sorted| == |times|
  }

  lemma NextMedian(times: seq<int>, t: int, sorted: seq<int>)
    requires MediansOf(times, sorted) && |times| < MEDIAN_TIME_BLOCKS
    ensures MediansOf(times + [t], Insert(t, sorted))
  {
    var k := MEDIAN_TIME_BLOCKS;
    assert (times + [t])[..|times|] == times;
    var m, n := Timed(times), Timed(times + [t]);
    AllTimes(times, k);
    AllTimes(times, k - 1);
    assert Times(n, k) == [t] + Times(m, k - 1);
    assert ([t] + Times(m, k))[1..] == Times(m, k);
    SortedIs(Times(m, k), 0);
    InsertKeeps(t, sorted, 0);
  }

  lemma {:induction false} AllTimes(times: seq<int>, k: nat)
    requires 0 < |times| <= k
    ensures Times(Timed(times), k) == Backwards(times)
  {
    if |times| > 1 {
      AllTimes(times[..|times| - 1], k - 1);
    }
  }

  function Backwards(s: seq<int>): seq<int> {
    if s == [] then [] else [s[|s| - 1]] + Backwards(s[..|s| - 1])
  }

  /** A transition of QUICK, by the median time alone. */
  function Quick(s: State, median: int): State {
    if median < QUICK.begin then Defined
    else if s == Defined then if median >= QUICK.end then Failed else Started
    else if s == Started then if median >= QUICK.end then Failed else LockedIn
    else Outcome(s)
  }

  /** The state after one more block of such a chain. */
  lemma QuickState(times: seq<int>, t: int, sorted: seq<int>, s: State)
    requires times != [] && Proper(Timed(times)) && IsEnd(Timed(times), QUICK) &&
        StateAfter(Timed(times), QUICK) == Some(s)
    requires MediansOf(times + [t], sorted)
    ensures var n := Timed(times + [t]);
            && Proper(n) && IsEnd(n, QUICK) && EndBefore(n, QUICK) == Some(Timed(times))
            && StateAfter(n, QUICK) == Some(Quick(s, sorted[|sorted| / 2]))
  {
    QuickEnd(times, t);
    SortedIs(Times(Timed(times + [t]), MEDIAN_TIME_BLOCKS), 0);
  }

  lemma QuickStart(t: int)
    ensures Proper(Timed([t])) && IsEnd(Timed([t]), QUICK) && MediansOf([t], [t])
    ensures StateAfter(Timed([t]), QUICK) ==
            Some(if t >= QUICK.end then Failed else if t >= QUICK.begin then Started else Defined)
  {
    TimedProper([t]);
    PathAt(Timed([t]), 0);
    assert Times(Timed([t]), MEDIAN_TIME_BLOCKS) == [t];
    assert Sorted([t]) == [t];
  }

  /** A rule change that failed is defined again two blocks later. */
  lemma FailedFallsBack()
    ensures FallsBack(Timed([100, 0]), Timed([100, 0, 0]), QUICK, Failed)
  {
    hide Timed, StateAfter, MediansOf, Proper, IsEnd, EndBefore;
    QuickStart(100);
    assert [100] + [0] == [100, 0] && [100, 0] + [0] == [100, 0, 0];
    NextMedian([100], 0, [100]);
    assert Insert(0, [100]) == [0, 100];
    QuickState([100], 0, [0, 100], Failed);
    NextMedian([100, 0], 0, [0, 100]);
    assert Insert(0, [0, 100]) == [0, 0, 100];
    QuickState([100, 0], 0, [0, 0, 100], Failed);
  }

  /** So is one that was active. */
  lemma ActiveFallsBack()
    ensures FallsBack(Timed([10, 0, 10, 0]), Timed([10, 0, 10, 0, 0]), QUICK, Active)
  {
    hide Timed, StateAfter, MediansOf, Proper, IsEnd, EndBefore;
    QuickStart(10);
    assert [10] + [0] == [10, 0] && [10, 0] + [10] == [10, 0, 10];
    assert [10, 0, 10] + [0] == [10, 0, 10, 0] && [10, 0, 10, 0] + [0] == [10, 0, 10, 0, 0];
    NextMedian([10], 0, [10]);
    assert Insert(0, [10]) == [0, 10];
    QuickState([10], 0, [0, 10], Started);
    NextMedian([10, 0], 10, [0, 10]);
    InsertTen();
    QuickState([10, 0], 10, [0, 10, 10], LockedIn);
    NextMedian([10, 0, 10], 0, [0, 10, 10]);
    assert Insert(0, [0, 10, 10]) == [0, 0, 10, 10];
    QuickState([10, 0, 10], 0, [0, 0, 10, 10], Active);
    NextMedian([10, 0, 10, 0], 0, [0, 0, 10, 10]);
    assert Insert(0, [0, 0, 10, 10]) == [0, 0, 0, 10, 10];
    QuickState([10, 0, 10, 0], 0, [0, 0, 0, 10, 10], Active);
  }

  lemma InsertTen()
    ensures Insert(10, [0, 10]) == [0, 10, 10]
  {
    assert [0, 10][1..] == [10] && Insert(10, [10]) == [10] + [10];
  }

  // ------------------------------------------------------------------ the memoised computation

  /** A set of blocks: with every block its parent, and no two with the same hash. */
  ghost predicate Tree(nodes: set<Node>) {
    && (forall n :: n in nodes ==> Proper(n) && (n.parent.Some? ==> n.parent.value in nodes))
    && (forall m, n :: m in nodes && n in nodes && m.hash == n.hash ==> m == n)
  }

  lemma {:induction false} AncestorIn(nodes: set<Node>, a: Node, n: Node)
    requires Tree(nodes) && n in nodes && Above(a, n)
    ensures a in nodes
    decreases n
  {
    if a != n {
      AboveParentOf(a, n);
      AncestorIn(nodes, a, n.parent.value);
    }
  }

  type Entries = map<Hash, State>

  /** Whatever the cache holds for a block of the tree is the state the recursive definition gives. */
  ghost predicate Consistent(e: Entries, nodes: set<Node>, c: Checker)
    requires c.window > 0
  {
    forall n :: n in nodes && Proper(n) && IsEnd(n, c) && n.hash in e ==> StateAfter(n, c) == Some(e[n.hash])
  }

  lemma UpdateConsistent(e: Entries, nodes: set<Node>, c: Checker, n: Node, s: State)
    requires c.window > 0 && Tree(nodes) && Consistent(e, nodes, c) && n in nodes && IsEnd(n, c)
    requires StateAfter(n, c) == Some(s)
    ensures Consistent(e[n.hash := s], nodes, c)
  {
  }

  class ThresholdStateCache {
    var entries: Entries

    constructor ()
      ensures entries == map[]
    {
      entries := map[];
    }
  }

  /** The vote count of a window. */
  method CountVotes(n: Node, c: Checker) returns (count: Option<nat>)
    requires Proper(n) && 0 < c.window <= n.height + 1
    ensures count == Votes(n, c.window, c)
  {
    var sum := 0;
    var node := n;
    var i := 0;
    while i < c.window
      invariant 0 <= i <= c.window
      invariant i < c.window ==> Proper(node) && node.height == n.height - i
      invariant Votes(n, c.window, c) == Plus(sum, if i < c.window then Votes(node, c.window - i, c) else Some(0))
    {
      var v := c.vote(node);
      if v.None? {
        return None;
      }
      if v.value {
        sum := sum + 1;
      }
      i := i + 1;
      if i < c.window {
        node := node.parent.value;
      }
    }
    count := Some(sum);
  }

  function Plus(a: nat, b: Option<nat>): Option<nat> {
    if b.None? then None else Some(a + b.value)
  }

  /** The switch of thresholdState. */
  method Advance(state: State, n: Node, c: Checker) returns (r: Option<State>)
    requires Proper(n) && 0 < c.window <= n.height + 1
    ensures r == Next(state, n, c)
  {
    r := Some(state);
    match state {
      case Defined =>
        var median := CalcPastMedianTime(n);
        if median >= c.end {
          r := Some(Failed);
        } else if median >= c.begin {
          r := Some(Started);
        }
      case Started =>
        var median := CalcPastMedianTime(n);
        if median >= c.end {
          r := Some(Failed);
        } else {
          var count := CountVotes(n, c);
          if count.None? {
            return None;
          }
          if count.value >= c.threshold {
            r := Some(LockedIn);
          }
        }
      case LockedIn =>
        r := Some(Active);
      case Active =>
      case Failed =>
    }
  }

  /** A block whose window needs its state computed. */
  ghost predicate Open(n: Node, nodes: set<Node>, c: Checker)
    requires c.window > 0
  {
    n in nodes && Proper(n) && IsEnd(n, c)
  }

  /** needed lists window ends from first downwards, all past the start time; cur is the next one down. */
  ghost predicate Walk(needed: seq<Node>, cur: Option<Node>, first: Node, nodes: set<Node>, c: Checker)
    requires c.window > 0
  {
    && (forall i :: 0 <= i < |needed| ==> Open(needed[i], nodes, c) && c.begin <= MedianTime(needed[i]))
    && (forall i :: 0 <= i < |needed| - 1 ==> EndBefore(needed[i], c) == Some(needed[i + 1]))
    && (cur.Some? ==> Open(cur.value, nodes, c))
    && (if needed == [] then cur == Some(first) else needed[0] == first && cur == EndBefore(needed[|needed| - 1], c))
  }

  lemma WalkStart(first: Node, nodes: set<Node>, c: Checker)
    requires c.window > 0 && Open(first, nodes, c)
    ensures Walk([], Some(first), first, nodes, c)
  {
  }

  lemma WalkNext(needed: seq<Node>, n: Node, first: Node, nodes: set<Node>, c: Checker)
    requires c.window > 0 && Tree(nodes) && Walk(needed, Some(n), first, nodes, c) && c.begin <= MedianTime(n)
    ensures Walk(needed + [n], EndBefore(n, c), first, nodes, c)
    ensures EndBefore(n, c).Some? ==> EndBefore(n, c).value.height < n.height
  {
    hide MedianTime, EndBefore, Path, Above, Proper, IsEnd;
    WalkOpen(needed, n, first, nodes, c);
    EndBeforeIs(n, c);
    if EndBefore(n, c).Some? {
      AncestorIn(nodes, EndBefore(n, c).value, n);
    }
    hide Tree, Open;
  }

  /** The state before the k-th needed window: that of the window below it, or of cur, or Defined. */
  ghost function StateBelow(needed: seq<Node>, cur: Option<Node>, k: int, nodes: set<Node>, c: Checker,
          first: Node): Option<State>
    requires c.window > 0 && Walk(needed, cur, first, nodes, c) && 0 <= k <= |needed|
  {
    if k < |needed| then assert Open(needed[k], nodes, c); StateAfter(needed[k], c)
    else if cur.Some? then StateAfter(cur.value, c)
    else Some(Defined)
  }

  lemma StateStep(needed: seq<Node>, cur: Option<Node>, k: int, nodes: set<Node>, c: Checker, first: Node)
    requires c.window > 0 && Walk(needed, cur, first, nodes, c) && 0 < k <= |needed|
    ensures var n := needed[k - 1];
            && Open(n, nodes, c) && c.window <= n.height + 1
            && StateAfter(n, c) == (var b := StateBelow(needed, cur, k, nodes, c, first);
                                    if b.None? then None else Next(b.value, n, c))
  {
    var n := needed[k - 1];
    assert Open(n, nodes, c);
    EndBeforeIs(n, c);
    Whole(n.height + 1, c.window);
    if k < |needed| {
      assert EndBefore(needed[k - 1], c) == Some(needed[k]);
      assert Open(needed[k], nodes, c);
    }
  }

  lemma Whole(x: int, w: int)
    requires w > 0 && x > 0 && x % w == 0
    ensures x >= w
  {
    assert x == w * (x / w);
    assert x / w > 0;
  }

  /** A window whose votes cannot be read spoils all later ones that are not before the start time. */
  lemma {:induction false} Unreadable(needed: seq<Node>, cur: Option<Node>, k: int, nodes: set<Node>, c: Checker,
          first: Node)
    requires c.window > 0 && Walk(needed, cur, first, nodes, c) && 0 <= k < |needed|
    requires Open(needed[k], nodes, c) && StateAfter(needed[k], c) == None
    ensures Open(first, nodes, c) && StateAfter(first, c) == None
    decreases k
  {
    if k > 0 {
      StateStep(needed, cur, k, nodes, c, first);
      Unreadable(needed, cur, k - 1, nodes, c, first);
    }
  }

  /** thresholdState: from a consistent cache, the uncached answer, leaving the cache consistent. */
  method ThresholdState(prev: Option<Node>, c: Checker, cache: ThresholdStateCache, ghost nodes: set<Node>)
    returns (r: Option<State>)
    requires c.window > 0 && Tree(nodes) && (prev.Some? ==> prev.value in nodes)
    requires Consistent(cache.entries, nodes, c)
    modifies cache
    ensures prev.Some? ==> Proper(prev.value)
    ensures r == StateFor(prev, c)
    ensures Consistent(cache.entries, nodes, c)
  {
    hide *;
    FirstWindow(prev, c, nodes);
    if prev.None? || prev.value.height + 1 < c.window {
      return Some(Defined);
    }
    ghost var first := WindowEnd(prev.value, c);
    EndIsOpen(prev.value, c, nodes);
    var cur := Ancestor(prev.value, prev.value.height - (prev.value.height + 1) % c.window);
    var needed: seq<Node>;
    needed, cur := FindCached(cur.value, c, cache, nodes);
    r := FillIn(needed, cur, first, c, cache, nodes);
  }

  lemma EndIsOpen(prev: Node, c: Checker, nodes: set<Node>)
    requires c.window > 0 && Tree(nodes) && prev in nodes && Proper(prev) && prev.height + 1 >= c.window
    ensures var e := WindowEnd(prev, c);
            var h := prev.height - (prev.height + 1) % c.window;
            && Open(e, nodes, c) && 0 <= h < |Path(prev)| && Path(prev)[h] == e
            && StateFor(Some(prev), c) == StateAfter(e, c)
  {
    hide MedianTime, StateAfter, Tree, Above, Proper;
    WindowEndIs(prev, c);
    AncestorIn(nodes, WindowEnd(prev, c), prev);
    PathAt(prev, 0);
  }

  lemma FirstWindow(prev: Option<Node>, c: Checker, nodes: set<Node>)
    requires c.window > 0 && Tree(nodes) && (prev.Some? ==> prev.value in nodes)
    ensures prev.Some? ==> Proper(prev.value)
    ensures prev.None? || prev.value.height + 1 < c.window ==> StateFor(prev, c) == Some(Defined)
  {
  }

  /** The walk back to a window whose state is known. */
  method FindCached(first: Node, c: Checker, cache: ThresholdStateCache, ghost nodes: set<Node>)
    returns (needed: seq<Node>, cur: Option<Node>)
    requires c.window > 0 && Tree(nodes) && Open(first, nodes, c) && Consistent(cache.entries, nodes, c)
    modifies cache
    ensures Walk(needed, cur, first, nodes, c) && Consistent(cache.entries, nodes, c)
    ensures cur.Some? ==> cur.value.hash in cache.entries
  {
    hide MedianTime, StateAfter, EndBefore, Path, Tree, Consistent, Walk;
    cur := Some(first);
    needed := [];
    WalkStart(first, nodes, c);
    while cur.Some?
      invariant Walk(needed, cur, first, nodes, c) && Consistent(cache.entries, nodes, c)
      decreases if cur.Some? then cur.value.height + 1 else 0
    {
      var n := cur.value;
      WalkOpen(needed, n, first, nodes, c);
      if n.hash in cache.entries {
        break;
      }
      var median := CalcPastMedianTime(n);
      if median < c.begin {
        NotStarted(n, c);
        UpdateConsistent(cache.entries, nodes, c, n, Defined);
        cache.entries := cache.entries[n.hash := Defined];
        break;
      }
      WalkNext(needed, n, first, nodes, c);
      needed := needed + [n];
      cur := EndBeforeOf(n, c);
    }
  }

  lemma WalkOpen(needed: seq<Node>, n: Node, first: Node, nodes: set<Node>, c: Checker)
    requires c.window > 0 && Walk(needed, Some(n), first, nodes, c)
    ensures Open(n, nodes, c) && n.height >= 0
  {
  }

  lemma NotStarted(n: Node, c: Checker)
    requires Proper(n) && c.window > 0 && IsEnd(n, c) && MedianTime(n) < c.begin
    ensures StateAfter(n, c) == Some(Defined)
  {
  }

  method EndBeforeOf(n: Node, c: Checker) returns (r: Option<Node>)
    requires Proper(n) && c.window > 0
    ensures r == EndBefore(n, c)
  {
    PathAt(n, 0);
    r := RelativeAncestor(n, c.window);
  }

  /** The pass forward from the oldest window without a state. */
  method FillIn(needed: seq<Node>, cur: Option<Node>, ghost first: Node, c: Checker, cache: ThresholdStateCache,
                ghost nodes: set<Node>) returns (r: Option<State>)
    requires c.window > 0 && Tree(nodes) && Open(first, nodes, c) && Walk(needed, cur, first, nodes, c)
    requires Consistent(cache.entries, nodes, c) && (cur.Some? ==> cur.value.hash in cache.entries)
    modifies cache
    ensures r == StateAfter(first, c) && Consistent(cache.entries, nodes, c)
  {
    var state := Defined;
    if cur.Some? {
      state := cache.entries[cur.value.hash];
    }
    assert Some(state) == StateBelow(needed, cur, |needed|, nodes, c, first);
    hide MedianTime, StateAfter, EndBefore, Path, Tree, Consistent;
    var k := |needed|;
    while k > 0
      invariant 0 <= k <= |needed| && Consistent(cache.entries, nodes, c)
      invariant Some(state) == StateBelow(needed, cur, k, nodes, c, first)
    {
      k := k - 1;
      StateStep(needed, cur, k + 1, nodes, c, first);
      var next := Advance(state, needed[k], c);
      if next.None? {
        Unreadable(needed, cur, k, nodes, c, first);
        return None;
      }
      state := next.value;
      UpdateConsistent(cache.entries, nodes, c, needed[k], state);
      cache.entries := cache.entries[needed[k].hash := state];
    }
    r := Some(state);
  }
}
