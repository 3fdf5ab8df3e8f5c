/**
 Parallel script validation (blockchain/scriptval.go): one coordinator hands out items and collects
 results over unbuffered channels, any number of workers validate them, and closing the quit channel
 ends the workers. Every interleaving of the goroutines is a run of this machine.
 */
module ScriptVal {
  /** A worker waits for an item, offers the result of one, or has returned. */
  datatype Worker = Idle | Sending(item: nat, ok: bool) | Exited

  datatype Outcome = Success | Failure(item: nat)

  datatype Coordinator = Running | Returned(outcome: Outcome)

  /** results lists the items whose results the coordinator has received, in order. */
  datatype State = State(workers: seq<Worker>, current: nat, results: seq<nat>, main: Coordinator, quit: bool)

  datatype Step = Hand(w: nat) | Collect(w: nat) | Abandon(w: nat) | Leave(w: nat)

  /** n items and the verdict of the script engine on each. */
  datatype Job = Job(n: nat, valid: nat -> bool)

  function Start(job: Job, m: nat): State {
    State(seq(m, _ => Idle), 0, [], if job.n == 0 then Returned(Success) else Running, false)
  }

  predicate Enabled(s: State, job: Job, t: Step) {
    match t
    case Hand(w) => s.main.Running? && s.current < job.n && w < |s.workers| && s.workers[w].Idle?
    case Collect(w) => s.main.Running? && w < |s.workers| && s.workers[w].Sending?
    case Abandon(w) => s.quit && w < |s.workers| && s.workers[w].Sending?
    case Leave(w) => s.quit && w < |s.workers| && s.workers[w].Idle?
  }

  /** One communication: two goroutines meet on a channel, or one sees that quit is closed. */
  function Next(s: State, job: Job, t: Step): State
    requires Enabled(s, job, t)
  {
    match t
    case Hand(w) =>
      s.(workers := s.workers[w := Sending(s.current, job.valid(s.current))], current := s.current + 1)
    case Collect(w) =>
      var x := s.workers[w];
      var results := s.results + [x.item];
      if !x.ok then
        s.(workers := s.workers[w := Exited], results := results, main := Returned(Failure(x.item)), quit := true)
      else if |results| < job.n then
        s.(workers := s.workers[w := Idle], results := results)
      else
        s.(workers := s.workers[w := Idle], results := results, main := Returned(Success), quit := true)
    case Abandon(w) =>
      s.(workers := s.workers[w := if s.workers[w].ok then Idle else Exited])
    case Leave(w) =>
      s.(workers := s.workers[w := Exited])
  }

  // ------------------------------------------------------------------ the invariant

  ghost predicate Once(results: seq<nat>) {
    forall i, j :: 0 <= i < j < |results| ==> results[i] != results[j]
  }

  ghost predicate Held(s: State, i: nat) {
    exists w :: 0 <= w < |s.workers| && s.workers[w].Sending? && s.workers[w].item == i
  }

  /** Every item handed out is with one worker or its result was received, and no item is counted twice. */
  ghost predicate Accounted(s: State, job: Job) {
    && s.current <= job.n && Once(s.results)
    && (forall i: nat :: i in s.results ==> i < s.current)
    && (forall w :: 0 <= w < |s.workers| && s.workers[w].Sending? ==>
          && s.workers[w].item < s.current && s.workers[w].item !in s.results
          && s.workers[w].ok == job.valid(s.workers[w].item))
    && (forall v, w :: 0 <= v < w < |s.workers| && s.workers[v].Sending? && s.workers[w].Sending? ==>
          s.workers[v].item != s.workers[w].item)
  }

  /** While the coordinator runs nothing is lost, nothing has failed, and no worker has returned. */
  ghost predicate Alive(s: State, job: Job) {
    && !s.quit && |s.results| < job.n && |s.workers| > 0
    && (forall w :: 0 <= w < |s.workers| ==> !s.workers[w].Exited?)
    && (forall i :: i in s.results ==> job.valid(i))
    && (forall i: nat :: i < s.current ==> i in s.results || Held(s, i))
  }

  ghost predicate Finished(s: State, job: Job) {
    match s.main
    case Running => true
    case Returned(Success) =>
      |s.results| == job.n && (forall i :: i in s.results ==> job.valid(i)) && (job.n > 0 ==> s.quit)
    case Returned(Failure(i)) => i < job.n && !job.valid(i) && i in s.results && s.quit
  }

  ghost predicate Inv(s: State, job: Job) {
    Accounted(s, job) && (s.main.Running? ==> Alive(s, job)) && Finished(s, job)
  }

  lemma StartInv(job: Job, m: nat)
    requires m > 0
    ensures Inv(Start(job, m), job)
  {
  }

  lemma HandInv(s: State, job: Job, w: nat)
    requires Inv(s, job) && Enabled(s, job, Hand(w))
    ensures Inv(Next(s, job, Hand(w)), job)
  {
    var s' := Next(s, job, Hand(w));
    forall i: nat | i < s'.current
      ensures i in s'.results || Held(s', i)
    {
      if i == s.current {
        assert s'.workers[w].item == i;
      } else if i !in s.results {
        var v :| 0 <= v < |s.workers| && s.workers[v].Sending? && s.workers[v].item == i;
        assert s'.workers[v] == s.workers[v];
      }
    }
  }

  lemma CollectAccounted(s: State, job: Job, w: nat)
    requires Inv(s, job) && Enabled(s, job, Collect(w))
    ensures Accounted(Next(s, job, Collect(w)), job)
  {
    var s', x := Next(s, job, Collect(w)), s.workers[w];
    assert s'.results == s.results + [x.item];
    assert forall v :: 0 <= v < |s.workers| && v != w ==> s'.workers[v] == s.workers[v];
  }

  lemma CollectInv(s: State, job: Job, w: nat)
    requires Inv(s, job) && Enabled(s, job, Collect(w))
    ensures Inv(Next(s, job, Collect(w)), job)
  {
    CollectAccounted(s, job, w);
    var s', x := Next(s, job, Collect(w)), s.workers[w];
    assert x.item in s'.results by { assert s'.results[|s.results|] == x.item; }
    if s'.main.Running? {
      forall i: nat | i < s'.current
        ensures i in s'.results || Held(s', i)
      {
        if i !in s.results && i != x.item {
          var v :| 0 <= v < |s.workers| && s.workers[v].Sending? && s.workers[v].item == i;
          assert s'.workers[v] == s.workers[v];
        }
      }
    }
  }

  lemma StepInv(s: State, job: Job, t: Step)
    requires Inv(s, job) && Enabled(s, job, t)
    ensures Inv(Next(s, job, t), job) && |Next(s, job, t).workers| == |s.workers|
  {
    match t {
      case Hand(w) => HandInv(s, job, w);
      case Collect(w) => CollectInv(s, job, w);
      case Abandon(w) =>
      case Leave(w) =>
    }
  }

  // ------------------------------------------------------------------ runs

  /** The states of a run: any steps that were enabled, in any order. */
  ghost predicate IsRun(states: seq<State>, steps: seq<Step>, job: Job, m: nat) {
    && |states| == |steps| + 1 && states[0] == Start(job, m)
    && forall i :: 0 <= i < |steps| ==>
      Enabled(states[i], job, steps[i]) && states[i + 1] == Next(states[i], job, steps[i])
  }

  lemma {:induction false} RunInv(states: seq<State>, steps: seq<Step>, job: Job, m: nat, k: nat)
    requires m > 0 && IsRun(states, steps, job, m) && k < |states|
    ensures Inv(states[k], job) && |states[k].workers| == m
    decreases k
  {
    if k == 0 {
      StartInv(job, m);
    } else {
      RunInv(states, steps, job, m, k - 1);
      assert states[k - 1 + 1] == states[k];
      StepInv(states[k - 1], job, steps[k - 1]);
    }
  }

  /** Validate returns nil only when every item was validated successfully, each exactly once. */
  lemma SuccessMeans(states: seq<State>, steps: seq<Step>, job: Job, m: nat, k: nat)
    requires m > 0 && IsRun(states, steps, job, m) && k < |states| && states[k].main == Returned(Success)
    ensures Once(states[k].results) && |states[k].results| == job.n
    ensures forall i: nat :: i in states[k].results <==> i < job.n
    ensures forall i: nat :: i < job.n ==> job.valid(i)
  {
    RunInv(states, steps, job, m, k);
    Full(states[k].results, job.n);
  }

  function Without(r: seq<nat>, k: nat): seq<nat>
    requires k < |r|
  {
    r[..k] + r[k + 1..]
  }

  lemma WithoutOnce(r: seq<nat>, k: nat)
    requires Once(r) && k < |r|
    ensures Once(Without(r, k)) && |Without(r, k)| == |r| - 1
    ensures forall i: nat :: i in Without(r, k) <==> i in r && i != r[k]
  {
    var q := Without(r, k);
    forall i: nat
      ensures i in q <==> i in r && i != r[k]
    {
      if i in r && i != r[k] {
        var j :| 0 <= j < |r| && r[j] == i;
        assert q[if j < k then j else j - 1] == i;
      }
    }
  }

  /** There are no more than n different numbers below n. */
  lemma {:induction false} AtMost(r: seq<nat>, n: nat)
    requires Once(r) && forall i: nat :: i in r ==> i < n
    ensures |r| <= n
    decreases n
  {
    if n == 0 {
      assert forall i :: 0 <= i < |r| ==> r[i] in r;
    } else if n - 1 in r {
      var k :| 0 <= k < |r| && r[k] == n - 1;
      WithoutOnce(r, k);
      AtMost(Without(r, k), n - 1);
    } else {
      AtMost(r, n - 1);
    }
  }

  /** n different numbers below n are all of them. */
  lemma {:induction false} Full(r: seq<nat>, n: nat)
    requires Once(r) && |r| == n && forall i: nat :: i in r ==> i < n
    ensures forall i: nat :: i in r <==> i < n
    decreases n
  {
    if n > 0 {
      if n - 1 !in r {
        AtMost(r, n - 1);
      }
      var k :| 0 <= k < |r| && r[k] == n - 1;
      WithoutOnce(r, k);
      Full(Without(r, k), n - 1);
    }
  }

  /** Validate returns an error only when some item is invalid. */
  lemma FailureMeans(states: seq<State>, steps: seq<Step>, job: Job, m: nat, k: nat, i: nat)
    requires m > 0 && IsRun(states, steps, job, m) && k < |states| && states[k].main == Returned(Failure(i))
    ensures i < job.n && !job.valid(i)
  {
    RunInv(states, steps, job, m, k);
  }

  /** The protocol is never stuck: while the coordinator runs, some communication can take place. */
  lemma NeverStuck(states: seq<State>, steps: seq<Step>, job: Job, m: nat, k: nat) returns (t: Step)
    requires m > 0 && IsRun(states, steps, job, m) && k < |states| && states[k].main.Running?
    ensures Enabled(states[k], job, t)
  {
    RunInv(states, steps, job, m, k);
    var s := states[k];
    if w :| 0 <= w < |s.workers| && s.workers[w].Sending? {
      t := Collect(w);
    } else {
      assert s.workers[0].Idle?;
      t := Hand(0);
      if s.current == job.n {
        assert forall i: nat :: i in s.results <==> i < job.n;
        AtLeast(s.results, job.n);
      }
    }
  }

  lemma {:induction false} AtLeast(r: seq<nat>, n: nat)
    requires Once(r) && forall i: nat :: i < n ==> i in r
    ensures |r| >= n
    decreases n
  {
    if n > 0 {
      assert n - 1 in r;
      var k :| 0 <= k < |r| && r[k] == n - 1;
      WithoutOnce(r, k);
      AtLeast(Without(r, k), n - 1);
    }
  }

  // ------------------------------------------------------------------ every run ends

  function Effort(w: Worker): nat {
    match w
    case Idle => 1
    case Sending(_, _) => 2
    case Exited => 0
  }

  function TotalEffort(ws: seq<Worker>): nat {
    if ws == [] then 0 else Effort(ws[0]) + TotalEffort(ws[1..])
  }

  lemma {:induction false} EffortUpdate(ws: seq<Worker>, w: nat, x: Worker)
    requires w < |ws|
    ensures TotalEffort(ws[w := x]) + Effort(ws[w]) == TotalEffort(ws) + Effort(x)
  {
    if w == 0 {
      assert ws[0 := x][1..] == ws[1..];
    } else {
      EffortUpdate(ws[1..], w - 1, x);
      assert ws[w := x][1..] == ws[1..][w - 1 := x];
    }
  }

  /** What is left to do: handing out an item costs more than it adds to the workers. */
  function Remaining(s: State, job: Job): int { 2 * (job.n - s.current) + TotalEffort(s.workers) }

  /** Every communication brings the run closer to its end. */
  lemma Progress(s: State, job: Job, t: Step)
    requires Inv(s, job) && Enabled(s, job, t)
    ensures 0 <= Remaining(Next(s, job, t), job) < Remaining(s, job)
  {
    var s' := Next(s, job, t);
    StepInv(s, job, t);
    match t {
      case Hand(w) => EffortUpdate(s.workers, w, s'.workers[w]);
      case Collect(w) => EffortUpdate(s.workers, w, s'.workers[w]);
      case Abandon(w) => EffortUpdate(s.workers, w, s'.workers[w]);
      case Leave(w) => EffortUpdate(s.workers, w, s'.workers[w]);
    }
    hide TotalEffort;
  }

  /** After quit is closed a worker that has not returned can always go on towards returning. */
  lemma CanExit(s: State, job: Job, w: nat) returns (t: Step)
    requires Inv(s, job) && s.quit && w < |s.workers| && !s.workers[w].Exited?
    ensures Enabled(s, job, t) && Effort(Next(s, job, t).workers[w]) < Effort(s.workers[w])
  {
    t := if s.workers[w].Sending? then Abandon(w) else Leave(w);
  }

  /** A run that cannot be continued has returned a result, and with items to check all workers are gone. */
  lemma EndOfRun(states: seq<State>, steps: seq<Step>, job: Job, m: nat)
    requires m > 0 && IsRun(states, steps, job, m)
    requires forall t :: !Enabled(states[|steps|], job, t)
    ensures states[|steps|].main.Returned? && |states[|steps|].workers| == m
    ensures job.n > 0 ==> forall w :: 0 <= w < m ==> states[|steps|].workers[w].Exited?
    ensures |steps| <= 2 * job.n + m
  {
    var s := states[|steps|];
    RunInv(states, steps, job, m, |steps|);
    if s.main.Running? {
      var t := NeverStuck(states, steps, job, m, |steps|);
    }
    if job.n > 0 {
      forall w | 0 <= w < m
        ensures s.workers[w].Exited?
      {
        if !s.workers[w].Exited? {
          var t := CanExit(s, job, w);
        }
      }
    }
    Shorter(states, steps, job, m, |steps|);
  }

  lemma {:induction false} AllIdle(m: nat)
    ensures TotalEffort(seq(m, _ => Idle)) == m
  {
    if m > 0 {
      AllIdle(m - 1);
      assert seq(m, _ => Idle)[1..] == seq(m - 1, _ => Idle);
    }
  }

  lemma {:induction false} Shorter(states: seq<State>, steps: seq<Step>, job: Job, m: nat, k: nat)
    requires m > 0 && IsRun(states, steps, job, m) && k < |states|
    ensures 0 <= Remaining(states[k], job) && k + Remaining(states[k], job) <= 2 * job.n + m
    decreases k
  {
    if k == 0 {
      AllIdle(m);
    } else {
      Shorter(states, steps, job, m, k - 1);
      RunInv(states, steps, job, m, k - 1);
      assert states[k - 1 + 1] == states[k];
      Progress(states[k - 1], job, steps[k - 1]);
    }
  }
}
