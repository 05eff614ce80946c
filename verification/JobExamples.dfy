/** Runs of small graphs in which two lake writers are active together. */
module JobExamples {
  import opened Wrappers
  import opened JobDag
  import opened JobRun

  // ---- runs in which two writers are active -----------------------------------------------------

  /** Some run leads here. */
  ghost predicate Reachable(dag: Dag, job: Job) {
    exists run, moves :: Execution(dag, run, moves) && run[|run| - 1] == job
  }

  lemma ReachStart(dag: Dag)
    ensures Reachable(dag, Planned(dag))
  {
    assert Execution(dag, [Planned(dag)], []);
  }

  lemma ReachStep(dag: Dag, s: Job, m: Move, t: Job)
    requires |s.tasks| == |dag| && Reachable(dag, s) && Step(dag, s, m, t)
    ensures Reachable(dag, t)
  {
    var run, moves :| Execution(dag, run, moves) && run[|run| - 1] == s;
    var longer, more := run + [t], moves + [m];
    forall n: nat | n < |more|
      ensures Linked(dag, longer, more, n)
    {
      if n < |moves| {
        assert Linked(dag, run, moves, n);
      }
    }
    assert Execution(dag, longer, more) && longer[|longer| - 1] == t;
  }

  /** Two lake writers, one after the other. */
  const PAIR: Dag := [Node([], AllSucceeded, true, false, true, None), Node([0], AllSucceeded, true, false, true, None)]

  function Two(a: TaskState, b: TaskState): Job {
    Job(Open, [a, b])
  }

  lemma PairSweep(a: TaskState, b: TaskState, a': TaskState, b': TaskState)
    requires a' == (if a == Untouched then Scheduled else a) && !Terminal(b')
    requires b' == if b == Untouched && a' == Succeeded then Scheduled else b
    requires b == Untouched ==> !Terminal(a') || a' == Succeeded
    ensures Step(PAIR, Two(a, b), Sweep, Two(a', b'))
  {
    var s, t := [a, b], [a', b'];
    assert StatesOf(t[..0], PAIR[0].upstream) == [];
    assert StatesOf(t[..1], PAIR[1].upstream) == [a'];
    assert UpstreamBefore(PAIR, 0) && t[0] == Settled1(PAIR[0], t[..0], s[0]);
    assert UpstreamBefore(PAIR, 1);
    assert [a'][0] == a';
    assert t[1] == Settled1(PAIR[1], t[..1], s[1]);
    assert !Terminal(t[1]);
  }

  lemma PairReachSweep(a: TaskState, b: TaskState, a': TaskState, b': TaskState)
    requires Reachable(PAIR, Two(a, b))
    requires a' == (if a == Untouched then Scheduled else a) && !Terminal(b')
    requires b' == if b == Untouched && a' == Succeeded then Scheduled else b
    requires b == Untouched ==> !Terminal(a') || a' == Succeeded
    ensures Reachable(PAIR, Two(a', b'))
  {
    PairSweep(a, b, a', b');
    ReachStep(PAIR, Two(a, b), Sweep, Two(a', b'));
  }

  /** The first writer reaches its pod. */
  lemma PairStarted()
    ensures Reachable(PAIR, Two(Running, Untouched))
  {
    ReachStart(PAIR);
    assert Planned(PAIR) == Two(Untouched, Untouched);
    PairReachSweep(Untouched, Untouched, Scheduled, Untouched);
    Launches(PAIR, Two(Scheduled, Untouched), 0, Two(Running, Untouched));
  }

  /** It runs and succeeds. */
  lemma PairFirst()
    ensures Reachable(PAIR, Two(Succeeded, Untouched))
  {
    PairStarted();
    var t := Two(Succeeded, Untouched);
    assert t.tasks == [Running, Untouched][0 := Succeeded];
    ReachStep(PAIR, Two(Running, Untouched), Finish(0, false), t);
  }

  /** The second writer reaches its pod. */
  lemma PairSecond()
    ensures Reachable(PAIR, Two(Succeeded, Running))
  {
    PairFirst();
    PairReachSweep(Succeeded, Untouched, Succeeded, Scheduled);
    Launches(PAIR, Two(Succeeded, Scheduled), 1, Two(Succeeded, Running));
  }

  /** With the slot free a scheduled task reaches its pod. */
  lemma Launches(dag: Dag, s: Job, i: nat, t: Job)
    requires |s.tasks| == |dag| && Reachable(dag, s) && s.phase == Open && i < |dag| && dag[i].pod && s.tasks[i] == Scheduled
    requires forall k :: 0 <= k < |dag| ==> !HoldsPod(dag[k], s.tasks[k])
    requires t.phase == Open && t.tasks == s.tasks[i := Running]
    ensures Reachable(dag, t)
  {
    var claimed := s.(tasks := s.tasks[i := Queued]);
    ReachStep(dag, s, Claim(i), claimed);
    assert claimed.tasks[i := Running] == t.tasks;
    ReachStep(dag, claimed, Start(i), t);
  }

  /** Clearing the first writer while the second is in its pod: the next sweep has both
      active, the second still restarting. */
  lemma ClearOverlaps()
    ensures Reachable(PAIR, Two(Scheduled, Restarting)) && TwoWriters(PAIR, Two(Scheduled, Restarting))
  {
    PairSecond();
    PairCleared();
    ReachStep(PAIR, Two(Succeeded, Running), Clear(0), Two(Untouched, Restarting));
    PairReachSweep(Untouched, Restarting, Scheduled, Restarting);
    assert Writers(PAIR, 0, 1);
  }

  lemma PairCleared()
    ensures Step(PAIR, Two(Succeeded, Running), Clear(0), Two(Untouched, Restarting))
  {
    assert IsRoute(PAIR, [0], 0, 0) && Leads(PAIR, 0, 0);
    assert 0 in PAIR[1].upstream;
    LeadsStep(PAIR, 0, 0, 1);
  }

  /** Cancelling while the first writer is in its pod: the second is marked cancelled
      although its upstream has not ended. */
  lemma CancelOutruns()
    ensures Reachable(PAIR, Job(Stopping, [Canceling, Canceled]))
  {
    PairStopped();
    ReachStep(PAIR, Job(Stopping, [Running, Canceled]), CancelLive, Job(Stopping, [Canceling, Canceled]));
  }

  lemma PairStopped()
    ensures Reachable(PAIR, Job(Stopping, [Running, Canceled]))
  {
    PairStarted();
    Cancels(PAIR, Two(Running, Untouched), Job(Stopping, [Running, Canceled]));
  }

  /** A cancel arrives and what has not begun is cancelled. */
  lemma Cancels(dag: Dag, s: Job, t: Job)
    requires |s.tasks| == |dag| && Reachable(dag, s) && s.phase == Open && t.phase == Stopping && EachTask(dag, s, t, CancelledPending)
    ensures Reachable(dag, t)
  {
    var stopping := s.(phase := Stopping);
    ReachStep(dag, s, RequestCancel, stopping);
    ReachStep(dag, stopping, CancelPending, t);
  }

  /** A writer, a task after it, and a teardown that writes too. */
  const CHAIN: Dag := [
    Node([], AllSucceeded, true, false, true, None), Node([0], AllSucceeded, false, false, true, None), Node([1], AllTerminal, true, true, true, None)]

  lemma ChainSweep(phase: Phase, a: TaskState, b: TaskState, c: TaskState)
    requires (phase == Open || phase == Stopping) && c == Untouched && ((a == b == Untouched) || (a == Running && b == Canceled))
    ensures var t := if a == Untouched then [Scheduled, Untouched, Untouched] else [Running, Canceled, Scheduled];
      Step(CHAIN, Job(phase, [a, b, c]), Sweep, Job(phase, t))
  {
    var s, t := [a, b, c], if a == Untouched then [Scheduled, Untouched, Untouched] else [Running, Canceled, Scheduled];
    assert StatesOf(t[..0], CHAIN[0].upstream) == [];
    assert StatesOf(t[..1], CHAIN[1].upstream) == [t[0]];
    assert StatesOf(t[..2], CHAIN[2].upstream) == [t[1]];
    assert [t[0]][0] == t[0] && [t[1]][0] == t[1];
    assert UpstreamBefore(CHAIN, 0) && t[0] == Settled1(CHAIN[0], t[..0], s[0]);
    assert UpstreamBefore(CHAIN, 1) && t[1] == Settled1(CHAIN[1], t[..1], s[1]);
    assert UpstreamBefore(CHAIN, 2) && t[2] == Settled1(CHAIN[2], t[..2], s[2]);
    assert !Terminal(t[0]);
  }

  /** Under a cancel a teardown that writes is scheduled while an earlier writer is still
      in its pod, the task between them having been cancelled unrun. */
  lemma CancelOverlaps()
    ensures Reachable(CHAIN, Job(Stopping, [Running, Canceled, Scheduled])) && TwoWriters(CHAIN, Job(Stopping, [Running, Canceled, Scheduled]))
  {
    ChainCancelled();
    ChainSweep(Stopping, Running, Canceled, Untouched);
    ReachStep(CHAIN, Job(Stopping, [Running, Canceled, Untouched]), Sweep, Job(Stopping, [Running, Canceled, Scheduled]));
    assert Writers(CHAIN, 0, 2);
  }

  lemma ChainCancelled()
    ensures Reachable(CHAIN, Job(Stopping, [Running, Canceled, Untouched]))
  {
    ChainScheduled();
    ChainStarted();
    Cancels(CHAIN, Job(Open, [Running, Untouched, Untouched]), Job(Stopping, [Running, Canceled, Untouched]));
  }

  lemma ChainStarted()
    requires Reachable(CHAIN, Job(Open, [Scheduled, Untouched, Untouched]))
    ensures Reachable(CHAIN, Job(Open, [Running, Untouched, Untouched]))
  {
    Launches(CHAIN, Job(Open, [Scheduled, Untouched, Untouched]), 0, Job(Open, [Running, Untouched, Untouched]));
  }

  lemma ChainScheduled()
    ensures Reachable(CHAIN, Job(Open, [Scheduled, Untouched, Untouched]))
  {
    ReachStart(CHAIN);
    assert Planned(CHAIN) == Job(Open, [Untouched, Untouched, Untouched]);
    ChainSweep(Open, Untouched, Untouched, Untouched);
    ReachStep(CHAIN, Job(Open, [Untouched, Untouched, Untouched]), Sweep, Job(Open, [Scheduled, Untouched, Untouched]));
  }
}
