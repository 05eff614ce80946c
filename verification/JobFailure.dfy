/** What a failure does to the rest of a job: over every run, the tasks that needed it to
    succeed, directly or through others, never run, and the job settles failed. */
module JobFailure {
  import opened JobDag
  import opened JobRun

  /** A route on which every task after the first needs all its upstream to succeed. */
  ghost predicate Chained(dag: Dag, route: seq<nat>, a: nat, b: nat) {
    IsRoute(dag, route, a, b) && forall k :: 0 < k < |route| ==> route[k] < |dag| && dag[route[k]].rule == AllSucceeded
  }

  /** b cannot run unless a succeeds. */
  ghost predicate Behind(dag: Dag, a: nat, b: nat) {
    b < |dag| && a != b && exists route :: Chained(dag, route, a, b)
  }

  /** The last step of such a route: b needs some u to succeed that is a or behind it. */
  lemma BehindStep(dag: Dag, a: nat, b: nat) returns (u: nat)
    requires Behind(dag, a, b)
    ensures Feeds(dag, u, b) && dag[b].rule == AllSucceeded && (u == a || Behind(dag, a, u))
  {
    var route :| Chained(dag, route, a, b);
    var init := route[..|route| - 1];
    u := init[|init| - 1];
    assert Feeds(dag, route[|route| - 2], route[|route| - 1]) && route[|route| - 1] == b;
    assert Chained(dag, init, a, u);
    if u != a {
      assert u == route[|route| - 2] && u < |dag|;
    }
  }

  lemma BehindNext(dag: Dag, a: nat, u: nat, b: nat)
    requires (u == a || Behind(dag, a, u)) && Feeds(dag, u, b) && dag[b].rule == AllSucceeded && a != b
    ensures Behind(dag, a, b)
  {
    if u == a {
      assert Chained(dag, [a, b], a, b);
    } else {
      var route :| Chained(dag, route, a, u);
      assert Chained(dag, route + [b], a, b);
    }
  }

  /** Neither at work nor ended by work of its own. */
  predicate Idle(s: TaskState) {
    s in {Untouched, UpstreamFailed, Canceled, Restarting, Canceling}
  }

  /** Task a has failed, and nothing behind it runs or has run. */
  ghost predicate Deadened(dag: Dag, job: Job, a: nat) {
    && a < |dag| == |job.tasks| && job.tasks[a] in {Failed, TimedOut}
    && forall b: nat :: Behind(dag, a, b) ==> Idle(job.tasks[b])
  }

  /** A failure in a running job finds nothing behind it at work. */
  lemma FailureDeadens(dag: Dag, s: Job, a: nat, outcome: TaskState, t: Job)
    requires Sound(dag, s) && s.phase == Open && Step(dag, s, Fail(a, outcome), t) && outcome in {Failed, TimedOut}
    ensures Deadened(dag, t, a)
  {
    forall b: nat | Behind(dag, a, b)
      ensures Idle(t.tasks[b])
    {
      if s.tasks[b] != Untouched && s.tasks[b] != Restarting {
        var route :| Chained(dag, route, a, b);
        LeadersEnded(dag, s, route, a, b);
      }
    }
  }

  /** A sweep schedules nothing behind a failure. */
  lemma {:induction false} SweepDeadens(dag: Dag, s: Job, t: Job, a: nat, b: nat)
    requires Deadened(dag, s, a) && Step(dag, s, Sweep, t) && Behind(dag, a, b)
    ensures |t.tasks| == |dag| && t.tasks[a] == s.tasks[a] && Idle(t.tasks[b])
    decreases b
  {
    PassWaits(dag, s.tasks, t.tasks, a);
    PassWaits(dag, s.tasks, t.tasks, b);
    if t.tasks[b] != s.tasks[b] {
      var u := BehindStep(dag, a, b);
      assert UpstreamBefore(dag, b);
      var k :| 0 <= k < |dag[b].upstream| && dag[b].upstream[k] == u;
      if u != a {
        SweepDeadens(dag, s, t, a, u);
      }
      AllSucceededVerdict(dag, s.tasks, t.tasks, b);
      assert t.tasks[u] !in {Succeeded, Skipped, UpstreamSkipped};
    }
  }

  /** A hand-off needs all upstream to have succeeded, so it passes no failure. */
  lemma AdvanceDeadens(dag: Dag, s: Job, i: nat, skipped: bool, t: Job, a: nat, b: nat)
    requires Deadened(dag, s, a) && Advances(dag, s, i, skipped, t) && Behind(dag, a, b)
    ensures Idle(t.tasks[b])
  {
    if b == i + 1 {
      var u := BehindStep(dag, a, b);
      var k :| 0 <= k < |dag[b].upstream| && dag[b].upstream[k] == u;
      assert ClassOf(t.tasks[dag[b].upstream[k]]) == SuccessLike;
    }
  }

  /** Every move but a clear that names the failed task keeps it that way. */
  lemma StepDeadens(dag: Dag, s: Job, m: Move, t: Job, a: nat)
    requires Deadened(dag, s, a) && Step(dag, s, m, t) && !Names(dag, m, a)
    ensures Deadened(dag, t, a)
  {
    if m.Sweep? {
      PassWaits(dag, s.tasks, t.tasks, a);
    }
    forall b: nat | Behind(dag, a, b)
      ensures Idle(t.tasks[b])
    {
      if m.Sweep? {
        SweepDeadens(dag, s, t, a, b);
      } else if m.Advance? {
        AdvanceDeadens(dag, s, m.i, m.skipped, t, a, b);
      } else {
        OtherDeadens(dag, s, m, t, b);
      }
    }
  }

  lemma OtherDeadens(dag: Dag, s: Job, m: Move, t: Job, b: nat)
    requires |s.tasks| == |dag| && b < |dag| && Idle(s.tasks[b]) && Step(dag, s, m, t) && !m.Sweep? && !m.Advance?
    ensures |t.tasks| == |dag| && Idle(t.tasks[b])
  {
  }

  /** Over every run: once a task of a running job has failed for good, nothing behind it is
      ever at work, whatever is retried, handed over, cancelled or cleared elsewhere, until
      a clear names the failed task itself. */
  lemma FailureStops(dag: Dag, run: seq<Job>, moves: seq<Move>, n: nat, a: nat, m: nat)
    requires Execution(dag, run, moves) && n < m < |run| && run[n].phase == Open && FailsFor(moves[n], a)
    requires forall k :: n < k < m ==> !Names(dag, moves[k], a)
    ensures Deadened(dag, run[m], a)
  {
    FailureStarts(dag, run, moves, n, a);
    var dead := seq(|run|, k requires 0 <= k < |run| => Deadened(dag, run[k], a));
    forall k | n < k < m && dead[k]
      ensures dead[k + 1]
    {
      FailureStays(dag, run, moves, k, a);
    }
    Carried(dead, n + 1, m);
  }

  /** What holds at one point and passes from each to the next holds later. */
  lemma {:induction false} Carried(holds: seq<bool>, n: nat, m: nat)
    requires n <= m < |holds| && holds[n] && forall k :: n <= k < m && holds[k] ==> holds[k + 1]
    ensures holds[m]
    decreases m - n
  {
    if n < m {
      Carried(holds, n + 1, m);
    }
  }

  lemma FailureStarts(dag: Dag, run: seq<Job>, moves: seq<Move>, n: nat, a: nat)
    requires Execution(dag, run, moves) && n + 1 < |run| && run[n].phase == Open && FailsFor(moves[n], a)
    ensures Deadened(dag, run[n + 1], a)
  {
    StepAt(dag, run, moves, n);
    ExecutionSound(dag, run, moves, n);
    FailureDeadens(dag, run[n], a, moves[n].outcome, run[n + 1]);
  }

  lemma FailureStays(dag: Dag, run: seq<Job>, moves: seq<Move>, n: nat, a: nat)
    requires Execution(dag, run, moves) && n + 1 < |run| && Deadened(dag, run[n], a) && !Names(dag, moves[n], a)
    ensures Deadened(dag, run[n + 1], a)
  {
    StepAt(dag, run, moves, n);
    StepDeadens(dag, run[n], moves[n], run[n + 1], a);
  }

  /** The task fails with no try left. */
  predicate FailsFor(m: Move, a: nat) {
    m == Fail(a, Failed) || m == Fail(a, TimedOut)
  }

  /** A clear that starts the task over. */
  ghost predicate Names(dag: Dag, m: Move, a: nat) {
    m.Clear? && Leads(dag, m.seed, a)
  }

  lemma StepAt(dag: Dag, run: seq<Job>, moves: seq<Move>, n: nat)
    requires Execution(dag, run, moves) && n + 1 < |run|
    ensures |run[n].tasks| == |dag| && Step(dag, run[n], moves[n], run[n + 1])
  {
    assert Linked(dag, run, moves, n);
  }

  /** Past the failure all further work needs all its upstream to succeed. */
  ghost predicate OnlyChained(dag: Dag, a: nat) {
    forall u: nat, d: nat :: (u == a || Behind(dag, a, u)) && Feeds(dag, u, d) && !dag[d].teardown ==> dag[d].rule == AllSucceeded
  }

  /** When such a job has ended uncancelled, some last work of it has failed. */
  lemma {:induction false} FailedLeaf(dag: Dag, job: Job, a: nat, u: nat) returns (l: nat)
    requires Registered(dag) && Deadened(dag, job, a) && OnlyChained(dag, a)
    requires forall i :: 0 <= i < |dag| ==> Terminal(job.tasks[i]) && job.tasks[i] != Canceled
    requires u < |dag| && !dag[u].teardown && (u == a || Behind(dag, a, u)) && u >= a
    ensures Leaf(dag, l) && job.tasks[l] in {Failed, TimedOut, UpstreamFailed}
    decreases |dag| - u
  {
    if Leaf(dag, u) {
      l := u;
    } else {
      var d: nat :| Feeds(dag, u, d) && !dag[d].teardown;
      var k :| 0 <= k < |dag[d].upstream| && dag[d].upstream[k] == u;
      BehindNext(dag, a, u, d);
      l := FailedLeaf(dag, job, a, d);
    }
  }

  /** So it settles failed. */
  lemma FailureSettles(dag: Dag, job: Job, a: nat)
    requires Registered(dag) && Deadened(dag, job, a) && OnlyChained(dag, a) && !dag[a].teardown
    requires forall i :: 0 <= i < |dag| ==> Terminal(job.tasks[i]) && job.tasks[i] != Canceled
    ensures LeafIn(dag, job.tasks, {Failed, TimedOut, UpstreamFailed})
  {
    var l := FailedLeaf(dag, job, a, a);
  }

  /** Settling a job that ended after an uncancelled failure. */
  method SettleFailed(dag: Dag, job: Job, a: nat) returns (r: Settlement)
    requires Registered(dag) && Deadened(dag, job, a) && OnlyChained(dag, a) && !dag[a].teardown
    requires forall i :: 0 <= i < |dag| ==> Terminal(job.tasks[i]) && job.tasks[i] != Canceled
    ensures r == Over(Failed)
  {
    FailureSettles(dag, job, a);
    r := Settle(dag, job.tasks);
  }
}
