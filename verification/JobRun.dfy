/** One job over its whole life: readiness passes, launches, reports and retries,
    segment hand-offs, cancelling and clearing, in any order. Assembly orders the
    lake writers of a graph; the launch guard allows one pod. What of that survives
    every interleaving is proved here, and where it does not, exactly when. */
module JobRun {
  import opened Wrappers
  import opened JobDag

  // ---- one job ------------------------------------------------------------------------------

  /** Where a job stands: waiting to be planned (again), running, being cancelled, or
      settled. */
  datatype Phase = Waiting | Open | Stopping | Settled

  datatype Job = Job(phase: Phase, tasks: seq<TaskState>)

  /** Everything that changes a job after planning. */
  datatype Move =
    | Sweep
    | Claim(i: nat) | Start(i: nat) | Finish(i: nat, skipped: bool) | Fail(i: nat, outcome: TaskState) | Requeue(i: nat)
    | Advance(i: nat, skipped: bool)
    | RequestCancel | CancelPending | CancelLive | SettleCanceled(i: nat)
    | Clear(seed: nat) | CompleteRestart(i: nat)
    | Replan | Refuse

  /** A task at work: scheduled, in a pod or its body, or waiting to try again. */
  predicate Working(s: TaskState) {
    s in {Scheduled, Queued, Running, UpForRetry}
  }

  /** The pod slot a task occupies. */
  predicate HoldsPod(node: Node, s: TaskState) {
    node.pod && s in {Queued, Running, Restarting, Canceling}
  }

  /** Claims and failures count while the job runs; under a cancel, for teardowns. */
  predicate MayRun(job: Job, node: Node) {
    job.phase == Open || (job.phase == Stopping && node.teardown)
  }

  predicate Turns(s: Job, t: Job, i: nat, next: TaskState) {
    i < |s.tasks| && t == s.(tasks := s.tasks[i := next])
  }

  function Done(skipped: bool): TaskState {
    if skipped then Skipped else Succeeded
  }

  /** What a clear makes of a task it names: a live one restarts, one that has ended or
      not begun starts over. */
  function Cleared(s: TaskState): TaskState {
    if s in {Queued, Running} then Restarting
    else if s in {Restarting, Canceling} then s
    else Untouched
  }

  function CancelledPending(node: Node, s: TaskState): TaskState {
    if !node.teardown && s in {Untouched, Scheduled, UpForRetry} then Canceled else s
  }

  function CancelledLive(node: Node, s: TaskState): TaskState {
    if !node.teardown && s in {Queued, Running, Restarting} then Canceling else s
  }

  ghost predicate Step(dag: Dag, s: Job, m: Move, t: Job)
    requires |s.tasks| == |dag|
  {
    match m
    case Sweep =>
      && (s.phase == Open || s.phase == Stopping) && Passed(dag, s.tasks, t.tasks)
      && t.phase == if forall i :: 0 <= i < |t.tasks| ==> Terminal(t.tasks[i]) then Settled else s.phase
    case Claim(i) =>
      && i < |dag| && s.tasks[i] in {Scheduled, UpForRetry} && MayRun(s, dag[i])
      && (dag[i].pod ==> forall k :: 0 <= k < |dag| ==> !HoldsPod(dag[k], s.tasks[k]))
      && Turns(s, t, i, if dag[i].pod then Queued else Running)
    case Start(i) => i < |dag| && s.tasks[i] == Queued && Turns(s, t, i, Running)
    case Finish(i, skipped) => i < |dag| && s.tasks[i] == Running && Turns(s, t, i, Done(skipped))
    case Fail(i, outcome) =>
      && i < |dag| && s.tasks[i] in {Queued, Running} && MayRun(s, dag[i])
      && outcome in {Failed, TimedOut, Skipped, UpForRetry} && Turns(s, t, i, outcome)
    case Requeue(i) => i < |dag| && dag[i].pod && s.tasks[i] in {Queued, Running} && Turns(s, t, i, Scheduled)
    case Advance(i, skipped) => Advances(dag, s, i, skipped, t)
    case RequestCancel =>
      && t.tasks == s.tasks
      && (s.phase == Open || s.phase == Waiting)
      && (t.phase == Stopping || (s.phase == Waiting && t.phase == Settled))
    case CancelPending => s.phase == t.phase == Stopping && EachTask(dag, s, t, CancelledPending)
    case CancelLive => s.phase == t.phase == Stopping && EachTask(dag, s, t, CancelledLive)
    case SettleCanceled(i) => i < |dag| && s.tasks[i] == Canceling && Turns(s, t, i, Canceled)
    case Clear(seed) =>
      && seed < |dag| && s.phase != Stopping && t.phase == (if s.phase == Settled then Waiting else s.phase)
      && |t.tasks| == |dag|
      && forall i :: 0 <= i < |dag| ==> t.tasks[i] == if Leads(dag, seed, i) then Cleared(s.tasks[i]) else s.tasks[i]
    case CompleteRestart(i) => i < |dag| && s.tasks[i] == Restarting && Turns(s, t, i, Untouched)
    case Replan => s.phase == Waiting && t == s.(phase := Open)
    case Refuse => s.phase == Waiting && t == s.(phase := Settled)
  }

  ghost predicate EachTask(dag: Dag, s: Job, t: Job, change: (Node, TaskState) -> TaskState)
    requires |s.tasks| == |dag|
  {
    |t.tasks| == |dag| && forall i :: 0 <= i < |dag| ==> t.tasks[i] == change(dag[i], s.tasks[i])
  }

  /** A pod finishes one task of its segment and takes up the next, all of whose
      upstream has then succeeded, in one transaction. */
  ghost predicate Advances(dag: Dag, s: Job, i: nat, skipped: bool, t: Job)
    requires |s.tasks| == |dag|
  {
    && i + 1 < |dag| && dag[i].pod && dag[i + 1].pod && dag[i].segment.Some? && dag[i].segment == dag[i + 1].segment
    && s.tasks[i] == Running && s.tasks[i + 1] == Untouched
    && t == s.(tasks := s.tasks[i := Done(skipped)][i + 1 := Running])
    && UpstreamSucceeded(dag, t.tasks, i + 1)
  }

  ghost predicate UpstreamSucceeded(dag: Dag, states: seq<TaskState>, i: nat)
    requires i < |dag| == |states|
  {
    forall k :: 0 <= k < |dag[i].upstream| ==> dag[i].upstream[k] < |states| && ClassOf(states[dag[i].upstream[k]]) == SuccessLike
  }

  function Planned(dag: Dag): Job {
    Job(Open, seq(|dag|, _ => Untouched))
  }

  /** A run: the states a job passes through from its planning, and the moves between. */
  ghost predicate Execution(dag: Dag, run: seq<Job>, moves: seq<Move>) {
    && |run| == |moves| + 1 && run[0] == Planned(dag)
    && forall n: nat :: n < |moves| ==> Linked(dag, run, moves, n)
  }

  /** The n-th move leads from one state to the next. */
  ghost predicate Linked(dag: Dag, run: seq<Job>, moves: seq<Move>, n: nat) {
    n < |moves| && n + 1 < |run| && |run[n].tasks| == |dag| && Step(dag, run[n], moves[n], run[n + 1])
  }

  // ---- what every move keeps --------------------------------------------------------------------

  /** The states that say all upstream has ended: any but untouched and restarting; under
      a cancel, being at work or having ended otherwise than by it. */
  predicate Claims(phase: Phase, s: TaskState) {
    if phase == Stopping then Working(s) || (Terminal(s) && s != Canceled) else s != Untouched && s != Restarting
  }

  ghost predicate Waits(dag: Dag, job: Job)
    requires |job.tasks| == |dag|
  {
    forall i :: 0 <= i < |dag| && Claims(job.phase, job.tasks[i]) ==> AllEnded(dag, job.tasks, i)
  }

  ghost predicate OnePod(dag: Dag, job: Job)
    requires |job.tasks| == |dag|
  {
    forall i, k :: 0 <= i < |dag| && 0 <= k < |dag| && HoldsPod(dag[i], job.tasks[i]) && HoldsPod(dag[k], job.tasks[k]) ==> i == k
  }

  /** Outside a cancel nothing is being cancelled. */
  ghost predicate NoneCanceling(job: Job) {
    job.phase != Stopping ==> forall i :: 0 <= i < |job.tasks| ==> job.tasks[i] != Canceling
  }

  ghost predicate Sound(dag: Dag, job: Job) {
    |job.tasks| == |dag| && Waits(dag, job) && OnePod(dag, job) && NoneCanceling(job)
  }

  /** A move that ends no ended task's end keeps the waiting, if whoever newly claims it
      has it. */
  lemma KeepsWaits(dag: Dag, s: Job, t: Job)
    requires |s.tasks| == |t.tasks| == |dag| && Waits(dag, s)
    requires forall i :: 0 <= i < |dag| && Terminal(s.tasks[i]) ==> Terminal(t.tasks[i])
    requires forall i :: 0 <= i < |dag| && Claims(t.phase, t.tasks[i]) ==> Claims(s.phase, s.tasks[i]) || AllEnded(dag, t.tasks, i)
    ensures Waits(dag, t)
  {
  }

  lemma KeepsOnePod(dag: Dag, s: Job, t: Job)
    requires |s.tasks| == |t.tasks| == |dag| && OnePod(dag, s)
    requires forall i :: 0 <= i < |dag| && HoldsPod(dag[i], t.tasks[i]) ==> HoldsPod(dag[i], s.tasks[i])
    ensures OnePod(dag, t)
  {
  }

  lemma SweepSound(dag: Dag, s: Job, t: Job)
    requires Sound(dag, s) && Step(dag, s, Sweep, t)
    ensures Sound(dag, t)
  {
    forall i | 0 <= i < |dag|
      ensures Terminal(s.tasks[i]) ==> t.tasks[i] == s.tasks[i]
      ensures t.tasks[i] != s.tasks[i] ==> s.tasks[i] == Untouched && AllEnded(dag, t.tasks, i) && (t.tasks[i] == Scheduled || Terminal(t.tasks[i]))
    {
      PassWaits(dag, s.tasks, t.tasks, i);
    }
    KeepsOnePod(dag, s, t);
    if t.phase == s.phase {
      KeepsWaits(dag, s, t);
    } else {
      SettledWaits(dag, s.tasks, t.tasks);
    }
  }

  lemma SettledWaits(dag: Dag, states: seq<TaskState>, after: seq<TaskState>)
    requires Passed(dag, states, after) && forall i :: 0 <= i < |after| ==> Terminal(after[i])
    ensures forall i :: 0 <= i < |dag| ==> AllEnded(dag, after, i)
  {
    forall i | 0 <= i < |dag|
      ensures AllEnded(dag, after, i)
    {
      assert UpstreamBefore(dag, i);
    }
  }

  /** A task that goes from work to work, or from work to its end, frees or keeps its pod. */
  lemma TurnSound(dag: Dag, s: Job, t: Job, i: nat, next: TaskState)
    requires Sound(dag, s) && i < |dag| && Turns(s, t, i, next) && next != Canceling
    requires !Terminal(s.tasks[i]) && (Claims(s.phase, next) ==> Claims(s.phase, s.tasks[i]))
    requires HoldsPod(dag[i], next) ==> HoldsPod(dag[i], s.tasks[i]) || forall k :: 0 <= k < |dag| ==> !HoldsPod(dag[k], s.tasks[k])
    ensures Sound(dag, t)
  {
    KeepsWaits(dag, s, t);
  }

  lemma AdvanceSound(dag: Dag, s: Job, i: nat, skipped: bool, t: Job)
    requires Sound(dag, s) && Advances(dag, s, i, skipped, t)
    ensures Sound(dag, t)
  {
    assert HoldsPod(dag[i], s.tasks[i]);
    KeepsWaits(dag, s, t);
  }

  lemma CancelSound(dag: Dag, s: Job, t: Job)
    requires Sound(dag, s) && s.phase == t.phase == Stopping
    requires EachTask(dag, s, t, CancelledPending) || EachTask(dag, s, t, CancelledLive)
    ensures Sound(dag, t)
  {
    KeepsWaits(dag, s, t);
    KeepsOnePod(dag, s, t);
  }

  lemma ClearSound(dag: Dag, s: Job, seed: nat, t: Job)
    requires Sound(dag, s) && Step(dag, s, Clear(seed), t)
    ensures Sound(dag, t)
  {
    KeepsOnePod(dag, s, t);
    forall i | 0 <= i < |dag| && Claims(t.phase, t.tasks[i])
      ensures AllEnded(dag, t.tasks, i)
    {
      assert !Leads(dag, seed, i);
      forall k | 0 <= k < |dag[i].upstream|
        ensures dag[i].upstream[k] < |dag| && Terminal(t.tasks[dag[i].upstream[k]])
      {
        var u := dag[i].upstream[k];
        if Leads(dag, seed, u) {
          LeadsStep(dag, seed, u, i);
        }
      }
    }
  }

  lemma StepSound(dag: Dag, s: Job, m: Move, t: Job)
    requires Sound(dag, s) && Step(dag, s, m, t)
    ensures Sound(dag, t)
  {
    if OneTask(m) {
      TaskStepSound(dag, s, m, t);
    } else if m.Sweep? {
      SweepSound(dag, s, t);
    } else if m.Clear? {
      ClearSound(dag, s, m.seed, t);
    } else if m.Advance? {
      AdvanceSound(dag, s, m.i, m.skipped, t);
    } else if m.CancelPending? || m.CancelLive? {
      CancelSound(dag, s, t);
    } else {
      KeepsWaits(dag, s, t);
    }
  }

  predicate OneTask(m: Move) {
    m.Claim? || m.Start? || m.Finish? || m.Fail? || m.Requeue? || m.SettleCanceled? || m.CompleteRestart?
  }

  lemma TaskStepSound(dag: Dag, s: Job, m: Move, t: Job)
    requires Sound(dag, s) && Step(dag, s, m, t) && OneTask(m)
    ensures Sound(dag, t)
  {
    match m
    case Claim(i) => TurnSound(dag, s, t, i, if dag[i].pod then Queued else Running);
    case Start(i) => TurnSound(dag, s, t, i, Running);
    case Finish(i, skipped) => TurnSound(dag, s, t, i, Done(skipped));
    case Fail(i, outcome) => TurnSound(dag, s, t, i, outcome);
    case Requeue(i) => TurnSound(dag, s, t, i, Scheduled);
    case SettleCanceled(i) => TurnSound(dag, s, t, i, Canceled);
    case CompleteRestart(i) => TurnSound(dag, s, t, i, Untouched);
  }

  lemma {:induction false} ExecutionSound(dag: Dag, run: seq<Job>, moves: seq<Move>, n: nat)
    requires Execution(dag, run, moves) && n < |run|
    ensures Sound(dag, run[n])
  {
    if n > 0 {
      ExecutionSound(dag, run, moves, n - 1);
      assert Linked(dag, run, moves, n - 1);
      StepSound(dag, run[n - 1], moves[n - 1], run[n]);
    } else {
      PlannedSound(dag);
    }
  }

  lemma PlannedSound(dag: Dag)
    ensures Sound(dag, Planned(dag))
  {
  }

  /** A task enters its pod or body only while its job runs, or as a teardown while it is
      being cancelled, or handed on by the pod it shares. */
  lemma LaunchesWhileOpen(dag: Dag, s: Job, m: Move, t: Job, i: nat)
    requires |s.tasks| == |dag| && Step(dag, s, m, t) && i < |dag|
    ensures |t.tasks| == |dag|
    ensures s.tasks[i] !in {Queued, Running} && t.tasks[i] in {Queued, Running} ==>
      s.phase == Open || (s.phase == Stopping && dag[i].teardown) || (m.Advance? && m.i + 1 == i)
  {
    if m.Sweep? {
      PassWaits(dag, s.tasks, t.tasks, i);
    }
  }

  // ---- what holds over every run ------------------------------------------------------------

  /** No two tasks ever hold a pod: over every run, whatever is cancelled, cleared,
      retried or handed over. */
  lemma NoTwoPods(dag: Dag, run: seq<Job>, moves: seq<Move>, n: nat, a: nat, b: nat)
    requires Execution(dag, run, moves) && n < |run| && a < b < |dag|
    ensures |run[n].tasks| == |dag|
    ensures dag[a].pod && dag[b].pod && run[n].tasks[a] in {Queued, Running, Restarting, Canceling} ==> run[n].tasks[b] !in {Queued, Running, Restarting, Canceling}
  {
    ExecutionSound(dag, run, moves, n);
  }

  /** A task at work has waited: over every run all its upstream has ended. */
  lemma WorkWaits(dag: Dag, run: seq<Job>, moves: seq<Move>, n: nat, i: nat)
    requires Execution(dag, run, moves) && n < |run| && i < |dag|
    ensures |run[n].tasks| == |dag| && (Working(run[n].tasks[i]) ==> AllEnded(dag, run[n].tasks, i))
  {
    ExecutionSound(dag, run, moves, n);
  }

  /** Outside a cancel, whatever leads to a task that is neither untouched nor
      restarting has ended. */
  lemma {:induction false} LeadersEnded(dag: Dag, job: Job, route: seq<nat>, a: nat, b: nat)
    requires Sound(dag, job) && job.phase != Stopping && IsRoute(dag, route, a, b) && a != b && b < |dag|
    requires job.tasks[b] != Untouched && job.tasks[b] != Restarting
    ensures a < |dag| && Terminal(job.tasks[a])
    decreases |route|
  {
    var init := route[..|route| - 1];
    var u := init[|init| - 1];
    assert Feeds(dag, u, b);
    var k :| 0 <= k < |dag[b].upstream| && dag[b].upstream[k] == u;
    assert AllEnded(dag, job.tasks, b) && Terminal(job.tasks[u]);
    if u != a {
      assert IsRoute(dag, init, a, u);
      LeadersEnded(dag, job, init, a, u);
    }
  }

  /** Two tasks, the first leading to the second, active at once. */
  ghost predicate Overlap(dag: Dag, job: Job, a: nat, b: nat) {
    && a < |dag| == |job.tasks| && b < |dag| && a != b && Leads(dag, a, b)
    && ActiveState(job.tasks[a]) && ActiveState(job.tasks[b])
  }

  /** Outside a cancel they are active together exactly when the first is active and
      the second is restarting. */
  lemma OverlapIff(dag: Dag, job: Job, a: nat, b: nat)
    requires Sound(dag, job) && job.phase != Stopping && a < |dag| && b < |dag| && a != b && Leads(dag, a, b)
    ensures Overlap(dag, job, a, b) <==> ActiveState(job.tasks[a]) && job.tasks[b] == Restarting
  {
    if ActiveState(job.tasks[b]) && job.tasks[b] != Restarting {
      var route :| IsRoute(dag, route, a, b);
      LeadersEnded(dag, job, route, a, b);
    }
  }

  /** A route between two tasks that no cancelled task lies on. */
  ghost predicate Uncut(dag: Dag, job: Job, route: seq<nat>, a: nat, b: nat) {
    && IsRoute(dag, route, a, b)
    && forall k :: 0 < k < |route| - 1 ==> route[k] < |job.tasks| && job.tasks[route[k]] != Canceled
  }

  /** In any phase, whatever leads to a task at work or ended, past no cancelled task, has
      ended. */
  lemma {:induction false} UncutEnded(dag: Dag, job: Job, route: seq<nat>, a: nat, b: nat)
    requires Sound(dag, job) && Uncut(dag, job, route, a, b) && a != b && b < |dag|
    requires Working(job.tasks[b]) || (Terminal(job.tasks[b]) && job.tasks[b] != Canceled)
    ensures a < |dag| && Terminal(job.tasks[a])
    decreases |route|
  {
    var init := route[..|route| - 1];
    var u := init[|init| - 1];
    assert Feeds(dag, u, b);
    var k :| 0 <= k < |dag[b].upstream| && dag[b].upstream[k] == u;
    assert AllEnded(dag, job.tasks, b) && Terminal(job.tasks[u]);
    if u != a {
      assert u == route[|route| - 2] && job.tasks[u] != Canceled;
      assert Uncut(dag, job, init, a, u);
      UncutEnded(dag, job, init, a, u);
    }
  }

  /** A task on its way out of its pod. */
  predicate Leaving(s: TaskState) {
    s == Restarting || s == Canceling
  }

  /** At work although something before it may not have ended: every way there leads past
      a cancelled task. */
  ghost predicate CutOff(dag: Dag, job: Job, a: nat, b: nat) {
    |job.tasks| == |dag| && b < |dag| && Working(job.tasks[b]) && forall route :: IsRoute(dag, route, a, b) ==> !Uncut(dag, job, route, a, b)
  }

  /** In any phase, they are active together exactly when the first is active and the
      second is on its way out of its pod, or cut off from the first. */
  lemma OverlapAnyIff(dag: Dag, job: Job, a: nat, b: nat)
    requires Sound(dag, job) && a < |dag| && b < |dag| && a != b && Leads(dag, a, b)
    ensures Overlap(dag, job, a, b) <==> ActiveState(job.tasks[a]) && (Leaving(job.tasks[b]) || CutOff(dag, job, a, b))
  {
    if ActiveState(job.tasks[a]) && Working(job.tasks[b]) {
      forall route | IsRoute(dag, route, a, b)
        ensures !Uncut(dag, job, route, a, b)
      {
        if Uncut(dag, job, route, a, b) {
          UncutEnded(dag, job, route, a, b);
        }
      }
    }
  }

  /** So a task active together with its direct upstream is leaving its pod. */
  lemma DirectOverlap(dag: Dag, job: Job, a: nat, b: nat)
    requires Sound(dag, job) && a < |dag| && Feeds(dag, a, b) && a != b
    ensures Overlap(dag, job, a, b) <==> ActiveState(job.tasks[a]) && Leaving(job.tasks[b])
  {
    assert IsRoute(dag, [a, b], a, b) && Uncut(dag, job, [a, b], a, b);
    OverlapAnyIff(dag, job, a, b);
  }

  ghost predicate TwoWriters(dag: Dag, job: Job) {
    |job.tasks| == |dag| && exists a: nat, b: nat :: Writers(dag, a, b) && ActiveState(job.tasks[a]) && ActiveState(job.tasks[b])
  }

  ghost predicate Writers(dag: Dag, a: nat, b: nat) {
    a < |dag| && b < |dag| && a != b && dag[a].writesLake && dag[b].writesLake
  }

  /** A later writer is restarting while an earlier one is active. */
  ghost predicate Caught(dag: Dag, job: Job) {
    |job.tasks| == |dag| && exists a: nat, b: nat :: Writers(dag, a, b) && Leads(dag, a, b) && ActiveState(job.tasks[a]) && job.tasks[b] == Restarting
  }

  /** Two writers, the earlier active, the later leaving its pod or cut off from it. */
  ghost predicate Loose(dag: Dag, job: Job) {
    |job.tasks| == |dag| && exists a: nat, b: nat ::
      Writers(dag, a, b) && Leads(dag, a, b) && ActiveState(job.tasks[a]) && (Leaving(job.tasks[b]) || CutOff(dag, job, a, b))
  }

  /** Safety over every run of an assembled graph, in every phase: two lake writers are
      active together exactly when the later one is leaving its pod, or at work behind a
      cancelled task on every way from the earlier one. */
  lemma WritersOverlapAnyIff(dag: Dag, run: seq<Job>, moves: seq<Move>, n: nat)
    requires WritersOrdered(dag) && Execution(dag, run, moves) && n < |run|
    ensures TwoWriters(dag, run[n]) <==> Loose(dag, run[n])
  {
    ExecutionSound(dag, run, moves, n);
    StateOverlapAnyIff(dag, run[n]);
  }

  lemma StateOverlapAnyIff(dag: Dag, job: Job)
    requires WritersOrdered(dag) && Sound(dag, job)
    ensures TwoWriters(dag, job) <==> Loose(dag, job)
  {
    if a: nat, b: nat :| Writers(dag, a, b) && ActiveState(job.tasks[a]) && ActiveState(job.tasks[b]) {
      if Leads(dag, a, b) {
        OverlapAnyIff(dag, job, a, b);
      } else {
        assert Leads(dag, b, a);
        OverlapAnyIff(dag, job, b, a);
        assert Writers(dag, b, a);
      }
    }
    if a: nat, b: nat :| Writers(dag, a, b) && Leads(dag, a, b) && ActiveState(job.tasks[a]) && (Leaving(job.tasks[b]) || CutOff(dag, job, a, b)) {
      OverlapAnyIff(dag, job, a, b);
    }
  }

  /** Safety over every run of an assembled graph: outside a cancel two lake writers are
      active together exactly when the later one is restarting, its pod being ended. */
  lemma WritersOverlapIff(dag: Dag, run: seq<Job>, moves: seq<Move>, n: nat)
    requires WritersOrdered(dag) && Execution(dag, run, moves) && n < |run| && run[n].phase != Stopping
    ensures TwoWriters(dag, run[n]) <==> Caught(dag, run[n])
  {
    ExecutionSound(dag, run, moves, n);
    StateOverlapIff(dag, run[n]);
  }

  lemma StateOverlapIff(dag: Dag, job: Job)
    requires WritersOrdered(dag) && Sound(dag, job) && job.phase != Stopping
    ensures TwoWriters(dag, job) <==> Caught(dag, job)
  {
    if a: nat, b: nat :| Writers(dag, a, b) && ActiveState(job.tasks[a]) && ActiveState(job.tasks[b]) {
      if Leads(dag, a, b) {
        OverlapIff(dag, job, a, b);
      } else {
        assert Leads(dag, b, a);
        OverlapIff(dag, job, b, a);
        assert Writers(dag, b, a);
      }
    }
  }

  /** Moves that catch no writer in its pod: no cancel, and no clear of a live writer. */
  ghost predicate Gentle(dag: Dag, s: Job, m: Move) {
    |s.tasks| == |dag| && m != RequestCancel && (m.Clear? ==> forall w: nat :: w < |dag| && dag[w].writesLake && Leads(dag, m.seed, w) ==> s.tasks[w] !in {Queued, Running})
  }

  ghost predicate Undisturbed(dag: Dag, job: Job) {
    |job.tasks| == |dag| && job.phase != Stopping && forall w :: 0 <= w < |dag| && dag[w].writesLake ==> job.tasks[w] != Restarting
  }

  lemma GentleStep(dag: Dag, s: Job, m: Move, t: Job)
    requires Sound(dag, s) && Undisturbed(dag, s) && Step(dag, s, m, t) && Gentle(dag, s, m)
    ensures Undisturbed(dag, t)
  {
    if m == Sweep {
      forall i | 0 <= i < |dag| && t.tasks[i] != s.tasks[i]
        ensures t.tasks[i] != Restarting
      {
        PassWaits(dag, s.tasks, t.tasks, i);
      }
    }
  }

  /** Without a cancel or a clear of a live writer no two writers are ever active. */
  lemma {:induction false} WritersNeverOverlap(dag: Dag, run: seq<Job>, moves: seq<Move>, n: nat)
    requires WritersOrdered(dag) && Execution(dag, run, moves) && n < |run|
    requires forall k :: 0 <= k < n ==> Gentle(dag, run[k], moves[k])
    ensures Undisturbed(dag, run[n]) && !TwoWriters(dag, run[n])
  {
    if n > 0 {
      WritersNeverOverlap(dag, run, moves, n - 1);
      StaysUndisturbed(dag, run, moves, n - 1);
    }
    ExecutionSound(dag, run, moves, n);
    UndisturbedApart(dag, run[n]);
  }

  lemma StaysUndisturbed(dag: Dag, run: seq<Job>, moves: seq<Move>, n: nat)
    requires Execution(dag, run, moves) && n + 1 < |run| && Undisturbed(dag, run[n]) && Gentle(dag, run[n], moves[n])
    ensures Undisturbed(dag, run[n + 1])
  {
    assert Linked(dag, run, moves, n);
    ExecutionSound(dag, run, moves, n);
    GentleStep(dag, run[n], moves[n], run[n + 1]);
  }

  lemma UndisturbedApart(dag: Dag, job: Job)
    requires WritersOrdered(dag) && Sound(dag, job) && Undisturbed(dag, job)
    ensures !TwoWriters(dag, job)
  {
    StateOverlapIff(dag, job);
  }

  /** Every lake writer runs in a pod: a control task cannot write. */
  ghost predicate WritersInPods(dag: Dag) {
    forall w :: 0 <= w < |dag| && dag[w].writesLake ==> dag[w].pod
  }

  /** So no two lake writers ever run at once, in any phase. */
  lemma NoTwoWriting(dag: Dag, run: seq<Job>, moves: seq<Move>, n: nat, a: nat, b: nat)
    requires WritersInPods(dag) && Execution(dag, run, moves) && n < |run| && a < b && Writers(dag, a, b)
    ensures |run[n].tasks| == |dag| && !(run[n].tasks[a] == Running && run[n].tasks[b] == Running)
  {
    NoTwoPods(dag, run, moves, n, a, b);
  }
}
