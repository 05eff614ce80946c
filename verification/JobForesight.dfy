/** What a clear or a cancel will start, told from the state before it: exactly when two
    lake writers are active once it and the sweep after it are done. */
module JobForesight {
  import opened JobDag
  import opened JobRun

  // ---- what a clear may start -----------------------------------------------------------------

  /** A clear of `seed` and the sweep after it. */
  ghost predicate Reruns(dag: Dag, s: Job, seed: nat, cleared: Job, t: Job) {
    && |s.tasks| == |cleared.tasks| == |dag|
    && Step(dag, s, Clear(seed), cleared) && Step(dag, cleared, Sweep, t)
  }

  /** The clear finds writer w in its pod, and the sweep starts another. */
  ghost predicate Collides(dag: Dag, s: Job, seed: nat, cleared: Job, t: Job, a: nat, w: nat) {
    && |s.tasks| == |cleared.tasks| == |t.tasks| == |dag| && Writers(dag, a, w)
    && Leads(dag, seed, w) && s.tasks[w] in {Queued, Running}
    && cleared.tasks[a] == Untouched && t.tasks[a] == Scheduled
  }

  ghost function ClearedTasks(dag: Dag, tasks: seq<TaskState>, seed: nat): seq<TaskState>
    requires |tasks| == |dag|
  {
    seq(|dag|, i requires 0 <= i < |dag| => if Leads(dag, seed, i) then Cleared(tasks[i]) else tasks[i])
  }

  /** Foretold from the state before the clear: it will find writer w in its pod, and the
      sweep after it will start another, which it makes start over. */
  ghost predicate WillCollide(dag: Dag, s: Job, seed: nat, a: nat, w: nat)
    requires Registered(dag)
  {
    && |s.tasks| == |dag| && Writers(dag, a, w)
    && Leads(dag, seed, w) && s.tasks[w] in {Queued, Running}
    && ClearedTasks(dag, s.tasks, seed)[a] == Untouched && Swept(dag, ClearedTasks(dag, s.tasks, seed), |dag|)[a] == Scheduled
  }

  /** When a clear makes two writers active, exactly, and so that it can be checked before
      the clear: it catches one of them in its pod, and the next sweep starts another. */
  lemma ClearOverlapIff(dag: Dag, s: Job, seed: nat, cleared: Job, t: Job)
    requires Registered(dag) && WritersOrdered(dag) && Sound(dag, s) && Undisturbed(dag, s) && Reruns(dag, s, seed, cleared, t)
    ensures TwoWriters(dag, t) <==> exists a: nat, w: nat :: WillCollide(dag, s, seed, a, w)
  {
    assert cleared.tasks == ClearedTasks(dag, s.tasks, seed);
    PassForetold(dag, cleared.tasks, t.tasks);
    if TwoWriters(dag, t) {
      var a, w := OverlapCollides(dag, s, seed, cleared, t);
      assert WillCollide(dag, s, seed, a, w);
    }
    if a: nat, w: nat :| WillCollide(dag, s, seed, a, w) {
      CollidesActive(dag, s, seed, cleared, t, a, w);
    }
  }

  lemma OverlapCollides(dag: Dag, s: Job, seed: nat, cleared: Job, t: Job) returns (a: nat, w: nat)
    requires WritersOrdered(dag) && Sound(dag, s) && Undisturbed(dag, s) && Reruns(dag, s, seed, cleared, t)
    requires TwoWriters(dag, t)
    ensures Collides(dag, s, seed, cleared, t, a, w)
  {
    RerunSound(dag, s, seed, cleared, t);
    a, w :| Writers(dag, a, w) && Leads(dag, a, w) && ActiveState(t.tasks[a]) && t.tasks[w] == Restarting;
    CaughtCollides(dag, s, seed, cleared, t, a, w);
  }

  lemma RerunSound(dag: Dag, s: Job, seed: nat, cleared: Job, t: Job)
    requires WritersOrdered(dag) && Sound(dag, s) && Undisturbed(dag, s) && Reruns(dag, s, seed, cleared, t)
    ensures |t.tasks| == |dag| && (TwoWriters(dag, t) <==> Caught(dag, t))
  {
    ClearSound(dag, s, seed, cleared);
    SweepSound(dag, cleared, t);
    StateOverlapIff(dag, t);
  }

  lemma CaughtCollides(dag: Dag, s: Job, seed: nat, cleared: Job, t: Job, a: nat, w: nat)
    requires Sound(dag, s) && Undisturbed(dag, s) && Reruns(dag, s, seed, cleared, t)
    requires Writers(dag, a, w) && Leads(dag, a, w) && |t.tasks| == |dag| && ActiveState(t.tasks[a]) && t.tasks[w] == Restarting
    ensures Collides(dag, s, seed, cleared, t, a, w)
  {
    PassWaits(dag, cleared.tasks, t.tasks, w);
    PassWaits(dag, cleared.tasks, t.tasks, a);
    var route :| IsRoute(dag, route, a, w);
    LeadersEnded(dag, s, route, a, w);
  }

  lemma CollidesActive(dag: Dag, s: Job, seed: nat, cleared: Job, t: Job, a: nat, w: nat)
    requires Reruns(dag, s, seed, cleared, t) && Collides(dag, s, seed, cleared, t, a, w)
    ensures TwoWriters(dag, t)
  {
    PassWaits(dag, cleared.tasks, t.tasks, w);
    assert ActiveState(t.tasks[a]) && ActiveState(t.tasks[w]);
  }

  /** Routes only go to later tasks. */
  lemma {:induction false} LeadsUp(dag: Dag, route: seq<nat>, a: nat, b: nat)
    requires Registered(dag) && IsRoute(dag, route, a, b)
    ensures a <= b
    decreases |route|
  {
    if |route| > 1 {
      var init := route[..|route| - 1];
      LeadsUp(dag, init, a, init[|init| - 1]);
      assert Feeds(dag, init[|init| - 1], b);
      var k :| 0 <= k < |dag[b].upstream| && dag[b].upstream[k] == init[|init| - 1];
    }
  }

  /** Clearing a writer whose rule fires as things stand: what can be checked before the
      clear. Two writers are active after the next sweep exactly when the clear finds
      another, later writer in its pod. */
  lemma WriterClearIff(dag: Dag, s: Job, seed: nat, cleared: Job, t: Job)
    requires Registered(dag) && WritersOrdered(dag) && Sound(dag, s) && Undisturbed(dag, s) && Reruns(dag, s, seed, cleared, t)
    requires seed < |dag| && dag[seed].writesLake && Terminal(s.tasks[seed])
    requires UpstreamBefore(dag, seed) && Evaluate(dag[seed].rule, StatesOf(s.tasks, dag[seed].upstream)) == Fire
    ensures TwoWriters(dag, t) <==> exists w: nat :: LiveLater(dag, s, seed, w)
  {
    if TwoWriters(dag, t) {
      var a, w := OverlapCollides(dag, s, seed, cleared, t);
      assert LiveLater(dag, s, seed, w);
    }
    if w: nat :| LiveLater(dag, s, seed, w) {
      SeedFires(dag, s, seed, cleared, t);
      CollidesActive(dag, s, seed, cleared, t, seed, w);
    }
  }

  /** Another writer, later than this one, is in its pod. */
  ghost predicate LiveLater(dag: Dag, s: Job, seed: nat, w: nat) {
    |s.tasks| == |dag| && Writers(dag, seed, w) && Leads(dag, seed, w) && s.tasks[w] in {Queued, Running}
  }

  lemma SeedFires(dag: Dag, s: Job, seed: nat, cleared: Job, t: Job)
    requires Registered(dag) && Reruns(dag, s, seed, cleared, t) && seed < |dag| && Terminal(s.tasks[seed])
    requires UpstreamBefore(dag, seed) && Evaluate(dag[seed].rule, StatesOf(s.tasks, dag[seed].upstream)) == Fire
    ensures |t.tasks| == |dag| && cleared.tasks[seed] == Untouched && t.tasks[seed] == Scheduled
  {
    assert IsRoute(dag, [seed], seed, seed);
    assert Leads(dag, seed, seed);
    var upstream := dag[seed].upstream;
    forall k | 0 <= k < |upstream|
      ensures t.tasks[upstream[k]] == s.tasks[upstream[k]]
    {
      var u := upstream[k];
      if route :| IsRoute(dag, route, seed, u) {
        LeadsUp(dag, route, seed, u);
      }
      assert StatesOf(s.tasks, upstream)[k] == s.tasks[u];
      PassWaits(dag, cleared.tasks, t.tasks, u);
    }
    assert UpstreamBefore(dag, seed) && t.tasks[seed] == Settled1(dag[seed], t.tasks[..seed], cleared.tasks[seed]);
    assert StatesOf(t.tasks[..seed], upstream) == StatesOf(s.tasks, upstream);
  }

  // ---- what a cancel may start ------------------------------------------------------------------

  /** A cancel, its sweep over the tasks, and the readiness sweep after it. */
  ghost predicate Halts(dag: Dag, s: Job, pending: Job, halted: Job, t: Job) {
    && |s.tasks| == |pending.tasks| == |halted.tasks| == |dag| && s.phase == Open
    && Step(dag, s, RequestCancel, s.(phase := Stopping)) && Step(dag, s.(phase := Stopping), CancelPending, pending)
    && Step(dag, pending, CancelLive, halted) && Step(dag, halted, Sweep, t)
  }

  /** What the cancel sweep makes of the tasks, teardowns aside. */
  function HaltedTasks(dag: Dag, tasks: seq<TaskState>): seq<TaskState>
    requires |tasks| == |dag|
  {
    seq(|dag|, i requires 0 <= i < |dag| => CancelledLive(dag[i], CancelledPending(dag[i], tasks[i])))
  }

  /** Foretold from the state before the cancel: the task will still, or newly, be active
      after it. */
  predicate StaysActive(dag: Dag, tasks: seq<TaskState>, i: nat)
    requires Registered(dag) && i < |dag| == |tasks|
  {
    if !dag[i].teardown then tasks[i] in {Queued, Running, Restarting, Canceling}
    else ActiveState(tasks[i]) || (tasks[i] == Untouched && Swept(dag, HaltedTasks(dag, tasks), |dag|)[i] == Scheduled)
  }

  lemma HaltedActive(dag: Dag, s: Job, pending: Job, halted: Job, t: Job, i: nat)
    requires Registered(dag) && Halts(dag, s, pending, halted, t) && i < |dag|
    ensures |t.tasks| == |dag| && (ActiveState(t.tasks[i]) <==> StaysActive(dag, s.tasks, i))
  {
    HaltedIs(dag, s, pending, halted, t);
    PassForetold(dag, halted.tasks, t.tasks);
    PassWaits(dag, halted.tasks, t.tasks, i);
    HaltedActiveState(dag[i], s.tasks[i]);
  }

  lemma HaltedIs(dag: Dag, s: Job, pending: Job, halted: Job, t: Job)
    requires Halts(dag, s, pending, halted, t)
    ensures halted.tasks == HaltedTasks(dag, s.tasks)
  {
    forall i | 0 <= i < |dag|
      ensures halted.tasks[i] == HaltedTasks(dag, s.tasks)[i]
    {
      assert pending.tasks[i] == CancelledPending(dag[i], s.tasks[i]);
    }
  }

  lemma HaltedActiveState(node: Node, s: TaskState)
    ensures var after := CancelledLive(node, CancelledPending(node, s));
      && (node.teardown ==> after == s)
      && (!node.teardown ==> after != Untouched && (ActiveState(after) <==> s in {Queued, Running, Restarting, Canceling}))
  {
  }

  /** What the cancel sweep makes of one task: a teardown is left, what has not begun is
      cancelled, what is in its pod is asked to end, what has ended stays. */
  lemma HaltedState(node: Node, s: TaskState)
    ensures var after := CancelledLive(node, CancelledPending(node, s));
      && (node.teardown ==> after == s)
      && (!node.teardown && s in {Untouched, Scheduled, UpForRetry} ==> after == Canceled)
      && (!node.teardown && s in {Queued, Running, Restarting} ==> after == Canceling)
      && (!node.teardown && s !in {Untouched, Scheduled, UpForRetry, Queued, Running, Restarting} ==> after == s)
  {
  }

  /** When a cancel leaves or makes two writers active, exactly, and so that it can be
      checked before the cancel: each of them is in its pod, or is a teardown that is
      active or will be started. */
  lemma CancelOverlapIff(dag: Dag, s: Job, pending: Job, halted: Job, t: Job)
    requires Registered(dag) && Halts(dag, s, pending, halted, t)
    ensures TwoWriters(dag, t) <==>
      exists a: nat, b: nat :: Writers(dag, a, b) && StaysActive(dag, s.tasks, a) && StaysActive(dag, s.tasks, b)
  {
    forall i: nat | i < |dag|
      ensures |t.tasks| == |dag| && (ActiveState(t.tasks[i]) <==> StaysActive(dag, s.tasks, i))
    {
      HaltedActive(dag, s, pending, halted, t, i);
    }
    assert |t.tasks| == |dag|;
  }

  /** The rule of an untouched teardown fires once the cancel has halted the rest. */
  predicate FiresHalted(dag: Dag, tasks: seq<TaskState>, d: nat)
    requires Registered(dag) && d < |dag| == |tasks|
  {
    dag[d].teardown && tasks[d] == Untouched && Evaluate(dag[d].rule, StatesOf(HaltedTasks(dag, tasks), dag[d].upstream)) == Fire
  }

  lemma TeardownFires(dag: Dag, s: Job, pending: Job, halted: Job, t: Job, d: nat)
    requires Registered(dag) && Halts(dag, s, pending, halted, t) && d < |dag| && FiresHalted(dag, s.tasks, d)
    ensures |t.tasks| == |dag| && t.tasks[d] == Scheduled
  {
    HaltedIs(dag, s, pending, halted, t);
    var upstream := dag[d].upstream;
    forall k | 0 <= k < |upstream|
      ensures t.tasks[upstream[k]] == halted.tasks[upstream[k]]
    {
      assert StatesOf(halted.tasks, upstream)[k] == halted.tasks[upstream[k]];
      PassWaits(dag, halted.tasks, t.tasks, upstream[k]);
    }
    assert UpstreamBefore(dag, d) && t.tasks[d] == Settled1(dag[d], t.tasks[..d], halted.tasks[d]);
    assert StatesOf(t.tasks[..d], upstream) == StatesOf(halted.tasks, upstream);
  }

  /** With one writing teardown, whose rule then fires: two writers are active exactly when
      the cancel finds another writer in its pod. */
  lemma TeardownOverlapIff(dag: Dag, s: Job, pending: Job, halted: Job, t: Job, d: nat)
    requires Registered(dag) && Halts(dag, s, pending, halted, t)
    requires d < |dag| && dag[d].writesLake && FiresHalted(dag, s.tasks, d)
    requires forall w :: 0 <= w < |dag| && dag[w].writesLake && dag[w].teardown ==> w == d
    ensures TwoWriters(dag, t) <==>
      exists w: nat :: Writers(dag, w, d) && s.tasks[w] in {Queued, Running, Restarting, Canceling}
  {
    CancelOverlapIff(dag, s, pending, halted, t);
    TeardownFires(dag, s, pending, halted, t, d);
    HaltedActive(dag, s, pending, halted, t, d);
    if w: nat :| Writers(dag, w, d) && s.tasks[w] in {Queued, Running, Restarting, Canceling} {
      assert StaysActive(dag, s.tasks, w) && StaysActive(dag, s.tasks, d);
    }
    if a: nat, b: nat :| Writers(dag, a, b) && StaysActive(dag, s.tasks, a) && StaysActive(dag, s.tasks, b) {
      var w := if a == d then b else a;
      assert Writers(dag, w, d) && !dag[w].teardown;
    }
  }
}
