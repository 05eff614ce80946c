/** Which tasks a clear names: the task picked, everything it leads to, and every
    upstream whose recorded output is gone and is needed again. */
module JobClear {
  import opened Wrappers
  import opened JobDag

  // ---- which tasks a clear names -------------------------------------------------------

  type Successors = nat -> seq<nat>

  ghost predicate Walk(step: Successors, walk: seq<nat>, a: nat, b: nat) {
    && |walk| > 0 && walk[0] == a && walk[|walk| - 1] == b
    && forall k :: 0 < k < |walk| ==> walk[k] in step(walk[k - 1])
  }

  /** Some walk leads from one of the starting tasks to i. */
  ghost predicate Grown(start: seq<nat>, step: Successors, i: nat) {
    exists walk :: |walk| > 0 && walk[0] in start && Walk(step, walk, walk[0], i)
  }

  lemma GrownStart(start: seq<nat>, step: Successors, i: nat)
    requires i in start
    ensures Grown(start, step, i)
  {
    assert [i][0] in start && Walk(step, [i], [i][0], i);
  }

  lemma GrownStep(start: seq<nat>, step: Successors, i: nat, d: nat)
    requires Grown(start, step, i) && d in step(i)
    ensures Grown(start, step, d)
  {
    var walk :| |walk| > 0 && walk[0] in start && Walk(step, walk, walk[0], i);
    var longer := walk + [d];
    assert longer[0] in start && Walk(step, longer, longer[0], d);
  }

  lemma {:induction false} GrownInside(start: seq<nat>, step: Successors, run: set<nat>, walk: seq<nat>, i: nat)
    requires forall s :: s in start ==> s in run
    requires forall x, d :: x in run && d in step(x) ==> d in run
    requires |walk| > 0 && walk[0] in start && Walk(step, walk, walk[0], i)
    ensures i in run
    decreases |walk|
  {
    if |walk| > 1 {
      var init := walk[..|walk| - 1];
      assert Walk(step, init, init[0], init[|init| - 1]);
      GrownInside(start, step, run, init, init[|init| - 1]);
      assert walk[|walk| - 1] in step(walk[|walk| - 1 - 1]);
    }
  }

  /** What the frontier loop keeps: only what the start grows to is taken, and what
      has left the frontier has had its successors taken. */
  ghost predicate Growing(n: nat, start: seq<nat>, step: Successors, run: set<nat>, frontier: seq<nat>) {
    && (forall s :: s in start ==> s in run)
    && AllGrown(n, start, step, run)
    && Closed(step, run, frontier)
  }

  ghost predicate AllGrown(n: nat, start: seq<nat>, step: Successors, run: set<nat>) {
    forall i :: i in run ==> i < n && Grown(start, step, i)
  }

  lemma AllGrownNext(n: nat, start: seq<nat>, step: Successors, run: set<nat>, i: nat, unseen: seq<nat>)
    requires AllGrown(n, start, step, run) && i in run && unseen == NotIn(step(i), run)
    requires forall d :: d in step(i) ==> d < n
    ensures AllGrown(n, start, step, run + (set d | d in unseen))
  {
    forall d | d in unseen
      ensures d < n && Grown(start, step, d)
    {
      GrownStep(start, step, i, d);
    }
  }

  ghost predicate Closed(step: Successors, run: set<nat>, frontier: seq<nat>) {
    && (forall k :: 0 <= k < |frontier| ==> frontier[k] in run)
    && (forall i, d :: i in run && i !in frontier && d in step(i) ==> d in run)
  }

  lemma ClosedNext(step: Successors, run: set<nat>, rest: seq<nat>, i: nat, unseen: seq<nat>)
    requires Closed(step, run, rest + [i]) && unseen == NotIn(step(i), run)
    ensures Closed(step, run + (set d | d in unseen), rest + unseen)
  {
    var more := set d | d in unseen;
    forall x, d | x in run + more && x !in rest + unseen && d in step(x)
      ensures d in run + more
    {
      assert x in run && x !in rest;
      if x != i {
        assert x !in rest + [i];
      } else if d !in run {
        assert d in unseen;
      }
    }
    forall k | 0 <= k < |rest + unseen|
      ensures (rest + unseen)[k] in run + more
    {
      if k < |rest| {
        assert (rest + [i])[k] in run;
      } else {
        assert (rest + unseen)[k] in unseen;
      }
    }
  }

  /** The frontier loop of both closures: everything the start grows to. */
  method Grow(n: nat, start: seq<nat>, step: Successors) returns (run: set<nat>)
    requires forall s :: s in start ==> s < n
    requires forall i, d :: d in step(i) ==> d < n
    ensures forall i :: i in run <==> Grown(start, step, i)
    ensures forall i :: i in run ==> i < n
  {
    run := set i | i in start;
    var frontier := start;
    GrowStart(n, start, step, run);
    while frontier != []
      invariant Growing(n, start, step, run, frontier)
      decreases |Indices(n) - run|, |frontier|
    {
      var i, rest := frontier[|frontier| - 1], frontier[..|frontier| - 1];
      var unseen := NotIn(step(i), run);
      LastApart(frontier);
      ClosedNext(step, run, rest, i, unseen);
      AllGrownNext(n, start, step, run, i, unseen);
      FewerLeft(n, run, unseen);
      frontier, run := rest + unseen, run + set d | d in unseen;
    }
    GrownAll(n, start, step, run);
  }

  lemma LastApart<T>(s: seq<T>)
    requires s != []
    ensures s == s[..|s| - 1] + [s[|s| - 1]]
  {
  }

  lemma GrowStart(n: nat, start: seq<nat>, step: Successors, run: set<nat>)
    requires run == (set i | i in start) && forall s :: s in start ==> s < n
    ensures Growing(n, start, step, run, start)
  {
    forall i | i in start
      ensures Grown(start, step, i)
    {
      GrownStart(start, step, i);
    }
  }

  lemma FewerLeft(n: nat, run: set<nat>, unseen: seq<nat>)
    requires forall d :: d in unseen ==> d < n && d !in run
    ensures var more := run + (set d | d in unseen);
      if unseen == [] then more == run else |Indices(n) - more| < |Indices(n) - run|
  {
    var more := run + (set d | d in unseen);
    if unseen != [] {
      assert unseen[0] in unseen;
      assert Indices(n) - run == (Indices(n) - more) + (more - run);
      assert unseen[0] in more - run;
    }
  }

  lemma GrownAll(n: nat, start: seq<nat>, step: Successors, run: set<nat>)
    requires Growing(n, start, step, run, [])
    ensures forall i :: Grown(start, step, i) ==> i in run
  {
    forall i | Grown(start, step, i)
      ensures i in run
    {
      var walk :| |walk| > 0 && walk[0] in start && Walk(step, walk, walk[0], i);
      GrownInside(start, step, run, walk, i);
    }
  }

  function Down(dag: Dag): Successors {
    (i: nat) => DownstreamOf(dag, i, |dag|)
  }

  /** The upstream of a task whose recorded output no longer exists. */
  function Lost(dag: Dag, missing: nat -> bool): Successors {
    (i: nat) => if i < |dag| then Filter(dag[i].upstream, missing) else []
  }

  function Filter(list: seq<nat>, keep: nat -> bool): (r: seq<nat>)
    ensures forall d :: d in r <==> d in list && keep(d)
  {
    if list == [] then [] else
      var rest := Filter(list[..|list| - 1], keep);
      if keep(list[|list| - 1]) then rest + [list[|list| - 1]] else rest
  }

  /** The members of a set of task numbers below n, in order. */
  function Ordered(run: set<nat>, n: nat): (r: seq<nat>)
    ensures forall i :: i in r <==> i < n && i in run
  {
    if n == 0 then [] else
      var rest := Ordered(run, n - 1);
      if n - 1 in run then rest + [n - 1] else rest
  }

  /** Walking downstream is following a route. */
  lemma WalkIsRoute(dag: Dag, a: nat, b: nat)
    ensures Leads(dag, a, b) <==> exists walk :: Walk(Down(dag), walk, a, b)
  {
    if route :| IsRoute(dag, route, a, b) {
      forall k | 0 < k < |route|
        ensures route[k] in Down(dag)(route[k - 1])
      {
        assert Feeds(dag, route[k - 1], route[k]);
      }
      assert Walk(Down(dag), route, a, b);
    }
    if walk :| Walk(Down(dag), walk, a, b) {
      forall k | 0 < k < |walk|
        ensures Feeds(dag, walk[k - 1], walk[k])
      {
        assert walk[k] in Down(dag)(walk[k - 1]);
      }
      assert IsRoute(dag, walk, a, b);
    }
  }

  /** The tasks a clear re-runs: the seeds, what they lead to if asked for, and then
      every upstream demanded by a task that re-runs, its own output being gone. */
  method ClearClosure(dag: Dag, seeds: seq<nat>, downstream: bool, missing: nat -> bool) returns (run: set<nat>, demanded: set<nat>)
    requires Registered(dag) && forall s :: s in seeds ==> s < |dag|
    ensures demanded <= run
    ensures forall i :: i in run - demanded <==> if downstream then exists s :: s in seeds && Leads(dag, s, i) else i in seeds
    ensures forall i :: i in run <==> Grown(Ordered(run - demanded, |dag|), Lost(dag, missing), i)
    // with every output still there, the closure is just what the seeds lead to
    ensures (forall u :: !missing(u)) ==> demanded == {}
  {
    var below := set i | i in seeds;
    if downstream {
      below := Grow(|dag|, seeds, Down(dag));
      forall i
        ensures Grown(seeds, Down(dag), i) <==> exists s :: s in seeds && Leads(dag, s, i)
      {
        GrownRoutes(dag, seeds, i);
      }
    }
    run := Grow(|dag|, Ordered(below, |dag|), Lost(dag, missing));
    forall i | i in below
      ensures i in run
    {
      GrownStart(Ordered(below, |dag|), Lost(dag, missing), i);
    }
    demanded := run - below;
    SameTasks(run - demanded, below);
    if forall u :: !missing(u) {
      forall i | i in run
        ensures i in below
      {
        NothingLost(dag, Ordered(below, |dag|), missing, i);
      }
    }
  }

  lemma SameTasks(a: set<nat>, b: set<nat>)
    requires forall i :: i in a <==> i in b
    ensures a == b
  {
  }

  lemma GrownRoutes(dag: Dag, seeds: seq<nat>, i: nat)
    ensures Grown(seeds, Down(dag), i) <==> exists s :: s in seeds && Leads(dag, s, i)
  {
    if walk :| |walk| > 0 && walk[0] in seeds && Walk(Down(dag), walk, walk[0], i) {
      WalkIsRoute(dag, walk[0], i);
    }
    if s :| s in seeds && Leads(dag, s, i) {
      WalkIsRoute(dag, s, i);
      var walk :| Walk(Down(dag), walk, s, i);
      assert walk[0] in seeds;
    }
  }

  /** With every output still there nothing is demanded. */
  lemma NothingLost(dag: Dag, start: seq<nat>, missing: nat -> bool, i: nat)
    requires forall u :: !missing(u)
    ensures Grown(start, Lost(dag, missing), i) <==> i in start
  {
    if i in start {
      GrownStart(start, Lost(dag, missing), i);
    }
    if walk :| |walk| > 0 && walk[0] in start && Walk(Lost(dag, missing), walk, walk[0], i) {
      assert |walk| > 1 ==> walk[1] in Lost(dag, missing)(walk[1 - 1]);
    }
  }

  /** The closure as the server asks for it, of one task and with every output taken as
      present: exactly what the task leads to. */
  method ServerClosure(dag: Dag, seed: nat) returns (run: set<nat>)
    requires Registered(dag) && seed < |dag|
    ensures forall i :: i in run <==> Leads(dag, seed, i)
  {
    var demanded;
    run, demanded := ClearClosure(dag, [seed], true, _ => false);
    assert demanded == {};
    forall i: nat
      ensures i in run <==> Leads(dag, seed, i)
    {
      OneSeed(dag, seed, i);
      assert i in run - demanded <==> i in run;
    }
  }

  lemma OneSeed(dag: Dag, seed: nat, i: nat)
    ensures (exists s :: s in [seed] && Leads(dag, s, i)) <==> Leads(dag, seed, i)
  {
    assert seed in [seed];
  }

  /** What re-runs and everything it feeds re-runs too. */
  ghost predicate ClosedDown(dag: Dag, run: set<nat>) {
    forall i, d :: i in run && Feeds(dag, i, d) ==> d in run
  }

  /** A closure taken with its downstream leaves nothing running over a task it starts
      again exactly when every task fed by a demanded one is in it. */
  lemma ClosedDownIff(dag: Dag, seeds: seq<nat>, run: set<nat>, demanded: set<nat>)
    requires demanded <= run && forall i :: i in run - demanded <==> exists s :: s in seeds && Leads(dag, s, i)
    ensures ClosedDown(dag, run) <==> forall u, d :: u in demanded && Feeds(dag, u, d) ==> d in run
  {
    forall i, d | i in run - demanded && Feeds(dag, i, d)
      ensures d in run
    {
      var s :| s in seeds && Leads(dag, s, i);
      LeadsStep(dag, s, i, d);
      assert d in run - demanded;
    }
  }

  /** One source that two tasks read. */
  const FORK: Dag := [
    Node([], AllSucceeded, true, false, true, None), Node([0], AllSucceeded, false, false, true, None), Node([0], AllSucceeded, false, false, true, None)]

  function SourceLost(): nat -> bool {
    i => i == 0
  }

  /** Clearing one reader with the source's output lost starts the source again and leaves
      the other reader as it is. */
  method ForkSplits() returns (run: set<nat>, demanded: set<nat>)
    ensures 0 in demanded && 1 in run && 2 !in run && !ClosedDown(FORK, run)
  {
    run, demanded := ClearClosure(FORK, [1], true, SourceLost());
    ForkClosure(run, demanded);
  }

  lemma ForkClosure(run: set<nat>, demanded: set<nat>)
    requires demanded <= run && forall i :: i in run - demanded <==> exists s :: s in [1] && Leads(FORK, s, i)
    requires forall i :: i in run <==> Grown(Ordered(run - demanded, |FORK|), Lost(FORK, SourceLost()), i)
    ensures 0 in demanded && 1 in run && 2 !in run && !ClosedDown(FORK, run)
  {
    ForkLeads();
    OneSeed(FORK, 1, 0);
    OneSeed(FORK, 1, 1);
    OneSeed(FORK, 1, 2);
    ForkDemands(Ordered(run - demanded, |FORK|));
    assert 0 in FORK[2].upstream && Feeds(FORK, 0, 2);
  }

  lemma ForkDemands(start: seq<nat>)
    requires 1 in start && 2 !in start
    ensures Grown(start, Lost(FORK, SourceLost()), 0) && !Grown(start, Lost(FORK, SourceLost()), 2)
  {
    var lost := Lost(FORK, SourceLost());
    assert 0 in FORK[1].upstream;
    GrownStart(start, lost, 1);
    GrownStep(start, lost, 1, 0);
    if walk :| |walk| > 0 && walk[0] in start && Walk(lost, walk, walk[0], 2) {
      EndsLost(FORK, SourceLost(), walk, walk[0], 2);
    }
  }

  lemma EndsLost(dag: Dag, missing: nat -> bool, walk: seq<nat>, a: nat, b: nat)
    requires Walk(Lost(dag, missing), walk, a, b)
    ensures a == b || missing(b)
  {
    if |walk| > 1 {
      assert walk[|walk| - 1] in Lost(dag, missing)(walk[|walk| - 1 - 1]);
    }
  }

  lemma ForkLeads()
    ensures Leads(FORK, 1, 1) && !Leads(FORK, 1, 0) && !Leads(FORK, 1, 2)
  {
    assert IsRoute(FORK, [1], 1, 1);
    forall i: nat | i != 1
      ensures !Leads(FORK, 1, i)
    {
      if route :| IsRoute(FORK, route, 1, i) {
        assert Feeds(FORK, route[1 - 1], route[1]);
      }
    }
  }
}
