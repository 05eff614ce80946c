/** The job graph: tasks in registration order, each naming earlier tasks as its
    upstream. Assembly refuses two lake writers that no path orders; a readiness
    pass schedules what may run and propagates what never can. */
module JobDag {
  import opened Wrappers

  datatype Rule = AllSucceeded | AllTerminal | AnyFailed

  datatype TaskState =
    | Untouched | Scheduled | Queued | Running | UpForRetry | Restarting | Canceling
    | Succeeded | Skipped | Failed | TimedOut | UpstreamFailed | UpstreamSkipped | Canceled

  datatype Class = SuccessLike | SkipLike | FailureLike | StopLike | Pending

  function ClassOf(s: TaskState): Class {
    match s
    case Succeeded => SuccessLike
    case Skipped => SkipLike
    case UpstreamSkipped => SkipLike
    case Failed => FailureLike
    case TimedOut => FailureLike
    case UpstreamFailed => FailureLike
    case Canceled => StopLike
    case _ => Pending
  }

  predicate Terminal(s: TaskState) {
    ClassOf(s) != Pending
  }

  /** A task runs in a pod or, a control task, in the dispatcher; contiguous tasks of
      one segment may share a pod. */
  datatype Node = Node(upstream: seq<nat>, rule: Rule, writesLake: bool, teardown: bool, pod: bool, segment: Option<int>)

  type Dag = seq<Node>

  /** A handle can only name a node registered before. */
  ghost predicate Registered(dag: Dag) {
    forall i, k :: 0 <= i < |dag| && 0 <= k < |dag[i].upstream| ==> dag[i].upstream[k] < i
  }

  // ---- reachability and assembly --------------------------------------------------------

  predicate Feeds(dag: Dag, a: nat, b: nat) {
    b < |dag| && a in dag[b].upstream
  }

  ghost predicate IsRoute(dag: Dag, route: seq<nat>, a: nat, b: nat) {
    && |route| > 0 && route[0] == a && route[|route| - 1] == b
    && forall i :: 0 < i < |route| ==> Feeds(dag, route[i - 1], route[i])
  }

  ghost predicate Leads(dag: Dag, a: nat, b: nat) {
    exists route :: IsRoute(dag, route, a, b)
  }

  /** Direct downstream of a node among the first n, in ascending order. */
  function DownstreamOf(dag: Dag, i: nat, n: nat): (r: seq<nat>)
    requires n <= |dag|
    ensures forall d: nat :: d in r <==> d < n && i in dag[d].upstream
  {
    if n == 0 then [] else
      var rest := DownstreamOf(dag, i, n - 1);
      if i in dag[n - 1].upstream then rest + [n - 1] else rest
  }

  function Indices(n: nat): (r: set<nat>)
    ensures forall i: nat :: i in r <==> i < n
  {
    if n == 0 then {} else Indices(n - 1) + {n - 1}
  }

  function NotIn(list: seq<nat>, seen: set<nat>): (r: seq<nat>)
    ensures forall d :: d in r <==> d in list && d !in seen
  {
    if list == [] then [] else
      var rest := NotIn(list[..|list| - 1], seen);
      if list[|list| - 1] in seen then rest else rest + [list[|list| - 1]]
  }

  lemma LeadsStep(dag: Dag, a: nat, b: nat, c: nat)
    requires Leads(dag, a, b) && Feeds(dag, b, c)
    ensures Leads(dag, a, c)
  {
    var route :| IsRoute(dag, route, a, b);
    assert IsRoute(dag, route + [c], a, c);
  }

  /** Nodes whose downstream has all been seen hold everything that can be reached. */
  lemma {:induction false} SeenClosed(dag: Dag, seen: set<nat>, a: nat, route: seq<nat>, b: nat)
    requires a in seen && forall i, d :: i in seen && Feeds(dag, i, d) ==> d in seen
    requires IsRoute(dag, route, a, b)
    ensures b in seen
    decreases |route|
  {
    if |route| > 1 {
      var init := route[..|route| - 1];
      assert IsRoute(dag, init, a, init[|init| - 1]);
      SeenClosed(dag, seen, a, init, init[|init| - 1]);
      assert Feeds(dag, route[|route| - 2], route[|route| - 1]);
    }
  }

  /** Depth-first search along the edges: true exactly when some path exists. */
  method Reaches(dag: Dag, from: nat, to: nat) returns (found: bool)
    requires from < |dag|
    ensures found <==> Leads(dag, from, to)
  {
    assert IsRoute(dag, [from], from, from);
    if from == to {
      return true;
    }
    var frontier, seen := [from], {from};
    while frontier != []
      invariant from in seen && to !in seen && seen <= Indices(|dag|)
      invariant forall i :: 0 <= i < |frontier| ==> frontier[i] in seen
      invariant forall i :: i in seen ==> Leads(dag, from, i)
      invariant forall i, d :: i in seen && i !in frontier && Feeds(dag, i, d) ==> d in seen
      decreases Indices(|dag|) - seen, |frontier|
    {
      var i := frontier[|frontier| - 1];
      var next := DownstreamOf(dag, i, |dag|);
      ghost var rest := frontier[..|frontier| - 1];
      assert forall x :: x in frontier <==> x in rest || x == i;
      if to in next {
        LeadsStep(dag, from, i, to);
        return true;
      }
      forall d | d in next
        ensures Leads(dag, from, d)
      {
        LeadsStep(dag, from, i, d);
      }
      var unseen := NotIn(next, seen);
      frontier := frontier[..|frontier| - 1] + unseen;
      assert unseen != [] ==> unseen[0] in unseen;
      seen := seen + set d | d in unseen;
    }
    if Leads(dag, from, to) {
      var route :| IsRoute(dag, route, from, to);
      SeenClosed(dag, seen, from, route, to);
    }
    return false;
  }

  ghost predicate WritersOrdered(dag: Dag) {
    forall a: nat, b: nat :: a < b < |dag| && dag[a].writesLake && dag[b].writesLake ==> Leads(dag, a, b) || Leads(dag, b, a)
  }

  /** The lake-writer check of assembly: refuses exactly the graphs in which two
      writers have no path between them. */
  method WritersCheck(dag: Dag) returns (ok: bool)
    ensures ok <==> WritersOrdered(dag)
  {
    for a := 0 to |dag|
      invariant forall x: nat, y: nat :: x < a && x < y < |dag| && dag[x].writesLake && dag[y].writesLake ==> Leads(dag, x, y) || Leads(dag, y, x)
    {
      for b := a + 1 to |dag|
        invariant forall y: nat :: a < y < b && dag[a].writesLake && dag[y].writesLake ==> Leads(dag, a, y) || Leads(dag, y, a)
      {
        if dag[a].writesLake && dag[b].writesLake {
          var there := Reaches(dag, a, b);
          var back := Reaches(dag, b, a);
          if !there && !back {
            return false;
          }
        }
      }
    }
    return true;
  }

  // ---- readiness -------------------------------------------------------------------------

  datatype Verdict = Fire | Propagate(state: TaskState) | Wait

  function Evaluate(rule: Rule, upstream: seq<TaskState>): Verdict {
    if exists i :: 0 <= i < |upstream| && !Terminal(upstream[i]) then Wait
    else match rule
      case AllSucceeded =>
        if forall i :: 0 <= i < |upstream| ==> ClassOf(upstream[i]) == SuccessLike then Fire
        else if forall i :: 0 <= i < |upstream| ==> ClassOf(upstream[i]) in {SuccessLike, SkipLike} then Propagate(UpstreamSkipped)
        else if forall i :: 0 <= i < |upstream| ==> ClassOf(upstream[i]) in {SuccessLike, StopLike} then Propagate(Canceled)
        else Propagate(UpstreamFailed)
      case AllTerminal => Fire
      case AnyFailed =>
        if exists i :: 0 <= i < |upstream| && ClassOf(upstream[i]) == FailureLike then Fire else Propagate(UpstreamSkipped)
  }

  function StatesOf(states: seq<TaskState>, upstream: seq<nat>): seq<TaskState>
    requires forall k :: 0 <= k < |upstream| ==> upstream[k] < |states|
  {
    seq(|upstream|, k requires 0 <= k < |upstream| => states[upstream[k]])
  }

  /** What one node becomes in a pass over the states before it. */
  function Settled1(node: Node, states: seq<TaskState>, own: TaskState): TaskState
    requires forall k :: 0 <= k < |node.upstream| ==> node.upstream[k] < |states|
  {
    if own != Untouched then own
    else match Evaluate(node.rule, StatesOf(states, node.upstream))
      case Fire => Scheduled
      case Propagate(s) => s
      case Wait => Untouched
  }

  /** One readiness pass, its verdicts recorded: in topological order, propagations
      cascading within the pass. */
  method Pass(dag: Dag, states: seq<TaskState>) returns (after: seq<TaskState>)
    requires |states| == |dag| && Registered(dag)
    ensures |after| == |dag|
    ensures forall i :: 0 <= i < |dag| ==> UpstreamBefore(dag, i) && after[i] == Settled1(dag[i], after[..i], states[i])
  {
    after := states;
    for i := 0 to |dag|
      invariant |after| == |dag|
      invariant forall j :: i <= j < |dag| ==> after[j] == states[j]
      invariant forall j :: 0 <= j < i ==> UpstreamBefore(dag, j) && after[j] == Settled1(dag[j], after[..j], states[j])
    {
      ghost var before := after;
      assert UpstreamBefore(dag, i);
      assert StatesOf(after, dag[i].upstream) == StatesOf(after[..i], dag[i].upstream);
      if after[i] == Untouched {
        match Evaluate(dag[i].rule, StatesOf(after, dag[i].upstream)) {
          case Fire => after := after[i := Scheduled];
          case Propagate(s) => after := after[i := s];
          case Wait =>
        }
      }
      assert forall j :: 0 <= j <= i ==> after[..j] == before[..j];
    }
  }

  ghost predicate UpstreamBefore(dag: Dag, i: nat) {
    i < |dag| && forall k :: 0 <= k < |dag[i].upstream| ==> dag[i].upstream[k] < i
  }

  /** The pass as a relation, for runs. */
  ghost predicate Passed(dag: Dag, states: seq<TaskState>, after: seq<TaskState>) {
    && |states| == |after| == |dag|
    && forall i :: 0 <= i < |dag| ==> UpstreamBefore(dag, i) && after[i] == Settled1(dag[i], after[..i], states[i])
  }

  // ---- what each rule decides, by the names of the states --------------------------------

  /** Every direct upstream of task i is in one of these states. */
  ghost predicate UpstreamIn(dag: Dag, states: seq<TaskState>, i: nat, kinds: set<TaskState>)
    requires UpstreamBefore(dag, i) && |states| == |dag|
  {
    forall k :: 0 <= k < |dag[i].upstream| ==> states[dag[i].upstream[k]] in kinds
  }

  const ENDED: set<TaskState> := {Succeeded, Skipped, Failed, TimedOut, UpstreamFailed, UpstreamSkipped, Canceled}

  lemma UpstreamStates(dag: Dag, states: seq<TaskState>, after: seq<TaskState>, i: nat)
    requires Passed(dag, states, after) && i < |dag|
    ensures UpstreamBefore(dag, i) && |StatesOf(after[..i], dag[i].upstream)| == |dag[i].upstream|
    ensures forall k :: 0 <= k < |dag[i].upstream| ==> StatesOf(after[..i], dag[i].upstream)[k] == after[dag[i].upstream[k]]
    ensures states[i] == Untouched ==> after[i] == match Evaluate(dag[i].rule, StatesOf(after[..i], dag[i].upstream)) case Fire => Scheduled case Propagate(s) => s case Wait => Untouched
    ensures states[i] != Untouched ==> after[i] == states[i]
  {
    assert UpstreamBefore(dag, i) && after[i] == Settled1(dag[i], after[..i], states[i]);
  }

  /** An untouched task that needs all upstream to succeed: what a sweep makes of it. */
  lemma AllSucceededVerdict(dag: Dag, states: seq<TaskState>, after: seq<TaskState>, i: nat)
    requires Passed(dag, states, after) && i < |dag| && states[i] == Untouched && dag[i].rule == AllSucceeded
    ensures UpstreamBefore(dag, i)
    ensures after[i] == Untouched <==> !UpstreamIn(dag, after, i, ENDED)
    ensures after[i] == Scheduled <==> UpstreamIn(dag, after, i, {Succeeded})
    ensures after[i] == UpstreamSkipped <==> !UpstreamIn(dag, after, i, {Succeeded}) && UpstreamIn(dag, after, i, {Succeeded, Skipped, UpstreamSkipped})
    ensures after[i] == Canceled <==> !UpstreamIn(dag, after, i, {Succeeded}) && UpstreamIn(dag, after, i, {Succeeded, Canceled})
    ensures after[i] == UpstreamFailed <==> UpstreamIn(dag, after, i, ENDED) && !UpstreamIn(dag, after, i, {Succeeded, Skipped, UpstreamSkipped}) && !UpstreamIn(dag, after, i, {Succeeded, Canceled})
  {
    UpstreamStates(dag, states, after, i);
    var upstream := StatesOf(after[..i], dag[i].upstream);
    ClassNames();
    assert forall k :: 0 <= k < |upstream| ==> upstream[k] == after[dag[i].upstream[k]];
  }

  /** An untouched task that only waits for its upstream to end. */
  lemma AllTerminalVerdict(dag: Dag, states: seq<TaskState>, after: seq<TaskState>, i: nat)
    requires Passed(dag, states, after) && i < |dag| && states[i] == Untouched && dag[i].rule == AllTerminal
    ensures UpstreamBefore(dag, i)
    ensures after[i] == if UpstreamIn(dag, after, i, ENDED) then Scheduled else Untouched
  {
    UpstreamStates(dag, states, after, i);
    var upstream := StatesOf(after[..i], dag[i].upstream);
    ClassNames();
    assert forall k :: 0 <= k < |upstream| ==> upstream[k] == after[dag[i].upstream[k]];
  }

  /** An untouched task that runs after a failure. */
  lemma AnyFailedVerdict(dag: Dag, states: seq<TaskState>, after: seq<TaskState>, i: nat)
    requires Passed(dag, states, after) && i < |dag| && states[i] == Untouched && dag[i].rule == AnyFailed
    ensures UpstreamBefore(dag, i)
    ensures after[i] == Untouched <==> !UpstreamIn(dag, after, i, ENDED)
    ensures after[i] == Scheduled <==> UpstreamIn(dag, after, i, ENDED) && !UpstreamIn(dag, after, i, {Succeeded, Skipped, UpstreamSkipped, Canceled})
    ensures after[i] == UpstreamSkipped <==> UpstreamIn(dag, after, i, {Succeeded, Skipped, UpstreamSkipped, Canceled})
  {
    UpstreamStates(dag, states, after, i);
    var upstream := StatesOf(after[..i], dag[i].upstream);
    ClassNames();
    assert forall k :: 0 <= k < |upstream| ==> upstream[k] == after[dag[i].upstream[k]];
  }

  lemma ClassNames()
    ensures forall s: TaskState :: ClassOf(s) == SuccessLike <==> s == Succeeded
    ensures forall s: TaskState :: ClassOf(s) == SkipLike <==> s in {Skipped, UpstreamSkipped}
    ensures forall s: TaskState :: ClassOf(s) == FailureLike <==> s in {Failed, TimedOut, UpstreamFailed}
    ensures forall s: TaskState :: ClassOf(s) == StopLike <==> s == Canceled
    ensures forall s: TaskState :: Terminal(s) <==> s in ENDED
  {
  }

  /** What a pass makes of the first n tasks, as a function of the states before it. */
  function Swept(dag: Dag, states: seq<TaskState>, n: nat): (after: seq<TaskState>)
    requires Registered(dag) && n <= |dag| == |states|
    ensures |after| == n
  {
    if n == 0 then [] else
      var before := Swept(dag, states, n - 1);
      before + [Settled1(dag[n - 1], before, states[n - 1])]
  }

  lemma {:induction false} PassIsSwept(dag: Dag, states: seq<TaskState>, after: seq<TaskState>, n: nat)
    requires Registered(dag) && Passed(dag, states, after) && n <= |dag|
    ensures after[..n] == Swept(dag, states, n)
  {
    if n > 0 {
      PassIsSwept(dag, states, after, n - 1);
      assert UpstreamBefore(dag, n - 1) && after[n - 1] == Settled1(dag[n - 1], after[..n - 1], states[n - 1]);
      assert after[..n] == after[..n - 1] + [after[n - 1]];
    }
  }

  /** So a pass can be foretold. */
  lemma PassForetold(dag: Dag, states: seq<TaskState>, after: seq<TaskState>)
    requires Registered(dag) && Passed(dag, states, after)
    ensures after == Swept(dag, states, |dag|)
  {
    PassIsSwept(dag, states, after, |dag|);
    assert after[..|dag|] == after;
  }

  predicate ActiveState(s: TaskState) {
    s != Untouched && !Terminal(s)
  }

  /** A pass touches only tasks nobody has touched, and only once all their upstream
      has ended, scheduling them or ending them. */
  lemma PassWaits(dag: Dag, states: seq<TaskState>, after: seq<TaskState>, i: nat)
    requires Passed(dag, states, after) && i < |dag|
    ensures after[i] != states[i] ==> states[i] == Untouched && AllEnded(dag, after, i) && (after[i] == Scheduled || Terminal(after[i]))
  {
    assert UpstreamBefore(dag, i) && after[i] == Settled1(dag[i], after[..i], states[i]);
    if after[i] != states[i] {
      forall k | 0 <= k < |dag[i].upstream|
        ensures dag[i].upstream[k] < |after| && Terminal(after[dag[i].upstream[k]])
      {
        assert StatesOf(after[..i], dag[i].upstream)[k] == after[dag[i].upstream[k]];
      }
    }
  }

  // ---- no job is stuck -------------------------------------------------------------------------

  datatype Settlement = NotYet | Over(outcome: TaskState) | Deadlock(node: nat)

  /** The last work of a graph: no teardown, and nothing but teardowns after it. */
  ghost predicate Leaf(dag: Dag, i: nat) {
    i < |dag| && !dag[i].teardown && forall d: nat :: Feeds(dag, i, d) ==> dag[d].teardown
  }

  /** Some last work ended in one of these states. */
  ghost predicate LeafIn(dag: Dag, states: seq<TaskState>, kinds: set<TaskState>)
    requires |states| == |dag|
  {
    exists i: nat :: Leaf(dag, i) && states[i] in kinds
  }

  method Settle(dag: Dag, states: seq<TaskState>) returns (r: Settlement)
    requires |states| == |dag| && Registered(dag)
    ensures r.Over? <==> forall i :: 0 <= i < |dag| ==> Terminal(states[i])
    ensures forall i: nat :: FirstOpen(states, i) ==>
      r == if states[i] == Untouched && AllEnded(dag, states, i) then Deadlock(i) else NotYet
    ensures r.Over? && LeafIn(dag, states, {Failed, TimedOut, UpstreamFailed}) ==> r.outcome == Failed
    ensures r.Over? && !LeafIn(dag, states, {Failed, TimedOut, UpstreamFailed}) ==> r.outcome == if LeafIn(dag, states, {Canceled}) then Canceled else Succeeded
  {
    for i := 0 to |states|
      invariant forall j :: 0 <= j < i ==> Terminal(states[j])
    {
      if Terminal(states[i]) {
        continue;
      }
      if states[i] == Untouched && AllEnded(dag, states, i) {
        return Deadlock(i);
      }
      return NotYet;
    }
    ClassNames();
    var failed, stopped := false, false;
    for i := 0 to |dag|
      invariant failed <==> exists l: nat :: l < i && Leaf(dag, l) && states[l] in {Failed, TimedOut, UpstreamFailed}
      invariant stopped <==> exists l: nat :: l < i && Leaf(dag, l) && states[l] in {Canceled}
    {
      var last := IsLeaf(dag, i);
      failed := failed || (last && ClassOf(states[i]) == FailureLike);
      stopped := stopped || (last && ClassOf(states[i]) == StopLike);
    }
    return Over(if failed then Failed else if stopped then Canceled else Succeeded);
  }

  method IsLeaf(dag: Dag, i: nat) returns (last: bool)
    requires i < |dag|
    ensures last <==> Leaf(dag, i)
  {
    var next := DownstreamOf(dag, i, |dag|);
    last := !dag[i].teardown;
    assert forall j :: 0 <= j < |next| ==> next[j] in next;
    for k := 0 to |next|
      invariant last <==> !dag[i].teardown && forall j :: 0 <= j < k ==> next[j] < |dag| && dag[next[j]].teardown
    {
      last := last && dag[next[k]].teardown;
    }
    assert forall d: nat :: Feeds(dag, i, d) <==> d in next;
  }

  /** The first task that has not ended: the one that decides. */
  ghost predicate FirstOpen(states: seq<TaskState>, i: nat) {
    i < |states| && !Terminal(states[i]) && forall j :: 0 <= j < i ==> Terminal(states[j])
  }

  predicate AllEnded(dag: Dag, states: seq<TaskState>, i: nat)
    requires i < |dag| == |states|
  {
    forall k :: 0 <= k < |dag[i].upstream| ==> dag[i].upstream[k] < |states| && Terminal(states[dag[i].upstream[k]])
  }

  /** After a pass no untouched task has all its upstream ended: the deadlock branch
      of settling cannot be taken. */
  lemma PassLeavesNoDeadlock(dag: Dag, states: seq<TaskState>, after: seq<TaskState>, i: nat)
    requires Passed(dag, states, after) && i < |dag| && after[i] == Untouched
    ensures !AllEnded(dag, after, i)
  {
    assert UpstreamBefore(dag, i) && after[i] == Settled1(dag[i], after[..i], states[i]);
    var upstream := StatesOf(after[..i], dag[i].upstream);
    var k :| 0 <= k < |upstream| && !Terminal(upstream[k]);
    assert !Terminal(after[dag[i].upstream[k]]);
  }

  /** After a pass either some task is active or every task has ended. */
  lemma {:induction false} PassNeverStuck(dag: Dag, states: seq<TaskState>, after: seq<TaskState>, n: nat)
    requires Passed(dag, states, after) && n <= |dag|
    requires forall i :: 0 <= i < |dag| ==> !ActiveState(after[i])
    ensures forall i :: 0 <= i < n ==> Terminal(after[i])
    decreases n
  {
    if n > 0 {
      PassNeverStuck(dag, states, after, n - 1);
      var i := n - 1;
      if after[i] == Untouched {
        assert UpstreamBefore(dag, i);
        PassLeavesNoDeadlock(dag, states, after, i);
      }
    }
  }
}
