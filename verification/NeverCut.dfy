/** Steward assertions over the clustering graph. A `never` pair must not share a
    component: while one does, the least-probability cuttable link on the least
    path between its records is cut. A pair whose least path holds nothing
    cuttable is escalated to a human instead. */
module NeverCut {
  import opened Wrappers
  import opened RecordGraph
  import opened Clustering
  import opened ShortestPath

  datatype Kind = Always | Never
  datatype Assertion = Assertion(id: int, a: Key, b: Key, kind: Kind, active: bool)
  datatype Cut = Cut(a: Key, b: Key, p: real, assertion: int)
  datatype Escalation = Escalation(a: Key, b: Key, assertion: int)

  datatype Outcome =
    | Settled(cuts: seq<Cut>, escalations: seq<Escalation>, iterations: nat)
    | NonConvergence(limit: nat, remaining: nat)
    | NoProgress

  /** What a link may not be cut for: a protected probability or record. */
  datatype Guard = Guard(probability: real, records: set<Key>)

  /** Pair canonicalisation refuses a record paired with itself. */
  predicate Proper(edges: seq<Edge>) {
    forall e :: e in edges ==> e.a != e.b
  }

  /** The probability of each linked pair; a repeated pair takes its last. */
  function Probability(edges: seq<Edge>): map<Pair, real> {
    if edges == [] then map[] else
      var e := edges[|edges| - 1];
      Probability(edges[..|edges| - 1])[Canon(e.a, e.b) := e.p]
  }

  predicate Cuttable(edges: seq<Edge>, guard: Guard, pair: Pair) {
    && pair in Probability(edges)
    && Probability(edges)[pair] < guard.probability
    && pair.0 !in guard.records && pair.1 !in guard.records
  }

  function Drop(edges: seq<Edge>, pair: Pair): seq<Edge> {
    if edges == [] then [] else
      var rest := Drop(edges[..|edges| - 1], pair);
      var e := edges[|edges| - 1];
      if Canon(e.a, e.b) == pair then rest else rest + [e]
  }

  /** The links left after the cuts, in order. */
  function Remaining(edges: seq<Edge>, cuts: seq<Cut>): seq<Edge> {
    if cuts == [] then edges else
      Drop(Remaining(edges, cuts[..|cuts| - 1]), (cuts[|cuts| - 1].a, cuts[|cuts| - 1].b))
  }

  /** The links no cut may touch. */
  function Firm(edges: seq<Edge>, guard: Guard): set<Pair> {
    set l | l in Links(edges) && !Cuttable(edges, guard, Canon(l.0, l.1))
  }

  function CuttablePairs(edges: seq<Edge>, guard: Guard): set<Pair> {
    set pair | pair in Probability(edges) && Cuttable(edges, guard, pair)
  }

  predicate ActiveNever(n: Assertion) {
    n.kind == Never && n.active
  }

  function NeverPairs(assertions: seq<Assertion>): set<Pair> {
    set n | n in assertions && ActiveNever(n) :: Canon(n.a, n.b)
  }

  // ---- lemmas about dropping a pair --------------------------------------------

  lemma {:induction false} ProbabilityKeys(edges: seq<Edge>)
    ensures forall pair :: pair in Probability(edges) <==> exists e :: e in edges && Canon(e.a, e.b) == pair
  {
    if edges != [] {
      var e := edges[|edges| - 1];
      var init := edges[..|edges| - 1];
      ProbabilityKeys(init);
      assert edges == init + [e];
      assert e in edges;
    }
  }

  lemma {:induction false} DropEdges(edges: seq<Edge>, pair: Pair)
    ensures forall e :: e in Drop(edges, pair) <==> e in edges && Canon(e.a, e.b) != pair
  {
    if edges != [] {
      var init := edges[..|edges| - 1];
      DropEdges(init, pair);
      assert edges == init + [edges[|edges| - 1]];
    }
  }

  lemma UpdateDrop(m: map<Pair, real>, pair: Pair, c: Pair, p: real)
    ensures m[c := p] - {pair} == if c == pair then m - {pair} else (m - {pair})[c := p]
  {
  }

  lemma {:induction false} DropProbability(edges: seq<Edge>, pair: Pair)
    ensures Probability(Drop(edges, pair)) == Probability(edges) - {pair}
  {
    if edges != [] {
      var e := edges[|edges| - 1];
      var init := edges[..|edges| - 1];
      DropProbability(init, pair);
      UpdateDrop(Probability(init), pair, Canon(e.a, e.b), e.p);
      if Canon(e.a, e.b) != pair {
        var rest := Drop(init, pair);
        assert (rest + [e])[..|rest + [e]| - 1] == rest;
      }
    }
  }

  /** Cutting a cuttable pair leaves the firm links as they were. */
  lemma DropFirm(edges: seq<Edge>, guard: Guard, pair: Pair)
    requires Cuttable(edges, guard, pair)
    ensures Firm(Drop(edges, pair), guard) == Firm(edges, guard)
  {
    DropEdges(edges, pair);
    DropProbability(edges, pair);
    forall l
      ensures l in Firm(Drop(edges, pair), guard) <==> l in Firm(edges, guard)
    {
      if l in Links(edges) {
        var e :| e in edges && (e.a, e.b) == l;
        if Canon(l.0, l.1) != pair {
          assert e in Drop(edges, pair);
        }
      }
      if l in Links(Drop(edges, pair)) {
        var e :| e in Drop(edges, pair) && (e.a, e.b) == l;
        assert e in edges;
      }
    }
  }

  // ---- which link is cut ------------------------------------------------------

  predicate Before(x: Edge, y: Edge) {
    x.p < y.p || (x.p == y.p && (x.a < y.a || (x.a == y.a && x.b <= y.b)))
  }

  /** A hop of the path that may be cut, as an edge. */
  predicate Hop(edges: seq<Edge>, guard: Guard, path: seq<Key>, i: nat, e: Edge) {
    && 0 < i < |path|
    && (e.a, e.b) == Canon(path[i - 1], path[i])
    && Cuttable(edges, guard, (e.a, e.b)) && e.p == Probability(edges)[(e.a, e.b)]
  }

  /** The least cuttable hop of a path, by probability and then by key. */
  ghost predicate LeastHop(edges: seq<Edge>, guard: Guard, path: seq<Key>, e: Edge) {
    && (exists i :: Hop(edges, guard, path, i, e))
    && (forall i, f :: Hop(edges, guard, path, i, f) ==>
      e.p <= f.p && (e.p == f.p ==> e.a <= f.a && (e.a == f.a ==> e.b <= f.b)))
  }

  method ChooseCutEdge(path: seq<Key>, edges: seq<Edge>, guard: Guard) returns (choice: Option<Edge>)
    ensures choice.None? <==> forall i, f :: !Hop(edges, guard, path, i, f)
    ensures choice.Some? ==> LeastHop(edges, guard, path, choice.value)
  {
    var probability := Probability(edges);
    choice := None;
    if |path| == 0 {
      return;
    }
    for i := 1 to |path|
      invariant choice.None? <==> forall j: nat, f :: j < i ==> !Hop(edges, guard, path, j, f)
      invariant choice.Some? ==> exists j: nat :: j < i && Hop(edges, guard, path, j, choice.value)
      invariant choice.Some? ==> forall j: nat, f :: j < i && Hop(edges, guard, path, j, f) ==> Before(choice.value, f)
    {
      var pair := Canon(path[i - 1], path[i]);
      if pair in probability && probability[pair] < guard.probability && pair.0 !in guard.records && pair.1 !in guard.records {
        var e := Edge(pair.0, pair.1, probability[pair]);
        assert Hop(edges, guard, path, i, e);
        if choice.None? || !Before(choice.value, e) {
          choice := Some(e);
        }
      }
    }
  }

  /** A least path without a cuttable hop runs along firm links. */
  lemma FirmPath(edges: seq<Edge>, guard: Guard, path: seq<Key>, x: Key, y: Key)
    requires IsPath(Links(edges), path, x, y)
    requires forall i, f :: !Hop(edges, guard, path, i, f)
    ensures Connected(Firm(edges, guard), x, y)
  {
    ProbabilityKeys(edges);
    forall i | 0 < i < |path|
      ensures Adjacent(Firm(edges, guard), path[i - 1], path[i])
    {
      assert Adjacent(Links(edges), path[i - 1], path[i]);
      var pair := Canon(path[i - 1], path[i]);
      if Cuttable(edges, guard, pair) {
        assert Hop(edges, guard, path, i, Edge(pair.0, pair.1, Probability(edges)[pair]));
      }
    }
    assert IsPath(Firm(edges, guard), path, x, y);
  }

  // ---- the same-component test ---------------------------------------------------

  function PairsOf(edges: seq<Edge>): seq<Pair> {
    seq(|edges|, i requires 0 <= i < |edges| => (edges[i].a, edges[i].b))
  }

  lemma PairsOfLinks(edges: seq<Edge>)
    ensures LinkSet(PairsOf(edges)) == Links(edges)
  {
    forall l
      ensures l in LinkSet(PairsOf(edges)) <==> l in Links(edges)
    {
      if l in Links(edges) {
        var e :| e in edges && (e.a, e.b) == l;
        var i :| 0 <= i < |edges| && edges[i] == e;
        assert PairsOf(edges)[i] == l;
      }
    }
  }

  /** Equal component numbers mean connected, over the records named. */
  ghost predicate Components?(links: set<Pair>, nodes: set<Key>, component: map<Key, nat>) {
    && component.Keys == nodes + Endpoints(links)
    && forall x, y :: x in component && y in component ==> (component[x] == component[y] <==> Connected(links, x, y))
  }

  method Components(edges: seq<Edge>, nodes: set<Key>) returns (component: map<Key, nat>)
    ensures Components?(Links(edges), nodes, component)
  {
    var ids := Sorted(nodes + Endpoints(Links(edges)));
    PairsOfLinks(edges);
    forall e | e in PairsOf(edges)
      ensures e.0 in ids && e.1 in ids
    {
      assert e in LinkSet(PairsOf(edges));
    }
    var uf := UnionAll(ids, PairsOf(edges));
    component := Numbered(uf, ids);
    ComponentsMatch(uf.root, ids, Links(edges), component);
    NumberedKeys(uf.root, ids, nodes + Endpoints(Links(edges)), component);
  }

  method Numbered(uf: UnionFind, ids: seq<Key>) returns (component: map<Key, nat>)
    requires uf.Valid() && uf.parent.Length == |ids| && Ascending(ids)
    modifies uf.parent
    ensures uf.Valid() && NumberedTo(uf.root, ids, component, |ids|)
  {
    component := map[];
    for i := 0 to |ids|
      invariant uf.Valid() && NumberedTo(uf.root, ids, component, i)
    {
      NumberNext(uf.root, ids, component, i);
      var r := uf.Find(i);
      component := component[ids[i] := r];
    }
  }

  /** The first n records carry the number of their root. */
  ghost predicate NumberedTo(find: seq<nat>, ids: seq<Key>, component: map<Key, nat>, n: nat)
    requires n <= |ids| == |find|
  {
    && (forall x :: x in component ==> x in ids)
    && (forall j :: 0 <= j < n ==> ids[j] in component && component[ids[j]] == find[j])
  }

  lemma NumberNext(find: seq<nat>, ids: seq<Key>, component: map<Key, nat>, n: nat)
    requires n < |ids| == |find| && Ascending(ids) && NumberedTo(find, ids, component, n)
    ensures NumberedTo(find, ids, component[ids[n] := find[n]], n + 1)
  {
  }

  lemma NumberedKeys(find: seq<nat>, ids: seq<Key>, universe: set<Key>, component: map<Key, nat>)
    requires |find| == |ids| && NumberedTo(find, ids, component, |ids|) && forall x :: x in ids <==> x in universe
    ensures component.Keys == universe
  {
    forall x: Key
      ensures x in component.Keys <==> x in universe
    {
      if x in universe {
        assert x in ids;
        var j :| 0 <= j < |ids| && ids[j] == x;
      }
    }
    SameMembers(component.Keys, universe);
  }

  lemma ComponentsMatch(find: seq<nat>, ids: seq<Key>, links: set<Pair>, component: map<Key, nat>)
    requires Represents(find, ids, links) && Ascending(ids)
    requires forall x :: x in Endpoints(links) ==> x in ids
    requires NumberedTo(find, ids, component, |ids|)
    ensures forall x, y :: x in component && y in component ==> (component[x] == component[y] <==> Connected(links, x, y))
  {
    forall x, y | x in component && y in component
      ensures component[x] == component[y] <==> Connected(links, x, y)
    {
      var i :| 0 <= i < |ids| && ids[i] == x;
      var j :| 0 <= j < |ids| && ids[j] == y;
      RepresentsIff(find, ids, links, i, j);
    }
  }

  // ---- the fixpoint -------------------------------------------------------------

  function ActiveNevers(assertions: seq<Assertion>): (r: seq<Assertion>)
    ensures forall n :: n in r <==> n in assertions && ActiveNever(n)
  {
    if assertions == [] then [] else
      var rest := ActiveNevers(assertions[1..]);
      if ActiveNever(assertions[0]) then [assertions[0]] + rest else rest
  }

  /** A pair still co-clustered and not handed to a human. */
  predicate Violates(n: Assertion, component: map<Key, nat>, escalated: set<Pair>) {
    && Canon(n.a, n.b) !in escalated
    && n.a in component && n.b in component && component[n.a] == component[n.b]
  }

  function Violations(nevers: seq<Assertion>, component: map<Key, nat>, escalated: set<Pair>): (r: seq<Assertion>)
    ensures forall n :: n in r <==> n in nevers && Violates(n, component, escalated)
    ensures |r| <= |nevers|
  {
    if nevers == [] then [] else
      var rest := Violations(nevers[1..], component, escalated);
      if Violates(nevers[0], component, escalated) then [nevers[0]] + rest else rest
  }

  function CutPairs(cuts: seq<Cut>): set<Pair> {
    set c | c in cuts :: (c.a, c.b)
  }

  /** Cut c was the least hop of the least path of its assertion at its time. */
  ghost predicate Justified(edges: seq<Edge>, guard: Guard, nevers: seq<Assertion>, earlier: seq<Cut>, c: Cut) {
    exists n, path ::
      && n in nevers && n.id == c.assertion
      && Optimal(Links(Remaining(edges, earlier)), n.a, n.b, path)
      && LeastHop(Remaining(edges, earlier), guard, path, Edge(c.a, c.b, c.p))
  }

  ghost predicate AllJustified(edges: seq<Edge>, guard: Guard, nevers: seq<Assertion>, cuts: seq<Cut>) {
    forall i :: 0 <= i < |cuts| ==> Justified(edges, guard, nevers, cuts[..i], cuts[i])
  }

  /** What every step of the loop keeps about the cuts. */
  ghost predicate CutsSound(edges: seq<Edge>, guard: Guard, nevers: seq<Assertion>, live: seq<Edge>, cuts: seq<Cut>) {
    && live == Remaining(edges, cuts)
    && AllJustified(edges, guard, nevers, cuts)
    && Firm(live, guard) == Firm(edges, guard)
    && Probability(live) == Probability(edges) - CutPairs(cuts)
    && CutPairs(cuts) <= CuttablePairs(edges, guard)
    && |CutPairs(cuts)| == |cuts|
  }

  /** What every step keeps about the escalated pairs. */
  ghost predicate EscalationsSound(edges: seq<Edge>, guard: Guard, nevers: seq<Assertion>, escalations: seq<Escalation>, escalated: set<Pair>) {
    && escalated == (set x | x in escalations :: (x.a, x.b))
    && forall x :: x in escalations ==>
      exists n :: n in nevers && n.id == x.assertion && Canon(n.a, n.b) == (x.a, x.b) && Connected(Firm(edges, guard), n.a, n.b)
  }

  lemma JustifiedExtends(edges: seq<Edge>, guard: Guard, nevers: seq<Assertion>, cuts: seq<Cut>, c: Cut)
    requires AllJustified(edges, guard, nevers, cuts) && Justified(edges, guard, nevers, cuts, c)
    ensures AllJustified(edges, guard, nevers, cuts + [c])
  {
    var more := cuts + [c];
    forall k | 0 <= k < |more|
      ensures Justified(edges, guard, nevers, more[..k], more[k])
    {
      if k < |cuts| {
        assert more[..k] == cuts[..k] && more[k] == cuts[k];
      } else {
        assert more[..k] == cuts && more[k] == c;
      }
    }
  }

  /** Cutting removes the pair's probability for good, so no pair is cut twice. */
  lemma CutRemoves(edges: seq<Edge>, guard: Guard, live: seq<Edge>, cuts: seq<Cut>, c: Cut)
    requires Probability(live) == Probability(edges) - CutPairs(cuts)
    requires CutPairs(cuts) <= CuttablePairs(edges, guard) && |CutPairs(cuts)| == |cuts|
    requires Cuttable(live, guard, (c.a, c.b))
    ensures Probability(Drop(live, (c.a, c.b))) == Probability(edges) - CutPairs(cuts + [c])
    ensures CutPairs(cuts + [c]) <= CuttablePairs(edges, guard)
    ensures |CutPairs(cuts + [c])| == |cuts| + 1
  {
    DropProbability(live, (c.a, c.b));
    assert CutPairs(cuts + [c]) == CutPairs(cuts) + {(c.a, c.b)} by {
      assert c in cuts + [c];
    }
  }

  lemma CutStep(edges: seq<Edge>, guard: Guard, nevers: seq<Assertion>, live: seq<Edge>, cuts: seq<Cut>, n: Assertion, path: seq<Key>, e: Edge)
    requires CutsSound(edges, guard, nevers, live, cuts)
    requires n in nevers && Optimal(Links(live), n.a, n.b, path) && LeastHop(live, guard, path, e)
    ensures CutsSound(edges, guard, nevers, Drop(live, (e.a, e.b)), cuts + [Cut(e.a, e.b, e.p, n.id)])
  {
    var c := Cut(e.a, e.b, e.p, n.id);
    var i :| Hop(live, guard, path, i, e);
    assert Justified(edges, guard, nevers, cuts, c);
    JustifiedExtends(edges, guard, nevers, cuts, c);
    CutRemoves(edges, guard, live, cuts, c);
    DropFirm(live, guard, (e.a, e.b));
    assert (cuts + [c])[..|cuts|] == cuts;
  }

  lemma EscalateStep(edges: seq<Edge>, guard: Guard, nevers: seq<Assertion>, live: seq<Edge>, escalations: seq<Escalation>, escalated: set<Pair>, n: Assertion, path: seq<Key>)
    requires EscalationsSound(edges, guard, nevers, escalations, escalated)
    requires Firm(live, guard) == Firm(edges, guard)
    requires n in nevers && Optimal(Links(live), n.a, n.b, path)
    requires forall i, f :: !Hop(live, guard, path, i, f)
    ensures var pair := Canon(n.a, n.b);
      EscalationsSound(edges, guard, nevers, escalations + [Escalation(pair.0, pair.1, n.id)], escalated + {pair})
  {
    FirmPath(live, guard, path, n.a, n.b);
    var pair := Canon(n.a, n.b);
    var x := Escalation(pair.0, pair.1, n.id);
    assert (set y | y in escalations + [x] :: (y.a, y.b)) == escalated + {pair} by {
      assert x in escalations + [x];
    }
  }

  /** One round: settle every violation found at its start, in order. */
  method Round(ghost edges: seq<Edge>, guard: Guard, ghost nevers: seq<Assertion>, violations: seq<Assertion>, live0: seq<Edge>, cuts0: seq<Cut>, escalations0: seq<Escalation>, escalated0: set<Pair>)
    returns (live: seq<Edge>, cuts: seq<Cut>, escalations: seq<Escalation>, escalated: set<Pair>, progressed: bool)
    requires CutsSound(edges, guard, nevers, live0, cuts0)
    requires EscalationsSound(edges, guard, nevers, escalations0, escalated0)
    requires forall n :: n in violations ==> n in nevers && Canon(n.a, n.b) !in escalated0 && Connected(Links(live0), n.a, n.b)
    ensures CutsSound(edges, guard, nevers, live, cuts)
    ensures EscalationsSound(edges, guard, nevers, escalations, escalated)
    ensures violations != [] ==> progressed && |cuts| + |escalated| > |cuts0| + |escalated0|
    ensures |cuts| + |escalations| - |cuts0| - |escalations0| <= |violations|
  {
    live, cuts, escalations, escalated, progressed := live0, cuts0, escalations0, escalated0, false;
    for k := 0 to |violations|
      invariant CutsSound(edges, guard, nevers, live, cuts)
      invariant EscalationsSound(edges, guard, nevers, escalations, escalated)
      invariant escalated0 <= escalated && |cuts0| <= |cuts|
      invariant k == 0 ==> live == live0 && cuts == cuts0 && escalated == escalated0
      invariant k > 0 ==> progressed && |cuts| + |escalated| > |cuts0| + |escalated0|
      invariant |cuts| + |escalations| - |cuts0| - |escalations0| <= k
    {
      var n := violations[k];
      assert n in violations;
      var path := FindPath(n.a, n.b, live);
      if path.Some? {
        var choice := ChooseCutEdge(path.value, live, guard);
        match choice
        case None =>
          EscalateStep(edges, guard, nevers, live, escalations, escalated, n, path.value);
          var pair := Canon(n.a, n.b);
          Fits(escalated, escalated + {pair});
          escalations := escalations + [Escalation(pair.0, pair.1, n.id)];
          escalated := escalated + {pair};
          progressed := true;
        case Some(e) =>
          CutStep(edges, guard, nevers, live, cuts, n, path.value, e);
          cuts := cuts + [Cut(e.a, e.b, e.p, n.id)];
          live := Drop(live, (e.a, e.b));
          progressed := true;
      }
    }
  }

  /** The pair is joined through links that may not be cut. */
  ghost predicate Unsatisfiable(edges: seq<Edge>, guard: Guard, n: Assertion) {
    Connected(Firm(edges, guard), n.a, n.b)
  }

  /** The links left when a set of pairs is cut. */
  function LinksWithout(edges: seq<Edge>, cut: set<Pair>): set<Pair> {
    set l | l in Links(edges) && Canon(l.0, l.1) !in cut
  }

  /** That is: no choice of permitted cuts whatever separates the pair. */
  lemma UnsatisfiableIff(edges: seq<Edge>, guard: Guard, n: Assertion)
    ensures Unsatisfiable(edges, guard, n) <==>
      forall cut :: cut <= CuttablePairs(edges, guard) ==> Connected(LinksWithout(edges, cut), n.a, n.b)
  {
    if Unsatisfiable(edges, guard, n) {
      forall cut | cut <= CuttablePairs(edges, guard)
        ensures Connected(LinksWithout(edges, cut), n.a, n.b)
      {
        ConnectedMono(Firm(edges, guard), LinksWithout(edges, cut), n.a, n.b);
      }
    } else {
      OnlyFirmLeft(edges, guard);
    }
  }

  lemma OnlyFirmLeft(edges: seq<Edge>, guard: Guard)
    ensures LinksWithout(edges, CuttablePairs(edges, guard)) == Firm(edges, guard)
  {
  }

  /** What a settled run promises. */
  ghost predicate Separates(edges: seq<Edge>, guard: Guard, assertions: seq<Assertion>, cuts: seq<Cut>, escalations: seq<Escalation>) {
    // a never pair stays together exactly when nothing between its records may be cut,
    && (forall n :: n in assertions && n.kind == Never && n.active ==>
      (Connected(Links(Remaining(edges, cuts)), n.a, n.b) <==> Unsatisfiable(edges, guard, n)))
    // and exactly those pairs are escalated;
    && (set x | x in escalations :: (x.a, x.b))
      == (set n | n in assertions && n.kind == Never && n.active && Unsatisfiable(edges, guard, n) :: Canon(n.a, n.b))
    // every cut was the forced choice of the moment it was made, and no pair is cut twice.
    && AllJustified(edges, guard, ActiveNevers(assertions), cuts)
    && CutPairs(cuts) <= CuttablePairs(edges, guard)
    && |CutPairs(cuts)| == |cuts|
  }

  lemma FirmStays(edges: seq<Edge>, guard: Guard, x: Key, y: Key)
    requires Connected(Firm(edges, guard), x, y)
    ensures Connected(Links(edges), x, y)
  {
    ConnectedMono(Firm(edges, guard), Links(edges), x, y);
  }

  /** With no violation left, what the loop kept is what is promised. */
  lemma Conclude(edges: seq<Edge>, guard: Guard, assertions: seq<Assertion>, live: seq<Edge>, cuts: seq<Cut>, escalations: seq<Escalation>, escalated: set<Pair>, nodes: set<Key>, component: map<Key, nat>)
    requires CutsSound(edges, guard, ActiveNevers(assertions), live, cuts)
    requires EscalationsSound(edges, guard, ActiveNevers(assertions), escalations, escalated)
    requires Components?(Links(live), nodes, component)
    requires forall n :: n in assertions ==> n.a != n.b
    requires forall n :: n in assertions && ActiveNever(n) ==> !Violates(n, component, escalated)
    ensures Separates(edges, guard, assertions, cuts, escalations)
  {
    forall n | n in assertions && ActiveNever(n)
      ensures Connected(Links(live), n.a, n.b) <==> Unsatisfiable(edges, guard, n)
      ensures Unsatisfiable(edges, guard, n) <==> Canon(n.a, n.b) in escalated
    {
      ConcludeOne(edges, guard, assertions, live, escalations, escalated, nodes, component, n);
    }
    var wanted := set n | n in assertions && ActiveNever(n) && Unsatisfiable(edges, guard, n) :: Canon(n.a, n.b);
    forall pair | pair in escalated
      ensures pair in wanted
    {
      var x :| x in escalations && (x.a, x.b) == pair;
    }
    assert escalated == wanted;
  }

  lemma ConcludeOne(edges: seq<Edge>, guard: Guard, assertions: seq<Assertion>, live: seq<Edge>, escalations: seq<Escalation>, escalated: set<Pair>, nodes: set<Key>, component: map<Key, nat>, n: Assertion)
    requires Firm(live, guard) == Firm(edges, guard)
    requires EscalationsSound(edges, guard, ActiveNevers(assertions), escalations, escalated)
    requires Components?(Links(live), nodes, component)
    requires n in assertions && ActiveNever(n) && n.a != n.b && !Violates(n, component, escalated)
    ensures Connected(Links(live), n.a, n.b) <==> Unsatisfiable(edges, guard, n)
    ensures Unsatisfiable(edges, guard, n) <==> Canon(n.a, n.b) in escalated
  {
    if Unsatisfiable(edges, guard, n) {
      FirmStays(live, guard, n.a, n.b);
    }
    TogetherEscalated(Links(live), nodes, component, escalated, n);
    if Canon(n.a, n.b) in escalated {
      EscalatedUnsatisfiable(edges, guard, ActiveNevers(assertions), escalations, escalated, n);
    }
  }

  lemma TogetherEscalated(links: set<Pair>, nodes: set<Key>, component: map<Key, nat>, escalated: set<Pair>, n: Assertion)
    requires Components?(links, nodes, component) && n.a != n.b && !Violates(n, component, escalated)
    ensures Connected(links, n.a, n.b) ==> Canon(n.a, n.b) in escalated
  {
    if n.a !in component || n.b !in component {
      NoEndpoint(links, n.a, n.b);
    }
  }

  lemma SamePair(a: Key, b: Key, c: Key, d: Key)
    requires Canon(a, b) == Canon(c, d)
    ensures (a == c && b == d) || (a == d && b == c)
  {
  }

  lemma EscalatedUnsatisfiable(edges: seq<Edge>, guard: Guard, nevers: seq<Assertion>, escalations: seq<Escalation>, escalated: set<Pair>, n: Assertion)
    requires EscalationsSound(edges, guard, nevers, escalations, escalated)
    requires Canon(n.a, n.b) in escalated
    ensures Unsatisfiable(edges, guard, n)
  {
    var x :| x in escalations && (x.a, x.b) == Canon(n.a, n.b);
    var m :| m in nevers && Canon(m.a, m.b) == (x.a, x.b) && Connected(Firm(edges, guard), m.a, m.b);
    SamePair(m.a, m.b, n.a, n.b);
    ConnectedSym(Firm(edges, guard), m.a, m.b);
  }

  lemma {:induction false} RemainingEdges(edges: seq<Edge>, cuts: seq<Cut>)
    ensures forall e :: e in Remaining(edges, cuts) <==> e in edges && Canon(e.a, e.b) !in CutPairs(cuts)
  {
    if cuts != [] {
      var init, c := cuts[..|cuts| - 1], cuts[|cuts| - 1];
      RemainingEdges(edges, init);
      DropEdges(Remaining(edges, init), (c.a, c.b));
      assert cuts == init + [c];
      assert c in cuts;
      assert CutPairs(cuts) == CutPairs(init) + {(c.a, c.b)};
    }
  }

  // ---- how many rounds it takes -------------------------------------------------------

  /** The records linked to both, other than the two. */
  function CommonNeighbours(edges: seq<Edge>, x: Key, y: Key): set<Key> {
    set v | v in Endpoints(Links(edges)) && v != x && v != y && Adjacent(Links(edges), x, v) && Adjacent(Links(edges), v, y)
  }

  /** A pair that can be separated has more common neighbours than the rounds allowed
      can cut. */
  ghost predicate Starved(edges: seq<Edge>, guard: Guard, assertions: seq<Assertion>, limit: nat) {
    exists n :: n in assertions && ActiveNever(n) && !Unsatisfiable(edges, guard, n) && |CommonNeighbours(edges, n.a, n.b)| > limit * |ActiveNevers(assertions)|
  }

  /** Each common neighbour costs a cut of its own. */
  lemma CommonCut(edges: seq<Edge>, cuts: seq<Cut>, x: Key, y: Key, v: Key)
    requires v in CommonNeighbours(edges, x, y) && !Connected(Links(Remaining(edges, cuts)), x, y)
    ensures Canon(x, v) in CutPairs(cuts) || Canon(v, y) in CutPairs(cuts)
  {
    if Canon(x, v) !in CutPairs(cuts) && Canon(v, y) !in CutPairs(cuts) {
      UncutStays(edges, cuts, x, v);
      UncutStays(edges, cuts, v, y);
      var left := Links(Remaining(edges, cuts));
      ConnectedStep(left, x, v);
      ConnectedStep(left, v, y);
      ConnectedTrans(left, x, v, y);
    }
  }

  lemma UncutStays(edges: seq<Edge>, cuts: seq<Cut>, x: Key, v: Key)
    requires Adjacent(Links(edges), x, v) && Canon(x, v) !in CutPairs(cuts)
    ensures Adjacent(Links(Remaining(edges, cuts)), x, v)
  {
    RemainingEdges(edges, cuts);
    var e :| e in edges && ((e.a, e.b) == (x, v) || (e.a, e.b) == (v, x));
    assert Canon(e.a, e.b) == Canon(x, v);
    assert e in Remaining(edges, cuts);
  }

  /** Separating two records takes at least as many cuts as they have common neighbours. */
  lemma CutsCoverCommon(edges: seq<Edge>, cuts: seq<Cut>, x: Key, y: Key)
    requires !Connected(Links(Remaining(edges, cuts)), x, y)
    ensures |CommonNeighbours(edges, x, y)| <= |CutPairs(cuts)|
  {
    var common := CommonNeighbours(edges, x, y);
    var spent := map v | v in common :: if Canon(x, v) in CutPairs(cuts) then Canon(x, v) else Canon(v, y);
    forall v | v in common
      ensures spent[v] in CutPairs(cuts)
    {
      CommonCut(edges, cuts, x, y, v);
    }
    forall v, w | v in common && w in common && spent[v] == spent[w]
      ensures v == w
    {
      SpentApart(x, y, v, w, spent[v]);
    }
    Injects(common, spent, CutPairs(cuts));
  }

  /** A pair naming one of two records and a third tells which the third is. */
  lemma SpentApart(x: Key, y: Key, v: Key, w: Key, pair: Pair)
    requires v !in {x, y} && w !in {x, y} && pair in {Canon(x, v), Canon(v, y)} && pair in {Canon(x, w), Canon(w, y)}
    ensures v == w
  {
  }

  lemma {:induction false} Injects(s: set<Key>, f: map<Key, Pair>, t: set<Pair>)
    requires s <= f.Keys && (forall v :: v in s ==> f[v] in t) && (forall v, w :: v in s && w in s && f[v] == f[w] ==> v == w)
    ensures |s| <= |t|
    decreases |s|
  {
    if s != {} {
      var v := Member(s);
      Injects(s - {v}, f, t - {f[v]});
    }
  }

  lemma NotStarved(edges: seq<Edge>, guard: Guard, assertions: seq<Assertion>, cuts: seq<Cut>, escalations: seq<Escalation>, iterations: nat, limit: nat)
    requires Separates(edges, guard, assertions, cuts, escalations) && iterations <= limit
    requires |cuts| + |escalations| <= Allowance(iterations, |ActiveNevers(assertions)|)
    ensures |cuts| + |escalations| <= iterations * |ActiveNevers(assertions)|
    ensures !Starved(edges, guard, assertions, limit)
  {
    AllowanceIs(iterations, |ActiveNevers(assertions)|);
    if n :| n in assertions && ActiveNever(n) && !Unsatisfiable(edges, guard, n) && |CommonNeighbours(edges, n.a, n.b)| > limit * |ActiveNevers(assertions)| {
      assert !Connected(Links(Remaining(edges, cuts)), n.a, n.b);
      CutsCoverCommon(edges, cuts, n.a, n.b);
      MoreRounds(iterations, limit, |ActiveNevers(assertions)|);
    }
  }

  /** Two records, 0 and 1, each linked to k others at even odds. */
  function Fan(k: nat): seq<Edge> {
    seq(2 * k, i requires 0 <= i < 2 * k => if i < k then Edge(0, 2 + i, 0.5) else Edge(1, 2 + i - k, 0.5))
  }

  const APART := Assertion(1, 0, 1, Never, true)

  lemma FanLinks(k: nat, v: Key)
    requires 2 <= v < k + 2
    ensures (0, v) in Links(Fan(k)) && (1, v) in Links(Fan(k))
  {
    var edges := Fan(k);
    assert edges[v - 2] == Edge(0, v, 0.5) && edges[k + v - 2] == Edge(1, v, 0.5);
  }

  lemma {:induction false} EvenOdds(edges: seq<Edge>)
    requires forall e :: e in edges ==> e.p == 0.5
    ensures forall pair :: pair in Probability(edges) ==> Probability(edges)[pair] == 0.5
  {
    if edges != [] {
      assert edges[|edges| - 1] in edges;
      EvenOdds(edges[..|edges| - 1]);
    }
  }

  /** Nothing in the fan is protected, so every link may be cut. */
  lemma FanCuttable(k: nat)
    ensures Firm(Fan(k), Guard(0.9, {})) == {}
  {
    var edges := Fan(k);
    EvenOdds(edges);
    ProbabilityKeys(edges);
    forall l | l in Links(edges)
      ensures Cuttable(edges, Guard(0.9, {}), Canon(l.0, l.1))
    {
      var e :| e in edges && (e.a, e.b) == l;
    }
  }

  lemma FanCommon(k: nat)
    ensures |CommonNeighbours(Fan(k), 0, 1)| >= k
  {
    var common := CommonNeighbours(Fan(k), 0, 1);
    forall v | v in Middle(k)
      ensures v in common
    {
      FanLinks(k, v);
      assert v == (0, v).1;
    }
    Fits(Middle(k), common);
  }

  function Middle(k: nat): (r: set<Key>)
    ensures |r| == k && forall v :: v in r <==> 2 <= v < k + 2
  {
    if k == 0 then {} else Middle(k - 1) + {k + 1}
  }

  /** No limit is high enough: one never pair with one common neighbour more than the
      rounds allowed, nothing protected and every link cuttable, does not settle. */
  lemma FanStarved(limit: nat)
    ensures Proper(Fan(limit + 1)) && Starved(Fan(limit + 1), Guard(0.9, {}), [APART], limit)
  {
    FanProper(limit + 1);
    FanSatisfiable(limit + 1);
    FanCommon(limit + 1);
    assert APART in [APART] && ActiveNevers([APART]) == [APART];
  }

  lemma FanProper(k: nat)
    ensures Proper(Fan(k))
  {
  }

  lemma FanSatisfiable(k: nat)
    ensures !Unsatisfiable(Fan(k), Guard(0.9, {}), APART)
  {
    FanCuttable(k);
    NoEndpoint({}, 0, 1);
  }

  lemma MoreRounds(rounds: nat, limit: nat, each: nat)
    requires rounds <= limit
    ensures rounds * each <= limit * each
  {
  }

  /** What so many rounds can settle at most. */
  ghost function Allowance(rounds: nat, each: nat): nat {
    if rounds == 0 then 0 else Allowance(rounds - 1, each) + each
  }

  lemma {:induction false} AllowanceIs(rounds: nat, each: nat)
    ensures Allowance(rounds, each) == rounds * each
  {
    if rounds > 0 {
      AllowanceIs(rounds - 1, each);
    }
  }

  /** Cut until no active never pair is co-clustered, at most `limit` rounds. */
  method NeverCutFixpoint(edges: seq<Edge>, assertions: seq<Assertion>, nodes: seq<Key>, guard: Guard, limit: nat) returns (r: Outcome)
    requires Proper(edges) && forall n :: n in assertions ==> n.a != n.b
    ensures !r.NoProgress?
    ensures r.Settled? ==> Separates(edges, guard, assertions, r.cuts, r.escalations)
    ensures r.Settled? ==> r.iterations <= limit && r.iterations <= |r.cuts| + |NeverPairs(assertions)|
    ensures r.Settled? ==> |r.cuts| + |r.escalations| <= r.iterations * |ActiveNevers(assertions)|
    // a round settles each never pair at most once, so too many ways around one pair exceed any limit
    ensures Starved(edges, guard, assertions, limit) ==> r.NonConvergence?
    // enough rounds to use up every cuttable pair and every never pair always settle
    ensures r.NonConvergence? ==> r.limit == limit < |CuttablePairs(edges, guard)| + |NeverPairs(assertions)| && r.remaining > 0
  {
    if ActiveNevers(assertions) == [] {
      NoNevers(edges, guard, assertions, limit);
      return Settled([], [], 0);
    }
    r := CutRounds(edges, assertions, (set x | x in nodes) + Endpoints(Links(edges)), guard, limit);
    if r.Settled? {
      NotStarved(edges, guard, assertions, r.cuts, r.escalations, r.iterations, limit);
    }
  }

  lemma NoNevers(edges: seq<Edge>, guard: Guard, assertions: seq<Assertion>, limit: nat)
    requires ActiveNevers(assertions) == []
    ensures Separates(edges, guard, assertions, [], []) && !Starved(edges, guard, assertions, limit)
  {
    assert forall n :: n in assertions && ActiveNever(n) ==> n in ActiveNevers(assertions);
  }

  /** The loop: rounds until none is left to settle, or the limit is reached. */
  method CutRounds(edges: seq<Edge>, assertions: seq<Assertion>, everyNode: set<Key>, guard: Guard, limit: nat) returns (r: Outcome)
    requires Proper(edges) && forall n :: n in assertions ==> n.a != n.b
    ensures !r.NoProgress?
    ensures r.Settled? ==> Separates(edges, guard, assertions, r.cuts, r.escalations)
    ensures r.Settled? ==> r.iterations <= limit && r.iterations <= |r.cuts| + |NeverPairs(assertions)|
    ensures r.Settled? ==> |r.cuts| + |r.escalations| <= Allowance(r.iterations, |ActiveNevers(assertions)|)
    ensures r.NonConvergence? ==> r.limit == limit < |CuttablePairs(edges, guard)| + |NeverPairs(assertions)| && r.remaining > 0
  {
    var live := edges;
    var nevers := ActiveNevers(assertions);
    var cuts: seq<Cut>, escalations: seq<Escalation>, escalated: set<Pair> := [], [], {};
    var iterations := 0;
    NothingDone(edges, guard, nevers);
    while true
      invariant CutsSound(edges, guard, nevers, live, cuts)
      invariant EscalationsSound(edges, guard, nevers, escalations, escalated)
      invariant Counted(|cuts|, |escalations|, |escalated|, iterations, |nevers|) && iterations <= limit
      decreases limit - iterations
    {
      var violations := FindViolations(edges, guard, assertions, everyNode, live, cuts, escalations, escalated);
      if violations == [] {
        return Settled(cuts, escalations, iterations);
      }
      if iterations >= limit {
        return NonConvergence(limit, |violations|);
      }
      iterations := iterations + 1;
      var progressed;
      live, cuts, escalations, escalated, progressed := Round(edges, guard, nevers, violations, live, cuts, escalations, escalated);
      assert progressed;
    }
  }

  /** The never pairs still together and not handed over; with none, all is settled. */
  method FindViolations(ghost edges: seq<Edge>, ghost guard: Guard, assertions: seq<Assertion>, everyNode: set<Key>, live: seq<Edge>, ghost cuts: seq<Cut>, ghost escalations: seq<Escalation>, escalated: set<Pair>)
    returns (violations: seq<Assertion>)
    requires forall n :: n in assertions ==> n.a != n.b
    requires CutsSound(edges, guard, ActiveNevers(assertions), live, cuts)
    requires EscalationsSound(edges, guard, ActiveNevers(assertions), escalations, escalated)
    ensures forall n :: n in violations ==> n in ActiveNevers(assertions) && Canon(n.a, n.b) !in escalated && Connected(Links(live), n.a, n.b)
    ensures |violations| <= |ActiveNevers(assertions)| && |escalated| <= |NeverPairs(assertions)|
    ensures violations == [] ==> Separates(edges, guard, assertions, cuts, escalations)
    ensures violations != [] ==> |cuts| + |escalated| < |CuttablePairs(edges, guard)| + |NeverPairs(assertions)|
  {
    var component := Components(live, everyNode);
    violations := Violations(ActiveNevers(assertions), component, escalated);
    EscalatedAreNever(edges, guard, assertions, escalations, escalated);
    if violations == [] {
      NoneViolate(assertions, component, escalated);
      Conclude(edges, guard, assertions, live, cuts, escalations, escalated, everyNode, component);
    } else {
      assert violations[0] in violations;
      OutOfRounds(edges, guard, assertions, cuts, escalated, violations[0]);
    }
  }

  lemma NoneViolate(assertions: seq<Assertion>, component: map<Key, nat>, escalated: set<Pair>)
    requires Violations(ActiveNevers(assertions), component, escalated) == []
    ensures forall n :: n in assertions && ActiveNever(n) ==> !Violates(n, component, escalated)
  {
    forall n | n in assertions && ActiveNever(n)
      ensures !Violates(n, component, escalated)
    {
      assert n in ActiveNevers(assertions);
    }
  }

  lemma NothingDone(edges: seq<Edge>, guard: Guard, nevers: seq<Assertion>)
    ensures CutsSound(edges, guard, nevers, edges, []) && EscalationsSound(edges, guard, nevers, [], {})
  {
    assert Probability(edges) == Probability(edges) - CutPairs([]);
  }

  /** Every round settles something, and each never pair at most once. */
  ghost predicate Counted(cuts: nat, escalations: nat, escalated: nat, rounds: nat, each: nat) {
    rounds <= cuts + escalated && cuts + escalations <= Allowance(rounds, each)
  }

  /** A never pair still to settle leaves less used up than there is. */
  lemma OutOfRounds(edges: seq<Edge>, guard: Guard, assertions: seq<Assertion>, cuts: seq<Cut>, escalated: set<Pair>, n: Assertion)
    requires CutPairs(cuts) <= CuttablePairs(edges, guard) && |CutPairs(cuts)| == |cuts|
    requires escalated <= NeverPairs(assertions) && n in assertions && ActiveNever(n) && Canon(n.a, n.b) !in escalated
    ensures |cuts| + |escalated| < |CuttablePairs(edges, guard)| + |NeverPairs(assertions)|
  {
    Fits(CutPairs(cuts), CuttablePairs(edges, guard));
    Fits(escalated, NeverPairs(assertions));
    assert Canon(n.a, n.b) in NeverPairs(assertions);
  }

  lemma EscalatedAreNever(edges: seq<Edge>, guard: Guard, assertions: seq<Assertion>, escalations: seq<Escalation>, escalated: set<Pair>)
    requires EscalationsSound(edges, guard, ActiveNevers(assertions), escalations, escalated)
    ensures escalated <= NeverPairs(assertions) && |escalated| <= |NeverPairs(assertions)|
  {
    forall pair | pair in escalated
      ensures pair in NeverPairs(assertions)
    {
      var x :| x in escalations && (x.a, x.b) == pair;
    }
    Fits(escalated, NeverPairs(assertions));
  }

  // ---- contradictory assertions -----------------------------------------------------

  /** The links of the active always assertions. */
  function AlwaysEdges(assertions: seq<Assertion>): (r: seq<Edge>)
    ensures forall e :: e in r <==> (e.p == 1.0 && exists n :: n in assertions && n.kind == Always && n.active && n.a == e.a && n.b == e.b)
  {
    if assertions == [] then [] else
      var rest := AlwaysEdges(assertions[1..]);
      var n := assertions[0];
      if n.kind == Always && n.active then [Edge(n.a, n.b, 1.0)] + rest else rest
  }

  /** An active never pair inside one component of the always links. */
  ghost predicate Contradicts(assertions: seq<Assertion>, n: Assertion) {
    && n.kind == Never && n.active
    && n.a in Endpoints(Links(AlwaysEdges(assertions))) && n.b in Endpoints(Links(AlwaysEdges(assertions)))
    && Connected(Links(AlwaysEdges(assertions)), n.a, n.b)
  }

  /** A never assertion, the always assertions it contradicts and the records they tie
      together. */
  datatype Contradiction = Contradiction(never: Assertion, always: set<Assertion>, component: set<Key>)

  /** What explains that n cannot be met: everything always tied to its first record. */
  ghost function Explained(assertions: seq<Assertion>, n: Assertion): Contradiction {
    var links := Links(AlwaysEdges(assertions));
    Contradiction(
      n,
      set m | m in assertions && m.kind == Always && m.active && Connected(links, m.a, n.a),
      set x | x in Endpoints(links) && Connected(links, x, n.a))
  }

  /** The order findings are reported in: by the pair of records. */
  predicate NotAfter(c: Contradiction, d: Contradiction) {
    c.never.a < d.never.a || (c.never.a == d.never.a && c.never.b <= d.never.b)
  }

  ghost predicate InPairOrder(found: seq<Contradiction>) {
    forall i, j :: 0 <= i < j < |found| ==> NotAfter(found[i], found[j])
  }

  /** Put a finding in its place, after those of the same pair. */
  function Placed(c: Contradiction, found: seq<Contradiction>): seq<Contradiction> {
    if found == [] || !NotAfter(found[0], c) then [c] + found else [found[0]] + Placed(c, found[1..])
  }

  lemma {:induction false} PlacedKeeps(c: Contradiction, found: seq<Contradiction>)
    requires InPairOrder(found)
    ensures InPairOrder(Placed(c, found)) && multiset(Placed(c, found)) == multiset(found) + multiset{c}
  {
    if found != [] && NotAfter(found[0], c) {
      var rest := Placed(c, found[1..]);
      PlacedKeeps(c, found[1..]);
      assert found == [found[0]] + found[1..];
      forall j | 0 <= j < |rest|
        ensures NotAfter(found[0], rest[j])
      {
        assert rest[j] in multiset(rest);
        assert rest[j] == c || rest[j] in found[1..];
      }
    }
  }

  /** The offending assertions with their explanations, in the order they are listed. */
  ghost function Findings(assertions: seq<Assertion>, n: nat): seq<Contradiction>
    requires n <= |assertions|
  {
    if n == 0 then [] else
      var rest, last := Findings(assertions, n - 1), assertions[n - 1];
      if Contradicts(assertions, last) then rest + [Explained(assertions, last)] else rest
  }

  /** The assertions no partition can satisfy, exactly, each with what it contradicts and
      as often as it is listed, ordered by pair. */
  method CheckContradiction(assertions: seq<Assertion>) returns (found: seq<Contradiction>)
    ensures InPairOrder(found) && multiset(found) == multiset(Findings(assertions, |assertions|))
  {
    var component := Components(AlwaysEdges(assertions), {});
    found := [];
    for i := 0 to |assertions|
      invariant InPairOrder(found) && multiset(found) == multiset(Findings(assertions, i))
    {
      var finding := Examine(assertions, component, assertions[i]);
      if finding.Some? {
        PlacedKeeps(finding.value, found);
        found := Placed(finding.value, found);
      }
    }
  }

  /** One assertion: the finding it gives, if any. */
  method Examine(assertions: seq<Assertion>, component: map<Key, nat>, n: Assertion) returns (finding: Option<Contradiction>)
    requires Components?(Links(AlwaysEdges(assertions)), {}, component)
    ensures finding == if Contradicts(assertions, n) then Some(Explained(assertions, n)) else None
  {
    AlwaysListed(assertions);
    finding := None;
    if ActiveNever(n) && n.a in component && n.b in component && component[n.a] == component[n.b] {
      var always := set m | m in assertions && m.kind == Always && m.active && component[m.a] == component[n.a];
      var tied := set x | x in component && component[x] == component[n.a];
      ExplainedBy(assertions, component, n, always, tied);
      finding := Some(Contradiction(n, always, tied));
    }
  }

  /** What is found is what contradicts, and nothing else. */
  lemma {:induction false} FindingsMeaning(assertions: seq<Assertion>, n: nat, c: Contradiction)
    requires n <= |assertions|
    ensures c in Findings(assertions, n) <==> exists i :: 0 <= i < n && Contradicts(assertions, assertions[i]) && c == Explained(assertions, assertions[i])
  {
    if n > 0 {
      FindingsMeaning(assertions, n - 1, c);
    }
  }

  lemma AlwaysListed(assertions: seq<Assertion>)
    ensures forall m :: m in assertions && m.kind == Always && m.active ==> m.a in Endpoints(Links(AlwaysEdges(assertions)))
  {
    forall m | m in assertions && m.kind == Always && m.active
      ensures m.a in Endpoints(Links(AlwaysEdges(assertions)))
    {
      var e := Edge(m.a, m.b, 1.0);
      assert e in AlwaysEdges(assertions);
      assert (m.a, m.b) in Links(AlwaysEdges(assertions)) && (m.a, m.b).0 == m.a;
    }
  }

  lemma ExplainedBy(assertions: seq<Assertion>, component: map<Key, nat>, n: Assertion, always: set<Assertion>, tied: set<Key>)
    requires Components?(Links(AlwaysEdges(assertions)), {}, component) && n.a in component
    requires forall m :: m in assertions && m.kind == Always && m.active ==> m.a in component
    requires always == set m | m in assertions && m.kind == Always && m.active && component[m.a] == component[n.a]
    requires tied == set x | x in component && component[x] == component[n.a]
    ensures Contradiction(n, always, tied) == Explained(assertions, n)
  {
    var explained := Explained(assertions, n);
    SameMembers(always, explained.always);
    forall x: Key
      ensures x in tied <==> x in explained.component
    {
      assert x in component.Keys <==> x in Endpoints(Links(AlwaysEdges(assertions)));
    }
    SameMembers(tied, explained.component);
  }
}
