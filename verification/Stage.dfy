/** The reconcile stage: adjust the scored links by steward assertions, cut what
    must not cluster, cluster what is left and carry the entity ids over. */
module Stage {
  import opened Wrappers
  import opened RecordGraph
  import opened Clustering
  import opened ShortestPath
  import opened NeverCut
  import opened Reconcile
  import opened Ledger

  /** One run's inputs: links above the merge threshold, the live corpus, the
      active assertions, the never pairs a tenant's own constraints add, the
      steward overlays and the prior membership. */
  datatype Inputs = Inputs(
    scored: seq<Edge>, corpus: seq<Key>, assertions: seq<Assertion>, vetoes: seq<Assertion>,
    suppressed: set<Key>, guard: Guard, limit: nat, members: Membership)

  /** What a run leaves: the plan, and the pairs it asks a human to review. */
  datatype Result = Failed | Done(plan: Plan, decision: Decision, cuts: seq<Cut>, escalations: seq<Escalation>, reviews: seq<Pair>)

  function Keep(edges: seq<Edge>, p: Edge -> bool): (r: seq<Edge>)
    ensures forall e :: e in r <==> e in edges && p(e)
  {
    if edges == [] then [] else
      var rest := Keep(edges[1..], p);
      if p(edges[0]) then [edges[0]] + rest else rest
  }

  /** `always` pairs as links of probability one; suppression wins over them. */
  function AlwaysLinks(assertions: seq<Assertion>, suppressed: set<Key>): (r: seq<Edge>)
    ensures forall e :: e in r <==> (e.p == 1.0 && e.a !in suppressed && e.b !in suppressed && exists n :: n in assertions && n.kind == Always && n.a == e.a && n.b == e.b)
  {
    if assertions == [] then [] else
      var n := assertions[0];
      var rest := AlwaysLinks(assertions[1..], suppressed);
      if n.kind == Always && n.a !in suppressed && n.b !in suppressed then [Edge(n.a, n.b, 1.0)] + rest else rest
  }

  function Nevers(inputs: Inputs): seq<Assertion> {
    OfKindNever(inputs.assertions) + inputs.vetoes
  }

  function OfKindNever(assertions: seq<Assertion>): (r: seq<Assertion>)
    ensures forall n :: n in r <==> n in assertions && n.kind == Never
  {
    if assertions == [] then [] else
      var rest := OfKindNever(assertions[1..]);
      if assertions[0].kind == Never then [assertions[0]] + rest else rest
  }

  function OrientedPairs(nevers: seq<Assertion>): set<Pair> {
    set n | n in nevers :: (n.a, n.b)
  }

  /** Scored links without suppressed records, plus the always links, less every
      link that is itself a never pair. */
  function Adjusted(inputs: Inputs): seq<Edge> {
    var visible := Keep(inputs.scored, (e: Edge) => e.a !in inputs.suppressed && e.b !in inputs.suppressed);
    Keep(visible + AlwaysLinks(inputs.assertions, inputs.suppressed), (e: Edge) => (e.a, e.b) !in OrientedPairs(Nevers(inputs)))
  }

  function ClusterNodes(inputs: Inputs): seq<Key> {
    Filter(inputs.corpus, inputs.suppressed)
  }

  function Filter(keys: seq<Key>, out: set<Key>): (r: seq<Key>)
    ensures forall x :: x in r <==> x in keys && x !in out
  {
    if keys == [] then [] else
      var rest := Filter(keys[1..], out);
      if keys[0] !in out then [keys[0]] + rest else rest
  }

  /** Cutting by stored orientation. */
  function WithoutCuts(edges: seq<Edge>, cuts: seq<Cut>): seq<Edge> {
    Keep(edges, (e: Edge) => (e.a, e.b) !in CutPairs(cuts))
  }

  /** The stored-orientation filter removes what was cut exactly when no cut pair
      is stored in reverse. */
  lemma CutsAppliedIff(edges: seq<Edge>, cuts: seq<Cut>)
    requires Proper(edges) && forall c :: c in cuts ==> c.a < c.b
    ensures (forall e :: e in WithoutCuts(edges, cuts) <==> e in Remaining(edges, cuts))
      <==> (forall e :: e in edges && Canon(e.a, e.b) in CutPairs(cuts) ==> e.a < e.b)
  {
    RemainingEdges(edges, cuts);
    forall e | e in edges
      ensures (e in WithoutCuts(edges, cuts) <==> e in Remaining(edges, cuts)) <==> (Canon(e.a, e.b) in CutPairs(cuts) ==> e.a < e.b)
    {
    }
  }

  // ---- the links of a run, told from its inputs -------------------------------------

  /** A steward or a constraint keeps this very pair apart. */
  ghost predicate Forbidden(inputs: Inputs, x: Key, y: Key) {
    exists n :: ((n in inputs.assertions && n.kind == Never) || n in inputs.vetoes) && n.a == x && n.b == y
  }

  ghost predicate Scored?(inputs: Inputs, x: Key, y: Key) {
    exists e :: e in inputs.scored && e.a == x && e.b == y
  }

  ghost predicate Always?(inputs: Inputs, x: Key, y: Key) {
    exists n :: n in inputs.assertions && n.kind == Always && n.a == x && n.b == y
  }

  /** A scored or always link between records nobody suppressed, itself not forbidden. */
  ghost predicate Offered(inputs: Inputs, x: Key, y: Key) {
    && x !in inputs.suppressed && y !in inputs.suppressed && !Forbidden(inputs, x, y)
    && (Scored?(inputs, x, y) || Always?(inputs, x, y))
  }

  ghost function OfferedLinks(inputs: Inputs): set<Pair> {
    (set e | e in inputs.scored && Offered(inputs, e.a, e.b) :: (e.a, e.b)) + (set n | n in inputs.assertions && Offered(inputs, n.a, n.b) :: (n.a, n.b))
  }

  /** The links offered and not cut. */
  ghost function SurvivingLinks(inputs: Inputs, cuts: seq<Cut>): set<Pair> {
    set l | l in OfferedLinks(inputs) && forall c :: c in cuts ==> (c.a, c.b) != l
  }

  /** The score of a pair, the last one listed counting. */
  function Score(scored: seq<Edge>, x: Key, y: Key): Option<real> {
    if scored == [] then None else
      var e := scored[|scored| - 1];
      if e.a == x && e.b == y then Some(e.p) else Score(scored[..|scored| - 1], x, y)
  }

  /** A link no cut may touch: a protected record at one end, or a probability at or above
      the threshold, that of an always link being one. */
  ghost predicate Held(inputs: Inputs, x: Key, y: Key) {
    && Offered(inputs, x, y)
    && (|| x in inputs.guard.records || y in inputs.guard.records
        || (if Always?(inputs, x, y) then 1.0 >= inputs.guard.probability else Score(inputs.scored, x, y).Some? && Score(inputs.scored, x, y).value >= inputs.guard.probability))
  }

  ghost function HeldLinks(inputs: Inputs): set<Pair> {
    set l | l in OfferedLinks(inputs) && Held(inputs, l.0, l.1)
  }

  lemma OfferedIs(inputs: Inputs, x: Key, y: Key)
    ensures (x, y) in OfferedLinks(inputs) <==> Offered(inputs, x, y)
    ensures (x, y) in Links(Adjusted(inputs)) <==> Offered(inputs, x, y)
  {
    if Offered(inputs, x, y) {
      if Scored?(inputs, x, y) {
        var e :| e in inputs.scored && e.a == x && e.b == y;
        assert (e.a, e.b) == (x, y);
      } else {
        var n :| n in inputs.assertions && n.kind == Always && n.a == x && n.b == y;
        assert (n.a, n.b) == (x, y);
      }
    }
    AdjustedHas(inputs, x, y);
  }

  lemma ForbiddenIs(inputs: Inputs, x: Key, y: Key)
    ensures (x, y) in OrientedPairs(Nevers(inputs)) <==> Forbidden(inputs, x, y)
  {
    if n :| ((n in inputs.assertions && n.kind == Never) || n in inputs.vetoes) && n.a == x && n.b == y {
      assert n in Nevers(inputs);
    }
  }

  lemma AdjustedHas(inputs: Inputs, x: Key, y: Key)
    ensures (x, y) in Links(Adjusted(inputs)) <==> Offered(inputs, x, y)
  {
    ForbiddenIs(inputs, x, y);
    if Offered(inputs, x, y) {
      if Scored?(inputs, x, y) {
        var e :| e in inputs.scored && e.a == x && e.b == y;
        assert e in Adjusted(inputs);
      } else {
        assert Edge(x, y, 1.0) in AlwaysLinks(inputs.assertions, inputs.suppressed);
        assert Edge(x, y, 1.0) in Adjusted(inputs);
      }
    }
    if (x, y) in Links(Adjusted(inputs)) {
      var e :| e in Adjusted(inputs) && (e.a, e.b) == (x, y);
      assert e in inputs.scored || e in AlwaysLinks(inputs.assertions, inputs.suppressed);
    }
  }

  lemma SurvivingIs(inputs: Inputs, cuts: seq<Cut>)
    ensures Links(WithoutCuts(Adjusted(inputs), cuts)) == SurvivingLinks(inputs, cuts)
  {
    forall l: Pair
      ensures l in Links(WithoutCuts(Adjusted(inputs), cuts)) <==> l in SurvivingLinks(inputs, cuts)
    {
      SurvivesIff(inputs, cuts, l);
    }
  }

  lemma SurvivesIff(inputs: Inputs, cuts: seq<Cut>, l: Pair)
    ensures l in Links(WithoutCuts(Adjusted(inputs), cuts)) <==> l in SurvivingLinks(inputs, cuts)
  {
    OfferedIs(inputs, l.0, l.1);
    assert l == (l.0, l.1);
    assert l in CutPairs(cuts) <==> !(forall c :: c in cuts ==> (c.a, c.b) != l);
    if l in Links(Adjusted(inputs)) && l !in CutPairs(cuts) {
      var e :| e in Adjusted(inputs) && (e.a, e.b) == l;
      assert e in WithoutCuts(Adjusted(inputs), cuts);
    }
  }

  // ---- groups from labels --------------------------------------------------------

  function GroupsOf(labels: map<Key, Key>): map<Key, set<Key>> {
    map x | x in labels :: labels[x] := set y | y in labels && labels[y] == labels[x]
  }

  /** A label labels itself and is no larger than what it labels. */
  ghost predicate Settled(labels: map<Key, Key>) {
    forall x :: x in labels ==> labels[x] in labels && labels[labels[x]] == labels[x] && labels[x] <= x
  }

  lemma LabelsSettled(links: set<Pair>, universe: set<Key>, labels: map<Key, Key>)
    requires LeastLabels(links, universe, labels)
    ensures Settled(labels)
  {
    forall x | x in labels
      ensures labels[x] in labels && labels[labels[x]] == labels[x] && labels[x] <= x
    {
      assert LabelledWithin(links, labels, x);
      SharedLabel(links, universe, labels, x, labels[x]);
      ConnectedSelf(links, x);
    }
  }

  lemma GroupsPartition(labels: map<Key, Key>)
    requires Settled(labels)
    ensures Partition(GroupsOf(labels))
    ensures forall k :: k in GroupsOf(labels) ==> k in GroupsOf(labels)[k] && k == Min(GroupsOf(labels)[k])
  {
    var groups := GroupsOf(labels);
    forall k | k in groups
      ensures k in groups[k] && k == Min(groups[k])
    {
      var x :| x in labels && labels[x] == k;
      assert k in groups[k];
    }
  }

  lemma SharedGroup(labels: map<Key, Key>, x: Key, y: Key)
    ensures (exists k :: k in GroupsOf(labels) && x in GroupsOf(labels)[k] && y in GroupsOf(labels)[k])
      <==> (x in labels && y in labels && labels[x] == labels[y])
  {
    if x in labels && y in labels && labels[x] == labels[y] {
      assert labels[x] in GroupsOf(labels);
    }
  }

  /** Two records end in one entity exactly when the clustering connects them. */
  lemma ClusteredTogether(d: Decision, links: set<Pair>, universe: set<Key>, labels: map<Key, Key>, x: Key, y: Key)
    requires d.Sound() && LeastLabels(links, universe, labels) && d.groups == GroupsOf(labels)
    requires x in d.Target() && y in d.Target()
    ensures d.Target()[x] == d.Target()[y] <==> x == y || (x in universe && y in universe && Connected(links, x, y))
  {
    TargetPartition(d, x, y);
    SharedGroup(labels, x, y);
    if x in universe && y in universe {
      SharedLabel(links, universe, labels, x, y);
    }
  }

  // ---- always links are firm -------------------------------------------------------

  /** An always assertion the run keeps. */
  predicate Kept?(inputs: Inputs, n: Assertion) {
    && n in inputs.assertions && n.kind == Always
    && n.a !in inputs.suppressed && n.b !in inputs.suppressed
    && (n.a, n.b) !in OrientedPairs(Nevers(inputs))
  }

  lemma {:induction false} ProbabilityAppend(xs: seq<Edge>, ys: seq<Edge>, pair: Pair)
    requires pair in Probability(ys)
    ensures pair in Probability(xs + ys) && Probability(xs + ys)[pair] == Probability(ys)[pair]
    decreases |ys|
  {
    var e := ys[|ys| - 1];
    assert (xs + ys)[..|xs + ys| - 1] == xs + ys[..|ys| - 1];
    if Canon(e.a, e.b) != pair {
      ProbabilityAppend(xs, ys[..|ys| - 1], pair);
    }
  }

  lemma {:induction false} CertainProbability(ys: seq<Edge>)
    requires forall e :: e in ys ==> e.p == 1.0
    ensures forall pair :: pair in Probability(ys) ==> Probability(ys)[pair] == 1.0
    decreases |ys|
  {
    if ys != [] {
      assert ys[|ys| - 1] in ys;
      CertainProbability(ys[..|ys| - 1]);
    }
  }

  lemma {:induction false} KeepAppend(xs: seq<Edge>, ys: seq<Edge>, p: Edge -> bool)
    ensures Keep(xs + ys, p) == Keep(xs, p) + Keep(ys, p)
    decreases |xs|
  {
    if xs == [] {
      assert xs + ys == ys;
    } else {
      assert (xs + ys)[1..] == xs[1..] + ys;
      KeepAppend(xs[1..], ys, p);
    }
  }

  /** A steward's always link is appended last with probability one, so no cut may
      touch it while the protection threshold is at most one. */
  lemma AlwaysFirm(inputs: Inputs, n: Assertion)
    requires inputs.guard.probability <= 1.0
    requires Kept?(inputs, n)
    ensures (n.a, n.b) in Firm(Adjusted(inputs), inputs.guard)
  {
    var visible := Keep(inputs.scored, (e: Edge) => e.a !in inputs.suppressed && e.b !in inputs.suppressed);
    var always := AlwaysLinks(inputs.assertions, inputs.suppressed);
    var p := (e: Edge) => (e.a, e.b) !in OrientedPairs(Nevers(inputs));
    KeepAppend(visible, always, p);
    var e := Edge(n.a, n.b, 1.0);
    assert e in always && e in Keep(always, p);
    ProbabilityKeys(Keep(always, p));
    CertainProbability(Keep(always, p));
    ProbabilityAppend(Keep(visible, p), Keep(always, p), Canon(n.a, n.b));
    assert e in Adjusted(inputs);
  }

  // ---- which links are held ------------------------------------------------------------

  lemma {:induction false} ScoreAppend(xs: seq<Edge>, ys: seq<Edge>, x: Key, y: Key)
    ensures Score(xs + ys, x, y) == if Score(ys, x, y).Some? then Score(ys, x, y) else Score(xs, x, y)
    decreases |ys|
  {
    if ys == [] {
      assert xs + ys == xs;
    } else {
      ScoreAppend(xs, ys[..|ys| - 1], x, y);
      assert (xs + ys)[..|xs + ys| - 1] == xs + ys[..|ys| - 1];
    }
  }

  /** A filter that lets a pair through leaves its score. */
  lemma {:induction false} ScoreKeep(edges: seq<Edge>, p: Edge -> bool, x: Key, y: Key)
    requires forall e :: e in edges && e.a == x && e.b == y ==> p(e)
    ensures Score(Keep(edges, p), x, y) == Score(edges, x, y)
    decreases |edges|
  {
    if edges != [] {
      var init, e := edges[..|edges| - 1], edges[|edges| - 1];
      assert edges == init + [e];
      ScoreKeep(init, p, x, y);
      KeepAppend(init, [e], p);
      KeepOne(e, p);
      ScoreAppend(Keep(init, p), Keep([e], p), x, y);
      ScoreOne(e, x, y);
    }
  }

  lemma KeepOne(e: Edge, p: Edge -> bool)
    ensures Keep([e], p) == if p(e) then [e] else []
  {
    assert [e][1..] == [];
  }

  lemma ScoreOne(e: Edge, x: Key, y: Key)
    ensures Score([e], x, y) == if e.a == x && e.b == y then Some(e.p) else None
  {
    assert [e][..0] == [];
  }

  /** The probability the cutting loop looks up is that score. */
  lemma {:induction false} ScoreIs(edges: seq<Edge>, x: Key, y: Key)
    requires (forall e :: e in edges ==> e.a < e.b) && x < y
    ensures (x, y) in Probability(edges) <==> Score(edges, x, y).Some?
    ensures (x, y) in Probability(edges) ==> Score(edges, x, y) == Some(Probability(edges)[(x, y)])
    decreases |edges|
  {
    if edges != [] {
      var init, e := edges[..|edges| - 1], edges[|edges| - 1];
      assert edges == init + [e];
      ScoreIs(init, x, y);
      assert Canon(e.a, e.b) == (e.a, e.b);
    }
  }

  lemma {:induction false} ScoreListed(edges: seq<Edge>, x: Key, y: Key)
    ensures Score(edges, x, y).Some? <==> exists e :: e in edges && e.a == x && e.b == y
    ensures (forall e :: e in edges ==> e.p == 1.0) && Score(edges, x, y).Some? ==> Score(edges, x, y) == Some(1.0)
    decreases |edges|
  {
    if edges != [] {
      var init, e := edges[..|edges| - 1], edges[|edges| - 1];
      assert edges == init + [e];
      assert e in edges;
      ScoreListed(init, x, y);
    }
  }

  lemma AlwaysScore(inputs: Inputs, x: Key, y: Key)
    requires x !in inputs.suppressed && y !in inputs.suppressed
    ensures Score(AlwaysLinks(inputs.assertions, inputs.suppressed), x, y) == if Always?(inputs, x, y) then Some(1.0) else None
  {
    var always := AlwaysLinks(inputs.assertions, inputs.suppressed);
    ScoreListed(always, x, y);
    if Always?(inputs, x, y) {
      assert Edge(x, y, 1.0) in always;
    }
  }

  /** An offered pair counts as certain if a steward joined it, else at its last score. */
  lemma AdjustedScore(inputs: Inputs, x: Key, y: Key)
    requires Offered(inputs, x, y)
    ensures Score(Adjusted(inputs), x, y) == if Always?(inputs, x, y) then Some(1.0) else Score(inputs.scored, x, y)
  {
    var q := (e: Edge) => e.a !in inputs.suppressed && e.b !in inputs.suppressed;
    var p := (e: Edge) => (e.a, e.b) !in OrientedPairs(Nevers(inputs));
    var visible, always := Keep(inputs.scored, q), AlwaysLinks(inputs.assertions, inputs.suppressed);
    ForbiddenIs(inputs, x, y);
    ScoreKeep(visible + always, p, x, y);
    ScoreAppend(visible, always, x, y);
    ScoreKeep(inputs.scored, q, x, y);
    AlwaysScore(inputs, x, y);
  }

  /** What no cut may touch is what is held. */
  lemma HeldIff(inputs: Inputs, x: Key, y: Key)
    requires WellFormed(inputs)
    ensures (x, y) in Firm(Adjusted(inputs), inputs.guard) <==> (x, y) in HeldLinks(inputs)
  {
    OfferedIs(inputs, x, y);
    if Offered(inputs, x, y) {
      AdjustedOrder(inputs);
      var e :| e in Adjusted(inputs) && (e.a, e.b) == (x, y);
      AdjustedScore(inputs, x, y);
      ScoreIs(Adjusted(inputs), x, y);
      ScoreListed(Adjusted(inputs), x, y);
      assert Canon(x, y) == (x, y);
    }
  }

  lemma AdjustedOrder(inputs: Inputs)
    requires WellFormed(inputs)
    ensures forall e :: e in Adjusted(inputs) ==> e.a < e.b
  {
  }

  lemma HeldIsFirm(inputs: Inputs)
    requires WellFormed(inputs)
    ensures Firm(Adjusted(inputs), inputs.guard) == HeldLinks(inputs)
  {
    forall l: Pair
      ensures l in Firm(Adjusted(inputs), inputs.guard) <==> l in HeldLinks(inputs)
    {
      HeldIff(inputs, l.0, l.1);
      assert l == (l.0, l.1);
    }
  }

  /** The always links a run keeps: not suppressed and not themselves forbidden. */
  function KeptAlways(inputs: Inputs): set<Pair> {
    set n | n in inputs.assertions && Kept?(inputs, n) :: (n.a, n.b)
  }

  /** A never pair joined by always links is one no cut can satisfy, so it stays
      together. */
  lemma ContradictionUnsatisfiable(inputs: Inputs, n: Assertion)
    requires inputs.guard.probability <= 1.0 && Connected(KeptAlways(inputs), n.a, n.b)
    ensures Unsatisfiable(Adjusted(inputs), inputs.guard, n)
  {
    forall l | l in KeptAlways(inputs)
      ensures l in Firm(Adjusted(inputs), inputs.guard)
    {
      var m :| Kept?(inputs, m) && (m.a, m.b) == l;
      AlwaysFirm(inputs, m);
    }
    ConnectedMono(KeptAlways(inputs), Firm(Adjusted(inputs), inputs.guard), n.a, n.b);
  }

  // ---- what a human is asked ----------------------------------------------------------

  /** Escalations are written as reviews only if some record is protected or some
      constraint of the tenant's own gave a never pair. */
  predicate Surfaced(inputs: Inputs) {
    inputs.guard.records != {} || inputs.vetoes != []
  }

  function Reviews(inputs: Inputs, escalations: seq<Escalation>): seq<Pair> {
    if Surfaced(inputs) then seq(|escalations|, i requires 0 <= i < |escalations| => (escalations[i].a, escalations[i].b)) else []
  }

  method WriteReviews(inputs: Inputs, escalations: seq<Escalation>) returns (reviews: seq<Pair>)
    ensures reviews == Reviews(inputs, escalations)
    ensures forall pair :: pair in reviews <==> Surfaced(inputs) && pair in EscalatedPairs(escalations)
  {
    reviews := [];
    if inputs.guard.records != {} || inputs.vetoes != [] {
      for i := 0 to |escalations|
        invariant |reviews| == i
        invariant forall j :: 0 <= j < i ==> reviews[j] == (escalations[j].a, escalations[j].b)
      {
        reviews := reviews + [(escalations[i].a, escalations[i].b)];
      }
    }
    forall pair
      ensures pair in reviews <==> Surfaced(inputs) && pair in EscalatedPairs(escalations)
    {
      ReviewedIff(inputs, escalations, pair);
    }
  }

  lemma ReviewedIff(inputs: Inputs, escalations: seq<Escalation>, pair: Pair)
    ensures pair in Reviews(inputs, escalations) <==> Surfaced(inputs) && pair in EscalatedPairs(escalations)
  {
    if Surfaced(inputs) {
      if x :| x in escalations && (x.a, x.b) == pair {
        var i :| 0 <= i < |escalations| && escalations[i] == x;
        assert Reviews(inputs, escalations)[i] == pair;
      }
    }
  }

  /** The direct link of a never pair is dropped, always or not, so what joins such a
      pair passes through another record. */
  lemma DirectLinkDropped(inputs: Inputs, n: Assertion)
    requires n in Nevers(inputs)
    ensures (n.a, n.b) !in Links(Adjusted(inputs))
  {
    assert (n.a, n.b) in OrientedPairs(Nevers(inputs));
  }

  /** Two always links against a never pair, with nothing protected and no constraint
      declared. */
  const FIRST := Assertion(1, 1, 2, Always, true)
  const SECOND := Assertion(2, 2, 3, Always, true)
  const AGAINST := Assertion(3, 1, 3, Never, true)
  const SILENT := Inputs([], [1, 2, 3], [FIRST, SECOND, AGAINST], [], {}, Guard(0.9, {}), 50, map[])

  lemma SilentInputs()
    ensures FIRST in SILENT.assertions && SECOND in SILENT.assertions && AGAINST in SILENT.assertions
    ensures WellFormed(SILENT) && Nevers(SILENT) == [AGAINST] && EntitiesOf(LiveMembers(SILENT)) == map[]
  {
    assert SILENT.assertions[0] == FIRST && SILENT.assertions[1] == SECOND && SILENT.assertions[2] == AGAINST;
    assert OfKindNever([AGAINST]) == [AGAINST];
    assert SILENT.assertions[1..] == [SECOND, AGAINST] && [SECOND, AGAINST][1..] == [AGAINST];
    assert OfKindNever([SECOND, AGAINST]) == [AGAINST];
  }

  /** No cut can satisfy the pair. */
  lemma SilentContradiction()
    ensures Unsatisfiable(Adjusted(SILENT), SILENT.guard, AGAINST) && !Surfaced(SILENT)
  {
    SilentInputs();
    var kept := KeptAlways(SILENT);
    assert (1, 2) in kept && (2, 3) in kept;
    ConnectedStep(kept, 1, 2);
    ConnectedStep(kept, 2, 3);
    ConnectedTrans(kept, 1, 2, 3);
    ContradictionUnsatisfiable(SILENT, AGAINST);
  }

  /** Without scored links nothing may be cut. */
  lemma NothingScored(inputs: Inputs)
    requires inputs.scored == [] && inputs.guard.probability <= 1.0
    ensures |CuttablePairs(Adjusted(inputs), inputs.guard)| == 0
  {
    var edges := Adjusted(inputs);
    forall e | e in edges
      ensures e.p == 1.0
    {
      assert e in AlwaysLinks(inputs.assertions, inputs.suppressed);
    }
    CertainProbability(edges);
    assert CuttablePairs(edges, inputs.guard) == {};
  }

  lemma OneNever(n: Assertion)
    ensures |NeverPairs([n])| <= 1
  {
    Fits(NeverPairs([n]), {Canon(n.a, n.b)});
  }

  /** A run on it: the plan is made, the never pair is one entity, nobody is asked. */
  method SilentRun(factory: nat -> Id) returns (r: Result)
    requires Fresh(factory, map[])
    ensures r.Done? && r.decision.Sound() && r.reviews == []
    ensures 1 in r.decision.Target() && 3 in r.decision.Target() && r.decision.Target()[1] == r.decision.Target()[3]
  {
    SilentInputs();
    SilentContradiction();
    NothingScored(SILENT);
    OneNever(AGAINST);
    r := Run(SILENT, factory);
    SilentTogether(r.decision);
  }

  lemma SilentTogether(d: Decision)
    requires d.Sound() && AlwaysHold(SILENT, d)
    ensures 1 in d.Target() && 3 in d.Target() && d.Target()[1] == d.Target()[3]
  {
    SilentKept();
    AlwaysApplied(SILENT, d, FIRST);
    AlwaysApplied(SILENT, d, SECOND);
  }

  lemma SilentKept()
    ensures Kept?(SILENT, FIRST) && Kept?(SILENT, SECOND)
  {
    SilentInputs();
    assert OrientedPairs([AGAINST]) == {(1, 3)};
  }

  lemma AlwaysApplied(inputs: Inputs, d: Decision, n: Assertion)
    requires d.Sound() && AlwaysHold(inputs, d) && Kept?(inputs, n)
    ensures n.a in d.Target() && n.b in d.Target() && d.Target()[n.a] == d.Target()[n.b]
  {
  }

  // ---- the stage ----------------------------------------------------------------------

  /** Canonical links and assertions, all assertions active, as the loaders give. */
  ghost predicate WellFormed(inputs: Inputs) {
    && (forall e :: e in inputs.scored ==> e.a < e.b)
    && (forall n :: n in inputs.assertions || n in inputs.vetoes ==> n.a < n.b && n.active)
    && (forall n :: n in inputs.vetoes ==> n.kind == Never)
  }

  /** Prior members that are still in the corpus. */
  function LiveMembers(inputs: Inputs): Membership {
    map x | x in inputs.members && x in inputs.corpus :: inputs.members[x]
  }

  /** A never pair ends in one entity exactly when it is joined by links no cut
      may touch; it is put up for review exactly when, besides, escalations are
      surfaced at all. */
  ghost predicate NeversHold(inputs: Inputs, d: Decision, reviews: seq<Pair>)
    requires d.Sound()
  {
    forall x, y :: Forbidden(inputs, x, y) && x in d.Target() && y in d.Target() ==>
      && (d.Target()[x] == d.Target()[y] <==> Connected(HeldLinks(inputs), x, y))
      && ((x, y) in reviews <==> d.Target()[x] == d.Target()[y] && (inputs.guard.records != {} || inputs.vetoes != []))
  }

  /** Two records share an entity exactly when the links left join them. */
  ghost predicate TogetherIff(inputs: Inputs, d: Decision, cuts: seq<Cut>)
    requires d.Sound()
  {
    forall x, y :: x in d.Target() && y in d.Target() ==>
      (d.Target()[x] == d.Target()[y] <==> x == y || Connected(SurvivingLinks(inputs, cuts), x, y))
  }

  /** Who has an entity at all: every record of the corpus that is not suppressed or had
      one before, and whatever the links left name. */
  ghost predicate PlacedIff(inputs: Inputs, d: Decision, cuts: seq<Cut>)
    requires d.Sound()
  {
    forall x :: x in d.Target() <==>
      (x in inputs.corpus && (x !in inputs.suppressed || x in inputs.members)) || x in Endpoints(SurvivingLinks(inputs, cuts))
  }

  /** The entities a run starts from: the prior members still in the corpus. */
  ghost predicate StartsFrom(inputs: Inputs, prior: map<Id, set<Key>>) {
    forall x, e :: MemberOf(prior, x, e) <==> (x in inputs.corpus && x in inputs.members && inputs.members[x] == e)
  }

  predicate MemberOf(prior: map<Id, set<Key>>, x: Key, e: Id) {
    e in prior && x in prior[e]
  }

  function EscalatedPairs(escalations: seq<Escalation>): set<Pair> {
    set x | x in escalations :: (x.a, x.b)
  }

  /** Always pairs share an entity unless a record is suppressed or the very pair
      is also forbidden. */
  ghost predicate AlwaysHold(inputs: Inputs, d: Decision)
    requires d.Sound()
  {
    forall n :: Kept?(inputs, n) ==>
      n.a in d.Target() && n.b in d.Target() && d.Target()[n.a] == d.Target()[n.b]
  }

  /** A suppressed record keeps an identity of its own and shares it with nobody. */
  ghost predicate SuppressedAlone(inputs: Inputs, d: Decision)
    requires d.Sound()
  {
    forall x, y :: x in inputs.suppressed && x in d.Target() && y in d.Target() && x != y ==> d.Target()[x] != d.Target()[y]
  }

  method Run(inputs: Inputs, factory: nat -> Id) returns (r: Result)
    requires WellFormed(inputs) && Fresh(factory, EntitiesOf(LiveMembers(inputs)))
    ensures Starved(Adjusted(inputs), inputs.guard, Nevers(inputs), inputs.limit) ==> r.Failed?
    ensures r.Failed? ==> inputs.limit < |CuttablePairs(Adjusted(inputs), inputs.guard)| + |NeverPairs(Nevers(inputs))|
    ensures r.Done? ==> r.decision.Sound() && r.decision.prior == EntitiesOf(LiveMembers(inputs))
    ensures r.Done? ==> Separates(Adjusted(inputs), inputs.guard, Nevers(inputs), r.cuts, r.escalations)
    ensures r.Done? ==> TogetherIff(inputs, r.decision, r.cuts) && PlacedIff(inputs, r.decision, r.cuts) && StartsFrom(inputs, r.decision.prior)
    ensures r.Done? ==> NeversHold(inputs, r.decision, r.reviews)
    ensures r.Done? ==> r.reviews == Reviews(inputs, r.escalations)
    ensures r.Done? && inputs.guard.probability <= 1.0 ==> AlwaysHold(inputs, r.decision)
    ensures r.Done? ==> SuppressedAlone(inputs, r.decision)
    ensures r.Done? ==> forall ev :: ev in r.plan.events <==> r.decision.EventRow(ev)
    ensures r.Done? ==> forall x, e :: (x, e) in r.plan.assignments <==> r.decision.AssignmentRow(x, e)
    ensures r.Done? ==> forall t :: t in r.plan.transitions <==> r.decision.TransitionRow(t)
  {
    var edges, nodes := Adjusted(inputs), ClusterNodes(inputs);
    var outcome := NeverCutFixpoint(edges, Nevers(inputs), nodes, inputs.guard, inputs.limit);
    if !outcome.Settled? {
      return Failed;
    }
    var linked := WithoutCuts(edges, outcome.cuts);
    var labels := LabelPropagate(nodes, PairsOf(linked));
    var prior := EntitiesOf(LiveMembers(inputs));
    EntitiesPartition(LiveMembers(inputs));
    PairsOfLinks(linked);
    LabelsSettled(Links(linked), Universe(nodes, PairsOf(linked)), labels);
    GroupsPartition(labels);
    var plan, d := ReconcilePlan(prior, GroupsOf(labels), factory);
    StartsHolds(inputs);
    Promises(inputs, d, outcome.cuts, outcome.escalations, labels);
    PlacedHolds(inputs, d, outcome.cuts, labels);
    var reviews := WriteReviews(inputs, outcome.escalations);
    r := Done(plan, d, outcome.cuts, outcome.escalations, reviews);
  }

  ghost predicate Clustered(inputs: Inputs, d: Decision, cuts: seq<Cut>, labels: map<Key, Key>) {
    var linked := WithoutCuts(Adjusted(inputs), cuts);
    && d.Sound() && d.groups == GroupsOf(labels)
    && LeastLabels(Links(linked), Universe(ClusterNodes(inputs), PairsOf(linked)), labels)
  }

  lemma Promises(inputs: Inputs, d: Decision, cuts: seq<Cut>, escalations: seq<Escalation>, labels: map<Key, Key>)
    requires WellFormed(inputs) && Clustered(inputs, d, cuts, labels)
    requires Separates(Adjusted(inputs), inputs.guard, Nevers(inputs), cuts, escalations)
    ensures NeversHold(inputs, d, Reviews(inputs, escalations))
    ensures TogetherIff(inputs, d, cuts)
    ensures inputs.guard.probability <= 1.0 ==> AlwaysHold(inputs, d)
    ensures SuppressedAlone(inputs, d)
  {
    HeldIsFirm(inputs);
    forall x, y | Forbidden(inputs, x, y) && x in d.Target() && y in d.Target()
      ensures d.Target()[x] == d.Target()[y] <==> Connected(HeldLinks(inputs), x, y)
      ensures (x, y) in Reviews(inputs, escalations) <==> d.Target()[x] == d.Target()[y] && Surfaced(inputs)
    {
      var n :| ((n in inputs.assertions && n.kind == Never) || n in inputs.vetoes) && n.a == x && n.b == y;
      assert n in Nevers(inputs);
      NeverHolds(inputs, d, cuts, escalations, labels, n);
    }
    forall x, y | x in d.Target() && y in d.Target()
      ensures d.Target()[x] == d.Target()[y] <==> x == y || Connected(SurvivingLinks(inputs, cuts), x, y)
    {
      TogetherHolds(inputs, d, cuts, labels, x, y);
    }
    if inputs.guard.probability <= 1.0 {
      forall n | Kept?(inputs, n)
        ensures n.a in d.Target() && n.b in d.Target() && d.Target()[n.a] == d.Target()[n.b]
      {
        AlwaysHolds(inputs, d, cuts, labels, n);
      }
    }
    forall x, y | x in inputs.suppressed && x in d.Target() && y in d.Target() && x != y
      ensures d.Target()[x] != d.Target()[y]
    {
      SuppressedOutside(inputs, d, cuts, labels, x, y);
    }
  }

  lemma TogetherHolds(inputs: Inputs, d: Decision, cuts: seq<Cut>, labels: map<Key, Key>, x: Key, y: Key)
    requires Clustered(inputs, d, cuts, labels) && x in d.Target() && y in d.Target()
    ensures d.Target()[x] == d.Target()[y] <==> x == y || Connected(SurvivingLinks(inputs, cuts), x, y)
  {
    var linked := WithoutCuts(Adjusted(inputs), cuts);
    SurvivingIs(inputs, cuts);
    PairsOfLinks(linked);
    ClusteredTogether(d, Links(linked), Universe(ClusterNodes(inputs), PairsOf(linked)), labels, x, y);
    if x != y && (x !in Endpoints(Links(linked)) || y !in Endpoints(Links(linked))) {
      NoEndpoint(Links(linked), x, y);
    }
  }

  lemma PlacedHolds(inputs: Inputs, d: Decision, cuts: seq<Cut>, labels: map<Key, Key>)
    requires Clustered(inputs, d, cuts, labels) && StartsFrom(inputs, d.prior)
    ensures PlacedIff(inputs, d, cuts)
  {
    var linked := WithoutCuts(Adjusted(inputs), cuts);
    SurvivingIs(inputs, cuts);
    PairsOfLinks(linked);
    forall x
      ensures x in d.Target() <==> (x in inputs.corpus && (x !in inputs.suppressed || x in inputs.members)) || x in Endpoints(SurvivingLinks(inputs, cuts))
    {
      assert x in d.Target() <==> x in Members(d.groups) || x in Members(d.prior);
      GroupedIff(labels, x);
      PriorIff(inputs, d.prior, x);
    }
  }

  lemma GroupedIff(labels: map<Key, Key>, x: Key)
    ensures x in Members(GroupsOf(labels)) <==> x in labels
  {
    if x in labels {
      assert labels[x] in GroupsOf(labels) && x in GroupsOf(labels)[labels[x]];
    }
  }

  lemma PriorIff(inputs: Inputs, prior: map<Id, set<Key>>, x: Key)
    requires StartsFrom(inputs, prior)
    ensures x in Members(prior) <==> x in inputs.corpus && x in inputs.members
  {
    if x in inputs.corpus && x in inputs.members {
      assert MemberOf(prior, x, inputs.members[x]);
    }
    if e :| e in prior && x in prior[e] {
      assert MemberOf(prior, x, e);
    }
  }

  lemma StartsHolds(inputs: Inputs)
    ensures StartsFrom(inputs, EntitiesOf(LiveMembers(inputs)))
  {
    var m := LiveMembers(inputs);
    forall x, e
      ensures MemberOf(EntitiesOf(m), x, e) <==> (x in m && m[x] == e)
    {
      if x in m && m[x] == e {
        assert e in EntitiesOf(m);
      }
    }
  }

  lemma AdjustedCanonical(inputs: Inputs, cuts: seq<Cut>)
    requires WellFormed(inputs)
    ensures forall e :: e in Adjusted(inputs) ==> e.a < e.b && e.a !in inputs.suppressed && e.b !in inputs.suppressed
    ensures Links(WithoutCuts(Adjusted(inputs), cuts)) == Links(Remaining(Adjusted(inputs), cuts))
  {
    RemainingEdges(Adjusted(inputs), cuts);
    var xs, ys := WithoutCuts(Adjusted(inputs), cuts), Remaining(Adjusted(inputs), cuts);
    assert forall e :: e in xs <==> e in ys;
  }

  lemma NeverHolds(inputs: Inputs, d: Decision, cuts: seq<Cut>, escalations: seq<Escalation>, labels: map<Key, Key>, n: Assertion)
    requires WellFormed(inputs) && Clustered(inputs, d, cuts, labels)
    requires Separates(Adjusted(inputs), inputs.guard, Nevers(inputs), cuts, escalations)
    requires n in Nevers(inputs) && n.a in d.Target() && n.b in d.Target()
    ensures d.Target()[n.a] == d.Target()[n.b] <==> Unsatisfiable(Adjusted(inputs), inputs.guard, n)
    ensures (n.a, n.b) in Reviews(inputs, escalations) <==> d.Target()[n.a] == d.Target()[n.b] && Surfaced(inputs)
  {
    var linked := WithoutCuts(Adjusted(inputs), cuts);
    AdjustedCanonical(inputs, cuts);
    PairsOfLinks(linked);
    ClusteredTogether(d, Links(linked), Universe(ClusterNodes(inputs), PairsOf(linked)), labels, n.a, n.b);
    if n.a !in Endpoints(Links(linked)) || n.b !in Endpoints(Links(linked)) {
      NoEndpoint(Links(linked), n.a, n.b);
    }
    ReviewedIff(inputs, escalations, (n.a, n.b));
    EscalatedIff(inputs, cuts, escalations, n);
  }

  /** A never pair is escalated exactly when no cut can satisfy it. */
  lemma EscalatedIff(inputs: Inputs, cuts: seq<Cut>, escalations: seq<Escalation>, n: Assertion)
    requires WellFormed(inputs) && n in Nevers(inputs)
    requires Separates(Adjusted(inputs), inputs.guard, Nevers(inputs), cuts, escalations)
    ensures (n.a, n.b) in EscalatedPairs(escalations) <==> Unsatisfiable(Adjusted(inputs), inputs.guard, n)
    ensures Connected(Links(Remaining(Adjusted(inputs), cuts)), n.a, n.b) <==> Unsatisfiable(Adjusted(inputs), inputs.guard, n)
  {
    var edges := Adjusted(inputs);
    assert ActiveNever(n) && Canon(n.a, n.b) == (n.a, n.b);
    var unmet := set m | m in Nevers(inputs) && m.kind == Never && m.active && Unsatisfiable(edges, inputs.guard, m) :: Canon(m.a, m.b);
    if (n.a, n.b) in unmet {
      var m :| m in Nevers(inputs) && m.kind == Never && m.active && Unsatisfiable(edges, inputs.guard, m) && Canon(m.a, m.b) == (n.a, n.b);
      assert m.a == n.a && m.b == n.b;
    }
  }

  lemma AlwaysHolds(inputs: Inputs, d: Decision, cuts: seq<Cut>, labels: map<Key, Key>, n: Assertion)
    requires WellFormed(inputs) && Clustered(inputs, d, cuts, labels) && inputs.guard.probability <= 1.0
    requires CutPairs(cuts) <= CuttablePairs(Adjusted(inputs), inputs.guard)
    requires Kept?(inputs, n)
    ensures n.a in d.Target() && n.b in d.Target() && d.Target()[n.a] == d.Target()[n.b]
  {
    var linked := WithoutCuts(Adjusted(inputs), cuts);
    AlwaysLinked(inputs, cuts, n);
    PairsOfLinks(linked);
    Joined(d, Links(linked), Universe(ClusterNodes(inputs), PairsOf(linked)), labels, n.a, n.b);
  }

  lemma AlwaysLinked(inputs: Inputs, cuts: seq<Cut>, n: Assertion)
    requires WellFormed(inputs) && inputs.guard.probability <= 1.0
    requires CutPairs(cuts) <= CuttablePairs(Adjusted(inputs), inputs.guard)
    requires Kept?(inputs, n)
    ensures (n.a, n.b) in Links(WithoutCuts(Adjusted(inputs), cuts))
  {
    AlwaysFirm(inputs, n);
    var e :| e in Adjusted(inputs) && (e.a, e.b) == (n.a, n.b);
    assert e in WithoutCuts(Adjusted(inputs), cuts);
  }

  /** Linked records are clustered into one entity. */
  lemma Joined(d: Decision, links: set<Pair>, universe: set<Key>, labels: map<Key, Key>, x: Key, y: Key)
    requires d.Sound() && LeastLabels(links, universe, labels) && d.groups == GroupsOf(labels)
    requires (x, y) in links && Endpoints(links) <= universe
    ensures x in d.Target() && y in d.Target() && d.Target()[x] == d.Target()[y]
  {
    ConnectedStep(links, x, y);
    assert x == (x, y).0 && y == (x, y).1;
    assert x in Endpoints(links) && y in Endpoints(links);
    assert x in d.groups[labels[x]] && y in d.groups[labels[y]];
    ClusteredTogether(d, links, universe, labels, x, y);
  }

  lemma SuppressedOutside(inputs: Inputs, d: Decision, cuts: seq<Cut>, labels: map<Key, Key>, x: Key, y: Key)
    requires WellFormed(inputs) && Clustered(inputs, d, cuts, labels)
    requires x in inputs.suppressed && x in d.Target() && y in d.Target() && x != y
    ensures d.Target()[x] != d.Target()[y]
  {
    var linked := WithoutCuts(Adjusted(inputs), cuts);
    SuppressedUnlisted(inputs, cuts, x);
    ClusteredTogether(d, Links(linked), Universe(ClusterNodes(inputs), PairsOf(linked)), labels, x, y);
  }

  lemma SuppressedUnlisted(inputs: Inputs, cuts: seq<Cut>, x: Key)
    requires WellFormed(inputs) && x in inputs.suppressed
    ensures x !in Universe(ClusterNodes(inputs), PairsOf(WithoutCuts(Adjusted(inputs), cuts)))
  {
    var linked := WithoutCuts(Adjusted(inputs), cuts);
    AdjustedCanonical(inputs, cuts);
    PairsOfLinks(linked);
    assert x !in Endpoints(Links(linked));
  }
}
