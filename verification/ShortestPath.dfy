/** The path along which a forbidden link is cut: fewest hops first, then the
    lexicographically smallest vertex sequence. A breadth-first search keeps one
    candidate sequence per record and replaces it by a smaller one of equal
    depth; it must return the least of all paths. */
module ShortestPath {
  import opened Wrappers
  import opened RecordGraph

  /** Lexicographic order on vertex sequences. */
  predicate LexLess(p: seq<Key>, q: seq<Key>) {
    |q| > 0 && (|p| == 0 || p[0] < q[0] || (p[0] == q[0] && LexLess(p[1..], q[1..])))
  }

  predicate LexLeq(p: seq<Key>, q: seq<Key>) {
    p == q || LexLess(p, q)
  }

  /** At the first place where they differ the first has the smaller vertex, or has ended. */
  ghost predicate DiffersAt(p: seq<Key>, q: seq<Key>, i: nat) {
    i <= |p| && i < |q| && p[..i] == q[..i] && (i == |p| || p[i] < q[i])
  }

  lemma {:induction false} LexMeaning(p: seq<Key>, q: seq<Key>)
    ensures LexLess(p, q) <==> exists i: nat :: DiffersAt(p, q, i)
  {
    if |q| > 0 && (|p| == 0 || p[0] < q[0]) {
      assert DiffersAt(p, q, 0);
    } else if |q| > 0 && p[0] == q[0] {
      LexMeaning(p[1..], q[1..]);
      if i: nat :| DiffersAt(p[1..], q[1..], i) {
        LaterDiffers(p, q, i);
      }
      if i: nat :| DiffersAt(p, q, i) {
        EarlierDiffers(p, q, i);
      }
    } else if i: nat :| DiffersAt(p, q, i) {
      SameHead(p, q, i);
    }
  }

  lemma SameHead(p: seq<Key>, q: seq<Key>, i: nat)
    requires DiffersAt(p, q, i)
    ensures i > 0 ==> |p| > 0 && p[0] == q[0]
  {
    assert i > 0 ==> p[..i][0] == q[..i][0];
  }

  lemma LaterDiffers(p: seq<Key>, q: seq<Key>, i: nat)
    requires |p| > 0 && |q| > 0 && p[0] == q[0] && DiffersAt(p[1..], q[1..], i)
    ensures DiffersAt(p, q, i + 1)
  {
    assert p[..i + 1] == [p[0]] + p[1..][..i] && q[..i + 1] == [q[0]] + q[1..][..i];
  }

  lemma EarlierDiffers(p: seq<Key>, q: seq<Key>, i: nat)
    requires |p| > 0 && |q| > 0 && p[0] == q[0] && DiffersAt(p, q, i)
    ensures i > 0 && DiffersAt(p[1..], q[1..], i - 1)
  {
    assert p[1..][..i - 1] == p[..i][1..] && q[1..][..i - 1] == q[..i][1..];
  }

  lemma {:induction false} LexTrans(p: seq<Key>, q: seq<Key>, r: seq<Key>)
    requires LexLeq(p, q) && LexLeq(q, r)
    ensures LexLeq(p, r)
  {
    if p != q && q != r && |p| > 0 && p[0] == q[0] == r[0] {
      LexTrans(p[1..], q[1..], r[1..]);
      Unfold(p);
      Unfold(r);
    }
  }

  lemma Unfold(p: seq<Key>)
    requires |p| > 0
    ensures p == [p[0]] + p[1..]
  {
  }

  lemma UnfoldLast(p: seq<Key>)
    requires |p| > 0
    ensures p == p[..|p| - 1] + [p[|p| - 1]]
  {
  }

  lemma {:induction false} LexTotal(p: seq<Key>, q: seq<Key>)
    ensures LexLess(p, q) || LexLeq(q, p)
  {
    if |p| > 0 && |q| > 0 && p[0] == q[0] {
      LexTotal(p[1..], q[1..]);
      Unfold(p);
      Unfold(q);
    }
  }

  /** A common last vertex does not change the order of equally long paths. */
  lemma {:induction false} LexAppend(p: seq<Key>, q: seq<Key>, v: Key)
    requires |p| == |q| && LexLeq(p, q)
    ensures LexLeq(p + [v], q + [v])
  {
    if p != q && p[0] == q[0] {
      LexAppend(p[1..], q[1..], v);
      assert (p + [v])[1..] == p[1..] + [v] && (q + [v])[1..] == q[1..] + [v];
      Unfold(p + [v]);
      Unfold(q + [v]);
    }
  }

  /** p is the least path from x to y: by hops, then lexicographically. */
  ghost predicate Optimal(links: set<Pair>, x: Key, y: Key, p: seq<Key>) {
    && IsPath(links, p, x, y)
    && forall q :: IsPath(links, q, x, y) ==> |p| < |q| || (|p| == |q| && LexLeq(p, q))
  }

  // ---- what the search keeps ------------------------------------------------

  type Best = map<Key, seq<Key>>
  type Depth = map<Key, nat>

  ghost predicate Reached(links: set<Pair>, source: Key, best: Best, depth: Depth) {
    && best.Keys == depth.Keys && source in best && best[source] == [source]
    && forall v :: v in best ==> IsPath(links, best[v], source, v) && |best[v]| == depth[v] + 1
  }

  /** The queue holds, in order, the open records of depth d and then d + 1. */
  ghost predicate Queued(depth: Depth, frontier: seq<Key>, popped: set<Key>, d: nat) {
    && (forall v :: v in depth <==> v in popped || v in frontier)
    && (forall v :: v in popped ==> v !in frontier && depth[v] <= d)
    && (forall i :: 0 <= i < |frontier| ==> frontier[i] in depth && d <= depth[frontier[i]] <= d + 1)
    && (forall i, j :: 0 <= i < j < |frontier| ==> frontier[i] != frontier[j] && depth[frontier[i]] <= depth[frontier[j]])
  }

  /** From u, the record v has been offered a candidate and kept one as good. */
  ghost predicate Covers(best: Best, depth: Depth, u: Key, v: Key) {
    && u in best && u in depth && v in best && v in depth
    && depth[v] <= depth[u] + 1
    && (depth[v] == depth[u] + 1 ==> LexLeq(best[v], best[u] + [v]))
  }

  ghost predicate Scanned(links: set<Pair>, best: Best, depth: Depth, popped: set<Key>) {
    forall u, v :: u in popped && Adjacent(links, u, v) ==> Covers(best, depth, u, v)
  }

  ghost predicate Final(links: set<Pair>, source: Key, best: Best, popped: set<Key>) {
    forall u :: u in popped ==> u in best && Optimal(links, source, u, best[u])
  }

  /** Within d hops a path ends in a record already given at most its length. */
  lemma {:induction false} WithinDepth(links: set<Pair>, source: Key, best: Best, depth: Depth, popped: set<Key>, d: nat, p: seq<Key>, w: Key)
    requires Reached(links, source, best, depth) && Scanned(links, best, depth, popped)
    requires forall v :: v in depth && depth[v] < d ==> v in popped
    requires IsPath(links, p, source, w) && |p| - 1 <= d
    ensures w in depth && depth[w] <= |p| - 1
    decreases |p|
  {
    if |p| == 1 {
      assert |best[source]| == depth[source] + 1;
    } else {
      PathInit(links, p, source, w);
      var u := p[|p| - 2];
      WithinDepth(links, source, best, depth, popped, d, p[..|p| - 1], u);
      assert Covers(best, depth, u, w);
    }
  }

  /** The record at the head of the queue already holds its least path. */
  lemma HeadOptimal(links: set<Pair>, source: Key, best: Best, depth: Depth, popped: set<Key>, n: Key)
    requires Reached(links, source, best, depth) && Scanned(links, best, depth, popped)
    requires Final(links, source, best, popped)
    requires n in depth && forall v :: v in depth && depth[v] < depth[n] ==> v in popped
    ensures Optimal(links, source, n, best[n])
  {
    forall q | IsPath(links, q, source, n)
      ensures |best[n]| < |q| || (|best[n]| == |q| && LexLeq(best[n], q))
    {
      if |q| <= |best[n]| {
        HeadBeats(links, source, best, depth, popped, n, q);
      }
    }
  }

  lemma HeadBeats(links: set<Pair>, source: Key, best: Best, depth: Depth, popped: set<Key>, n: Key, q: seq<Key>)
    requires Reached(links, source, best, depth) && Scanned(links, best, depth, popped)
    requires Final(links, source, best, popped)
    requires n in depth && forall v :: v in depth && depth[v] < depth[n] ==> v in popped
    requires IsPath(links, q, source, n) && |q| <= |best[n]|
    ensures |best[n]| == |q| && LexLeq(best[n], q)
  {
    WithinDepth(links, source, best, depth, popped, depth[n], q, n);
    if |q| > 1 {
      PathInit(links, q, source, n);
      var init, u := q[..|q| - 1], q[|q| - 2];
      WithinDepth(links, source, best, depth, popped, depth[n], init, u);
      assert Covers(best, depth, u, n);
      assert Optimal(links, source, u, best[u]);
      LexAppend(best[u], init, n);
      assert init + [n] == q;
      LexTrans(best[n], best[u] + [n], q);
    } else {
      assert q == [source];
    }
  }

  /** Offering v the path through n: kept if v is new or the path is smaller. */
  lemma OfferKeepsCovers(best: Best, depth: Depth, best': Best, depth': Depth, n: Key, v: Key, u: Key, w: Key)
    requires best.Keys == depth.Keys && n in best
    requires Covers(best, depth, u, w) && depth[u] <= depth[n]
    requires depth' == if v in depth then depth else depth[v := depth[n] + 1]
    requires best' == if v !in depth || (depth[v] == depth[n] + 1 && LexLess(best[n] + [v], best[v])) then best[v := best[n] + [v]] else best
    ensures Covers(best', depth', u, w)
  {
    if w == v && depth[w] == depth[u] + 1 && best' != best {
      LexTrans(best'[w], best[w], best[u] + [w]);
    }
  }

  lemma OfferCovers(best: Best, depth: Depth, best': Best, depth': Depth, n: Key, v: Key)
    requires best.Keys == depth.Keys && n in best
    requires v in depth ==> depth[v] <= depth[n] + 1
    requires depth' == if v in depth then depth else depth[v := depth[n] + 1]
    requires best' == if v !in depth || (depth[v] == depth[n] + 1 && LexLess(best[n] + [v], best[v])) then best[v := best[n] + [v]] else best
    ensures Covers(best', depth', n, v)
  {
    if v in depth {
      LexTotal(best[n] + [v], best[v]);
    }
  }

  /** A set of records closed under links, holding the source, holds all it reaches. */
  lemma {:induction false} ClosedReach(links: set<Pair>, source: Key, best: Best, depth: Depth, popped: set<Key>, p: seq<Key>, w: Key)
    requires source in popped && Scanned(links, best, depth, popped) && best.Keys == popped
    requires IsPath(links, p, source, w)
    ensures w in popped
    decreases |p|
  {
    if |p| > 1 {
      PathInit(links, p, source, w);
      ClosedReach(links, source, best, depth, popped, p[..|p| - 1], p[|p| - 2]);
      assert Covers(best, depth, p[|p| - 2], w);
    }
  }

  // ---- the search -----------------------------------------------------------

  /** Undirected neighbour lists, each ascending. */
  function Adjacency(edges: seq<Edge>): (graph: map<Key, seq<Key>>)
    ensures graph.Keys == Endpoints(Links(edges))
    ensures forall x, y :: x in graph ==> (y in graph[x] <==> Adjacent(Links(edges), x, y))
    ensures forall x, y :: Adjacent(Links(edges), x, y) ==> x in graph
  {
    var links := Links(edges);
    assert forall x, y :: Adjacent(links, x, y) ==> x in Endpoints(links) && y in Endpoints(links) by {
      forall x, y | Adjacent(links, x, y)
        ensures x in Endpoints(links) && y in Endpoints(links)
      {
        assert x == (x, y).0 && y == (x, y).1 && x == (y, x).1 && y == (y, x).0;
      }
    }
    map x | x in Endpoints(links) :: Sorted(set y | y in Endpoints(links) && Adjacent(links, x, y))
  }

  /** Everything the outer loop keeps. */
  ghost predicate Searching(links: set<Pair>, source: Key, best: Best, depth: Depth, frontier: seq<Key>, popped: set<Key>, d: nat) {
    && Reached(links, source, best, depth)
    && Queued(depth, frontier, popped, d)
    && Scanned(links, best, depth, popped)
    && Final(links, source, best, popped)
  }

  /** The same while the neighbours of n, just taken from the queue, are scanned. */
  ghost predicate Expanding(links: set<Pair>, source: Key, best: Best, depth: Depth, frontier: seq<Key>, popped: set<Key>, n: Key) {
    && Reached(links, source, best, depth)
    && n in depth && Queued(depth, frontier, popped + {n}, depth[n])
    && Scanned(links, best, depth, popped)
    && Final(links, source, best, popped + {n})
  }

  lemma StartScan(links: set<Pair>, source: Key, best: Best, depth: Depth, frontier: seq<Key>, popped: set<Key>, d: nat)
    requires |frontier| > 0 && Searching(links, source, best, depth, frontier, popped, d)
    ensures frontier[0] in depth && frontier[0] !in popped
    ensures Expanding(links, source, best, depth, frontier[1..], popped, frontier[0])
  {
    var n := frontier[0];
    assert n in frontier;
    HeadOptimal(links, source, best, depth, popped, n);
    assert forall v :: v in frontier <==> v == n || v in frontier[1..];
  }

  predicate Better(best: Best, depth: Depth, n: Key, v: Key)
    requires best.Keys == depth.Keys && n in best
  {
    v !in depth || (depth[v] == depth[n] + 1 && LexLess(best[n] + [v], best[v]))
  }

  function OfferBest(best: Best, depth: Depth, n: Key, v: Key): Best
    requires best.Keys == depth.Keys && n in best
  {
    if Better(best, depth, n, v) then best[v := best[n] + [v]] else best
  }

  function OfferDepth(depth: Depth, n: Key, v: Key): Depth
    requires n in depth
  {
    if v in depth then depth else depth[v := depth[n] + 1]
  }

  lemma OfferReached(links: set<Pair>, source: Key, best: Best, depth: Depth, n: Key, v: Key)
    requires Reached(links, source, best, depth) && n in depth && Adjacent(links, n, v)
    ensures Reached(links, source, OfferBest(best, depth, n, v), OfferDepth(depth, n, v))
  {
  }

  lemma OfferQueued(depth: Depth, frontier: seq<Key>, popped: set<Key>, n: Key, v: Key)
    requires n in depth && Queued(depth, frontier, popped, depth[n])
    ensures Queued(OfferDepth(depth, n, v), if v in depth then frontier else frontier + [v], popped, depth[n])
  {
  }

  lemma OfferStep(links: set<Pair>, source: Key, best: Best, depth: Depth, frontier: seq<Key>, popped: set<Key>, n: Key, v: Key)
    requires Expanding(links, source, best, depth, frontier, popped, n) && Adjacent(links, n, v)
    ensures Expanding(links, source, OfferBest(best, depth, n, v), OfferDepth(depth, n, v), if v in depth then frontier else frontier + [v], popped, n)
    ensures Covers(OfferBest(best, depth, n, v), OfferDepth(depth, n, v), n, v)
  {
    var best', depth' := OfferBest(best, depth, n, v), OfferDepth(depth, n, v);
    OfferReached(links, source, best, depth, n, v);
    OfferQueued(depth, frontier, popped + {n}, n, v);
    OfferCovers(best, depth, best', depth', n, v);
    forall u, w | u in popped && Adjacent(links, u, w)
      ensures Covers(best', depth', u, w)
    {
      assert u in popped + {n} && Covers(best, depth, u, w);
      OfferKeepsCovers(best, depth, best', depth', n, v, u, w);
    }
    forall u | u in popped + {n}
      ensures u in best' && best'[u] == best[u]
    {
    }
  }

  ghost predicate CoversAll(best: Best, depth: Depth, n: Key, vs: seq<Key>) {
    forall i :: 0 <= i < |vs| ==> Covers(best, depth, n, vs[i])
  }

  datatype Search = Search(best: Best, depth: Depth, frontier: seq<Key>)

  function OfferOne(n: Key, v: Key, s: Search): (r: Search)
    requires s.best.Keys == s.depth.Keys && n in s.best
    ensures r.best.Keys == r.depth.Keys && n in r.best && r.depth[n] == s.depth[n]
  {
    Search(OfferBest(s.best, s.depth, n, v), OfferDepth(s.depth, n, v), if v in s.depth then s.frontier else s.frontier + [v])
  }

  /** What scanning some neighbours of n, in order, leaves. */
  function OfferAll(n: Key, vs: seq<Key>, s: Search): (r: Search)
    requires s.best.Keys == s.depth.Keys && n in s.best
    ensures r.best.Keys == r.depth.Keys && n in r.best && r.depth[n] == s.depth[n]
  {
    if vs == [] then s else
      OfferOne(n, vs[|vs| - 1], OfferAll(n, vs[..|vs| - 1], s))
  }

  /** What is kept while some neighbours vs of n have been scanned. */
  ghost predicate ScannedTo(links: set<Pair>, source: Key, s: Search, popped: set<Key>, n: Key, vs: seq<Key>) {
    Expanding(links, source, s.best, s.depth, s.frontier, popped, n) && CoversAll(s.best, s.depth, n, vs)
  }

  lemma OfferNext(links: set<Pair>, source: Key, s: Search, popped: set<Key>, n: Key, vs: seq<Key>, v: Key)
    requires ScannedTo(links, source, s, popped, n, vs) && Adjacent(links, n, v)
    ensures ScannedTo(links, source, OfferOne(n, v, s), popped, n, vs + [v])
  {
    OfferStep(links, source, s.best, s.depth, s.frontier, popped, n, v);
    CoversMore(s, n, vs, v);
  }

  lemma CoversMore(s: Search, n: Key, vs: seq<Key>, v: Key)
    requires s.best.Keys == s.depth.Keys && n in s.best && CoversAll(s.best, s.depth, n, vs)
    requires Covers(OfferOne(n, v, s).best, OfferOne(n, v, s).depth, n, v)
    ensures CoversAll(OfferOne(n, v, s).best, OfferOne(n, v, s).depth, n, vs + [v])
  {
  }

  lemma FinishScan(links: set<Pair>, source: Key, best: Best, depth: Depth, frontier: seq<Key>, popped: set<Key>, n: Key, neighbours: seq<Key>)
    requires Expanding(links, source, best, depth, frontier, popped, n)
    requires CoversAll(best, depth, n, neighbours)
    requires forall y :: Adjacent(links, n, y) ==> y in neighbours
    ensures Searching(links, source, best, depth, frontier, popped + {n}, depth[n])
  {
  }

  /** Scan the neighbours of n, the record just taken from the queue. */
  method Expand(ghost links: set<Pair>, ghost source: Key, n: Key, neighbours: seq<Key>, best0: Best, depth0: Depth, frontier0: seq<Key>, ghost popped: set<Key>)
    returns (best: Best, depth: Depth, frontier: seq<Key>)
    requires Expanding(links, source, best0, depth0, frontier0, popped, n)
    requires forall y :: y in neighbours <==> Adjacent(links, n, y)
    ensures Searching(links, source, best, depth, frontier, popped + {n}, depth0[n])
  {
    best, depth, frontier := OfferEach(n, neighbours, best0, depth0, frontier0);
    Expanded(links, source, n, neighbours, Search(best0, depth0, frontier0), popped);
    FinishScan(links, source, best, depth, frontier, popped, n, neighbours);
  }

  lemma {:induction false} Expanded(links: set<Pair>, source: Key, n: Key, vs: seq<Key>, s: Search, popped: set<Key>)
    requires Expanding(links, source, s.best, s.depth, s.frontier, popped, n)
    requires forall v :: v in vs ==> Adjacent(links, n, v)
    ensures ScannedTo(links, source, OfferAll(n, vs, s), popped, n, vs)
    decreases |vs|
  {
    if vs != [] {
      var init, v := vs[..|vs| - 1], vs[|vs| - 1];
      UnfoldLast(vs);
      Expanded(links, source, n, init, s, popped);
      OfferNext(links, source, OfferAll(n, init, s), popped, n, init, v);
    }
  }

  method OfferEach(n: Key, neighbours: seq<Key>, best0: Best, depth0: Depth, frontier0: seq<Key>) returns (best: Best, depth: Depth, frontier: seq<Key>)
    requires best0.Keys == depth0.Keys && n in best0
    ensures Search(best, depth, frontier) == OfferAll(n, neighbours, Search(best0, depth0, frontier0))
  {
    best, depth, frontier := best0, depth0, frontier0;
    for k := 0 to |neighbours|
      invariant best.Keys == depth.Keys && n in best
      invariant Search(best, depth, frontier) == OfferAll(n, neighbours[..k], Search(best0, depth0, frontier0))
    {
      best, depth, frontier := Offer(best, depth, frontier, n, neighbours[k]);
      assert neighbours[..k + 1][..k] == neighbours[..k];
    }
    assert neighbours[..|neighbours|] == neighbours;
  }

  /** One candidate: taken when v is new, or smaller at the same depth. */
  method Offer(best0: Best, depth0: Depth, frontier0: seq<Key>, n: Key, v: Key) returns (best: Best, depth: Depth, frontier: seq<Key>)
    requires best0.Keys == depth0.Keys && n in best0
    ensures best == OfferBest(best0, depth0, n, v) && depth == OfferDepth(depth0, n, v)
    ensures frontier == if v in depth0 then frontier0 else frontier0 + [v]
  {
    best, depth, frontier := best0, depth0, frontier0;
    var candidate := best[n] + [v];
    if v !in depth {
      best, depth, frontier := best[v := candidate], depth[v := depth[n] + 1], frontier + [v];
    } else if depth[v] == depth[n] + 1 && LexLess(candidate, best[v]) {
      best := best[v := candidate];
    }
  }

  lemma NoEndpoint(links: set<Pair>, x: Key, y: Key)
    requires x != y && (x !in Endpoints(links) || y !in Endpoints(links))
    ensures !Connected(links, x, y)
  {
    if Connected(links, x, y) {
      var p :| IsPath(links, p, x, y);
      PathEndpoint(links, p, x, y);
    }
  }

  /** Every record given a path is an endpoint, the source being one. */
  lemma VisitedListed(links: set<Pair>, source: Key, best: Best, depth: Depth, listed: set<Key>)
    requires Reached(links, source, best, depth) && source in listed && listed == Endpoints(links)
    ensures forall v :: v in depth ==> v in listed
  {
    forall v | v in depth
      ensures v in listed
    {
      if v != source {
        PathEndpoint(links, best[v], source, v);
      }
    }
  }

  /** When the queue is empty the records given a path are those reachable. */
  lemma AllPopped(links: set<Pair>, source: Key, best: Best, depth: Depth, popped: set<Key>, d: nat, target: Key)
    requires Searching(links, source, best, depth, [], popped, d)
    ensures target in best <==> Connected(links, source, target)
    ensures target in best ==> Optimal(links, source, target, best[target])
  {
    assert forall v :: v in best.Keys <==> v in popped;
    if Connected(links, source, target) {
      var p :| IsPath(links, p, source, target);
      ClosedReach(links, source, best, depth, popped, p, target);
    }
  }

  lemma StayOptimal(links: set<Pair>, x: Key)
    ensures Connected(links, x, x) && Optimal(links, x, x, [x])
  {
    ConnectedSelf(links, x);
    assert forall q :: IsPath(links, q, x, x) && |q| == 1 ==> q == [x];
  }

  lemma StartSearch(links: set<Pair>, source: Key)
    ensures Searching(links, source, map[source := [source]], map[source := 0], [source], {}, 0)
  {
  }

  /** Some least path when the two records are connected, none otherwise. */
  method FindPath(source: Key, target: Key, edges: seq<Edge>) returns (path: Option<seq<Key>>)
    ensures path.None? <==> !Connected(Links(edges), source, target)
    ensures path.Some? ==> Optimal(Links(edges), source, target, path.value)
  {
    ghost var links := Links(edges);
    if source == target {
      StayOptimal(links, source);
      return Some([source]);
    }
    var graph := Adjacency(edges);
    if source !in graph || target !in graph {
      NoEndpoint(links, source, target);
      return None;
    }
    var best: Best, depth: Depth := map[source := [source]], map[source := 0];
    var frontier := [source];
    ghost var popped, d: nat := {}, 0;
    StartSearch(links, source);
    while frontier != []
      invariant Searching(links, source, best, depth, frontier, popped, d)
      invariant forall v :: v in depth ==> v in graph
      decreases graph.Keys - popped
    {
      StartScan(links, source, best, depth, frontier, popped, d);
      var node := frontier[0];
      d := depth[node];
      best, depth, frontier := Expand(links, source, node, graph[node], best, depth, frontier[1..], popped);
      popped := popped + {node};
      VisitedListed(links, source, best, depth, graph.Keys);
    }
    AllPopped(links, source, best, depth, popped, d, target);
    path := if target in best then Some(best[target]) else None;
  }
}
