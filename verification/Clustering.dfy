/** Clustering: a union-find over record indices labels every record with the
    least key of its connected component. */
module Clustering {
  import opened RecordGraph

  /** Parent pointers that lead every index to the representative `root` gives
      it; `rank` grows strictly along them and never passes `top`. */
  ghost predicate Forest(parent: seq<nat>, root: seq<nat>, rank: seq<nat>, top: nat) {
    && |root| == |rank| == |parent|
    && (forall i :: 0 <= i < |parent| ==> Settled(parent, root, rank, top, i))
  }

  ghost predicate Settled(parent: seq<nat>, root: seq<nat>, rank: seq<nat>, top: nat, i: nat)
    requires |root| == |rank| == |parent| && i < |parent|
  {
    && parent[i] < |parent| && root[i] < |parent|
    && root[parent[i]] == root[i] && root[root[i]] == root[i]
    && (parent[i] == i <==> root[i] == i)
    && rank[i] <= top
    && (parent[i] != i ==> rank[i] < rank[parent[i]])
  }

  /** Path halving moves no index to another set. */
  lemma Halve(parent: seq<nat>, root: seq<nat>, rank: seq<nat>, top: nat, x: nat)
    requires Forest(parent, root, rank, top) && x < |parent| && parent[x] != x
    ensures parent[x] < |parent| && parent[parent[x]] < |parent|
    ensures Forest(parent[x := parent[parent[x]]], root, rank, top)
    ensures rank[x] < rank[parent[parent[x]]] <= top && root[parent[parent[x]]] == root[x]
  {
    var p := parent[x];
    assert Settled(parent, root, rank, top, x) && Settled(parent, root, rank, top, p);
    assert Settled(parent, root, rank, top, parent[p]);
    var halved := parent[x := parent[p]];
    forall i | 0 <= i < |parent|
      ensures Settled(halved, root, rank, top, i)
    {
      assert Settled(parent, root, rank, top, i);
    }
  }

  function Redirect(root: seq<nat>, ra: nat, rb: nat): seq<nat> {
    seq(|root|, i requires 0 <= i < |root| => if root[i] == ra then rb else root[i])
  }

  /** Hanging one root under another merges exactly the two sets. */
  lemma Hang(parent: seq<nat>, root: seq<nat>, rank: seq<nat>, top: nat, ra: nat, rb: nat) returns (rank': seq<nat>, top': nat)
    requires Forest(parent, root, rank, top) && ra < |parent| && rb < |parent| && ra != rb
    requires root[ra] == ra && root[rb] == rb
    ensures Forest(parent[ra := rb], Redirect(root, ra, rb), rank', top')
  {
    var bumped := if rank[rb] <= rank[ra] then rank[ra] + 1 else rank[rb];
    rank', top' := rank[rb := bumped], if top < bumped then bumped else top;
    var root' := Redirect(root, ra, rb);
    var hung := parent[ra := rb];
    assert Settled(parent, root, rank, top, ra) && Settled(parent, root, rank, top, rb);
    forall i | 0 <= i < |parent|
      ensures Settled(hung, root', rank', top', i)
    {
      assert Settled(parent, root, rank, top, i);
    }
  }

  /** Disjoint sets over indices, with path halving. */
  class UnionFind {
    const parent: array<nat>
    /** The representative of every index. */
    ghost var root: seq<nat>
    ghost var rank: seq<nat>
    ghost var top: nat

    ghost predicate Valid()
      reads this, parent
    {
      Forest(parent[..], root, rank, top)
    }

    constructor (n: nat)
      ensures Valid() && fresh(parent) && parent.Length == n
      ensures root == seq(n, i requires 0 <= i < n => i)
    {
      parent := new nat[n](i => i);
      root := seq(n, i requires 0 <= i < n => i);
      rank := seq(n, _ => 0);
      top := 0;
    }

    /** The representative; the walk halves the path and changes no set. */
    method Find(start: nat) returns (r: nat)
      requires Valid() && start < parent.Length
      modifies parent
      ensures Valid() && r < parent.Length && r == root[start] == root[r]
    {
      var x: nat := start;
      while parent[x] != x
        invariant Valid() && x < parent.Length && root[x] == root[start]
        decreases top - rank[x]
      {
        Halve(parent[..], root, rank, top, x);
        ghost var halved := parent[..][x := parent[..][parent[x]]];
        parent[x] := parent[parent[x]];
        assert parent[..] == halved;
        x := parent[x];
      }
      assert Settled(parent[..], root, rank, top, x);
      r := x;
    }

    /** Merges exactly the two sets named. */
    method Union(a: nat, b: nat)
      requires Valid() && a < parent.Length && b < parent.Length
      modifies this, parent
      ensures Valid()
      ensures root == Redirect(old(root), old(root[a]), old(root[b]))
    {
      var ra := Find(a);
      var rb := Find(b);
      if ra != rb {
        ghost var rank', top' := Hang(parent[..], root, rank, top, ra, rb);
        ghost var hung := parent[..][ra := rb];
        parent[ra] := rb;
        assert parent[..] == hung;
        root, rank, top := Redirect(root, ra, rb), rank', top';
      }
    }
  }

  /** A record's label is a record it is connected to. */
  ghost predicate LabelledWithin(links: set<Pair>, labels: map<Key, Key>, x: Key)
    requires x in labels
  {
    labels[x] in labels && Connected(links, x, labels[x])
  }

  /** Every record of the universe carries the least key it is connected to. */
  ghost predicate LeastLabels(links: set<Pair>, universe: set<Key>, labels: map<Key, Key>) {
    && labels.Keys == universe
    && (forall x {:trigger LabelledWithin(links, labels, x)} :: x in labels ==> LabelledWithin(links, labels, x))
    && (forall x, y :: x in labels && y in labels && Connected(links, x, y) ==> labels[x] <= y)
  }

  /** Two records share a label exactly when they are connected. */
  lemma SharedLabel(links: set<Pair>, universe: set<Key>, labels: map<Key, Key>, x: Key, y: Key)
    requires LeastLabels(links, universe, labels) && x in universe && y in universe
    ensures labels[x] == labels[y] <==> Connected(links, x, y)
  {
    assert LabelledWithin(links, labels, x) && LabelledWithin(links, labels, y);
    if labels[x] == labels[y] {
      ConnectedSym(links, y, labels[y]);
      ConnectedTrans(links, x, labels[x], y);
    }
    if Connected(links, x, y) {
      ConnectedTrans(links, x, y, labels[y]);
      ConnectedSym(links, x, y);
      ConnectedTrans(links, y, x, labels[x]);
    }
  }

  /** The labelling depends on the graph alone: not on the order of records or
      links, not on the orientation of a link. */
  lemma LabelsDetermined(links: set<Pair>, links': set<Pair>, universe: set<Key>, labels: map<Key, Key>, labels': map<Key, Key>)
    requires LeastLabels(links, universe, labels) && LeastLabels(links', universe, labels')
    requires Within(links, links') && Within(links', links)
    ensures labels == labels'
  {
    forall x | x in labels
      ensures labels[x] == labels'[x]
    {
      LabelBelow(links, links', universe, labels, labels', x);
      LabelBelow(links', links, universe, labels', labels, x);
    }
  }

  /** Every link of the first graph is a link of the second, in some orientation. */
  ghost predicate Within(links: set<Pair>, links': set<Pair>) {
    forall u, v :: Adjacent(links, u, v) ==> Adjacent(links', u, v)
  }

  lemma Reaches(links: set<Pair>, links': set<Pair>, x: Key, y: Key)
    requires Within(links, links') && Connected(links, x, y)
    ensures Connected(links', x, y)
  {
    var p :| IsPath(links, p, x, y);
    assert IsPath(links', p, x, y);
  }

  lemma LabelBelow(links: set<Pair>, links': set<Pair>, universe: set<Key>, labels: map<Key, Key>, labels': map<Key, Key>, x: Key)
    requires LeastLabels(links, universe, labels) && LeastLabels(links', universe, labels')
    requires Within(links, links') && x in universe
    ensures labels'[x] <= labels[x]
  {
    assert LabelledWithin(links, labels, x);
    Reaches(links, links', x, labels[x]);
  }

  function Universe(nodes: seq<Key>, edges: seq<Pair>): set<Key> {
    (set x | x in nodes) + Endpoints(LinkSet(edges))
  }

  function LinkSet(edges: seq<Pair>): set<Pair> {
    set e | e in edges
  }

  /** The partition held by `find` over `ids` agrees with the links seen so far. */
  ghost predicate Represents(find: seq<nat>, ids: seq<Key>, links: set<Pair>) {
    && |find| == |ids|
    && (forall i, j :: 0 <= i < |ids| && 0 <= j < |ids| && find[i] == find[j] ==> Connected(links, ids[i], ids[j]))
    && (forall i, j :: 0 <= i < |ids| && 0 <= j < |ids| && (ids[i], ids[j]) in links ==> find[i] == find[j])
  }

  /** Equal representatives and connectedness are one relation. */
  lemma RepresentsIff(find: seq<nat>, ids: seq<Key>, links: set<Pair>, i: nat, j: nat)
    requires Represents(find, ids, links) && Ascending(ids)
    requires forall x :: x in Endpoints(links) ==> x in ids
    requires i < |ids| && j < |ids|
    ensures find[i] == find[j] <==> Connected(links, ids[i], ids[j])
  {
    if Connected(links, ids[i], ids[j]) {
      var p :| IsPath(links, p, ids[i], ids[j]);
      var tag := Tags(find, ids);
      forall e | e in links
        ensures e.0 in tag && e.1 in tag && tag[e.0] == tag[e.1]
      {
        LinkTagged(find, ids, links, tag, e.0, e.1);
      }
      assert ids[i] in tag && tag[ids[i]] == find[i];
      LabelAlongPath(links, tag, p, ids[i], ids[j]);
    }
  }

  /** The representative of every record, by key. */
  function Tags(find: seq<nat>, ids: seq<Key>): (tag: map<Key, Key>)
    requires |find| == |ids| && Ascending(ids)
    ensures forall k :: 0 <= k < |ids| ==> ids[k] in tag && tag[ids[k]] == find[k]
  {
    map k | 0 <= k < |ids| :: ids[k] := find[k]
  }

  lemma LinkTagged(find: seq<nat>, ids: seq<Key>, links: set<Pair>, tag: map<Key, Key>, x: Key, y: Key)
    requires Represents(find, ids, links) && (x, y) in links
    requires forall z :: z in Endpoints(links) ==> z in ids
    requires forall k :: 0 <= k < |ids| ==> ids[k] in tag && tag[ids[k]] == find[k]
    ensures x in tag && y in tag && tag[x] == tag[y]
  {
    assert (x, y).0 in Endpoints(links) && (x, y).1 in Endpoints(links);
    var a :| 0 <= a < |ids| && ids[a] == x;
    var b :| 0 <= b < |ids| && ids[b] == y;
    assert (ids[a], ids[b]) in links;
  }

  lemma UnionRepresents(find: seq<nat>, find': seq<nat>, ids: seq<Key>, links: set<Pair>, a: nat, b: nat)
    requires Represents(find, ids, links) && Ascending(ids) && a < |ids| && b < |ids|
    requires find' == Redirect(find, find[a], find[b])
    ensures Represents(find', ids, links + {(ids[a], ids[b])})
  {
    var more := links + {(ids[a], ids[b])};
    ConnectedStep(more, ids[a], ids[b]);
    forall i, j | 0 <= i < |ids| && 0 <= j < |ids| && find'[i] == find'[j]
      ensures Connected(more, ids[i], ids[j])
    {
      var i' := if find[i] == find[a] then b else i;
      var j' := if find[j] == find[a] then b else j;
      ToTarget(find, ids, links, more, a, b, i);
      ToTarget(find, ids, links, more, a, b, j);
      assert Connected(links, ids[i'], ids[j']);
      ConnectedMono(links, more, ids[i'], ids[j']);
      ConnectedTrans(more, ids[i], ids[i'], ids[j']);
      ConnectedSym(more, ids[j], ids[j']);
      ConnectedTrans(more, ids[i], ids[j'], ids[j]);
    }
  }

  lemma UnionNext(find: seq<nat>, ids: seq<Key>, edges: seq<Pair>, n: nat, a: nat, b: nat)
    requires n < |edges| && Represents(find, ids, LinkSet(edges[..n])) && Ascending(ids)
    requires a < |ids| && b < |ids| && edges[n] == (ids[a], ids[b])
    ensures Represents(Redirect(find, find[a], find[b]), ids, LinkSet(edges[..n + 1]))
  {
    UnionRepresents(find, Redirect(find, find[a], find[b]), ids, LinkSet(edges[..n]), a, b);
    assert edges[..n + 1] == edges[..n] + [edges[n]];
    assert LinkSet(edges[..n + 1]) == LinkSet(edges[..n]) + {edges[n]};
  }

  /** An index moved by a union is linked to the set it joined. */
  lemma ToTarget(find: seq<nat>, ids: seq<Key>, links: set<Pair>, more: set<Pair>, a: nat, b: nat, i: nat)
    requires Represents(find, ids, links) && a < |ids| && b < |ids| && i < |ids|
    requires links <= more && Connected(more, ids[a], ids[b])
    ensures Connected(more, ids[i], ids[if find[i] == find[a] then b else i])
  {
    if find[i] == find[a] {
      ConnectedMono(links, more, ids[i], ids[a]);
      ConnectedTrans(more, ids[i], ids[a], ids[b]);
    } else {
      ConnectedSelf(more, ids[i]);
    }
  }

  /** The union-find loop shared by the clustering and the same-component test:
      feed every link to the structure. */
  method UnionAll(ids: seq<Key>, edges: seq<Pair>) returns (uf: UnionFind)
    requires Ascending(ids)
    requires forall e :: e in edges ==> e.0 in ids && e.1 in ids
    ensures fresh(uf) && fresh(uf.parent) && uf.Valid() && uf.parent.Length == |ids|
    ensures Represents(uf.root, ids, LinkSet(edges))
  {
    var index := IndexOf(ids);
    uf := new UnionFind(|ids|);
    SingletonsRepresent(ids, uf.root);
    assert LinkSet(edges[..0]) == {};
    for n := 0 to |edges|
      invariant fresh(uf) && fresh(uf.parent) && uf.Valid() && uf.parent.Length == |ids|
      invariant Represents(uf.root, ids, LinkSet(edges[..n]))
    {
      var (a, b) := edges[n];
      assert edges[n] in edges;
      UnionNext(uf.root, ids, edges, n, index[a], index[b]);
      uf.Union(index[a], index[b]);
    }
    assert edges[..|edges|] == edges;
  }

  lemma SingletonsRepresent(ids: seq<Key>, find: seq<nat>)
    requires Ascending(ids) && find == seq(|ids|, i requires 0 <= i < |ids| => i)
    ensures Represents(find, ids, {})
  {
    forall i | 0 <= i < |ids|
      ensures Connected({}, ids[i], ids[i])
    {
      ConnectedSelf({}, ids[i]);
    }
  }

  /** The first key met for a root is its least, since `ids` ascends. */
  ghost predicate RootsSeen(find: seq<nat>, ids: seq<Key>, rootMin: map<nat, Key>, n: nat)
    requires n <= |ids| == |find|
  {
    && (forall j :: 0 <= j < n ==> find[j] in rootMin && rootMin[find[j]] <= ids[j])
    && (forall r :: r in rootMin ==> exists j :: 0 <= j < n && find[j] == r && ids[j] == rootMin[r])
  }

  lemma RootsSeenStep(find: seq<nat>, ids: seq<Key>, rootMin: map<nat, Key>, n: nat)
    requires n < |ids| == |find| && Ascending(ids) && RootsSeen(find, ids, rootMin, n)
    ensures RootsSeen(find, ids, if find[n] in rootMin then rootMin else rootMin[find[n] := ids[n]], n + 1)
  {
  }

  method LeastPerRoot(uf: UnionFind, ids: seq<Key>) returns (rootMin: map<nat, Key>)
    requires uf.Valid() && uf.parent.Length == |ids| && Ascending(ids)
    modifies uf.parent
    ensures uf.Valid() && RootsSeen(uf.root, ids, rootMin, |ids|)
  {
    rootMin := map[];
    for i := 0 to |ids|
      invariant uf.Valid() && RootsSeen(uf.root, ids, rootMin, i)
    {
      RootsSeenStep(uf.root, ids, rootMin, i);
      var r := uf.Find(i);
      if r !in rootMin {
        rootMin := rootMin[r := ids[i]];
      }
    }
  }

  method LabelEach(uf: UnionFind, ids: seq<Key>, rootMin: map<nat, Key>) returns (labels: map<Key, Key>)
    requires uf.Valid() && uf.parent.Length == |ids| && Ascending(ids)
    requires RootsSeen(uf.root, ids, rootMin, |ids|)
    modifies uf.parent
    ensures uf.Valid()
    ensures Labelled(uf.root, ids, rootMin, labels, |ids|)
  {
    labels := map[];
    for i := 0 to |ids|
      invariant uf.Valid() && Labelled(uf.root, ids, rootMin, labels, i)
    {
      LabelStep(uf.root, ids, rootMin, labels, i);
      var r := uf.Find(i);
      labels := labels[ids[i] := rootMin[r]];
    }
  }

  /** The first n records carry the least key met for their root. */
  ghost predicate Labelled(find: seq<nat>, ids: seq<Key>, rootMin: map<nat, Key>, labels: map<Key, Key>, n: nat)
    requires n <= |ids| == |find|
  {
    && (forall x :: x in labels ==> x in ids)
    && (forall j :: 0 <= j < n ==> ids[j] in labels && find[j] in rootMin && labels[ids[j]] == rootMin[find[j]])
  }

  lemma LabelStep(find: seq<nat>, ids: seq<Key>, rootMin: map<nat, Key>, labels: map<Key, Key>, n: nat)
    requires n < |ids| == |find| && Ascending(ids) && Labelled(find, ids, rootMin, labels, n) && find[n] in rootMin
    ensures Labelled(find, ids, rootMin, labels[ids[n] := rootMin[find[n]]], n + 1)
  {
  }

  /** Label every record with the least key of its component. */
  method LabelPropagate(nodes: seq<Key>, edges: seq<Pair>) returns (labels: map<Key, Key>)
    ensures LeastLabels(LinkSet(edges), Universe(nodes, edges), labels)
  {
    var ids := Sorted(Universe(nodes, edges));
    EndpointsListed(nodes, edges);
    var uf := UnionAll(ids, edges);
    var rootMin := LeastPerRoot(uf, ids);
    labels := LabelEach(uf, ids, rootMin);
    LeastOverall(uf.root, nodes, edges, rootMin, labels);
  }

  lemma LeastOverall(find: seq<nat>, nodes: seq<Key>, edges: seq<Pair>, rootMin: map<nat, Key>, labels: map<Key, Key>)
    requires var ids := Sorted(Universe(nodes, edges));
      Represents(find, ids, LinkSet(edges)) && RootsSeen(find, ids, rootMin, |ids|) && Labelled(find, ids, rootMin, labels, |ids|)
    ensures LeastLabels(LinkSet(edges), Universe(nodes, edges), labels)
  {
    EndpointsListed(nodes, edges);
    LabelsAreLeast(find, Sorted(Universe(nodes, edges)), LinkSet(edges), Universe(nodes, edges), rootMin, labels);
  }

  lemma EndpointsListed(nodes: seq<Key>, edges: seq<Pair>)
    ensures forall e :: e in edges ==> e.0 in Universe(nodes, edges) && e.1 in Universe(nodes, edges)
    ensures Endpoints(LinkSet(edges)) <= Universe(nodes, edges)
  {
  }

  lemma LabelsAreLeast(find: seq<nat>, ids: seq<Key>, links: set<Pair>, universe: set<Key>, rootMin: map<nat, Key>, labels: map<Key, Key>)
    requires Represents(find, ids, links) && Ascending(ids)
    requires forall x :: x in Endpoints(links) ==> x in ids
    requires forall x :: x in ids <==> x in universe
    requires RootsSeen(find, ids, rootMin, |ids|) && Labelled(find, ids, rootMin, labels, |ids|)
    ensures LeastLabels(links, universe, labels)
  {
    LabelledKeys(find, ids, universe, rootMin, labels);
    forall x | x in labels
      ensures LabelledWithin(links, labels, x)
    {
      LabelReached(find, ids, links, rootMin, labels, x);
    }
    forall x, y | x in labels && y in labels && Connected(links, x, y)
      ensures labels[x] <= y
    {
      LabelBound(find, ids, links, rootMin, labels, x, y);
    }
  }

  lemma LabelledKeys(find: seq<nat>, ids: seq<Key>, universe: set<Key>, rootMin: map<nat, Key>, labels: map<Key, Key>)
    requires |find| == |ids| && Labelled(find, ids, rootMin, labels, |ids|)
    requires forall x :: x in ids <==> x in universe
    ensures labels.Keys == universe
  {
    forall x: Key
      ensures x in labels.Keys <==> x in universe
    {
      if x in universe {
        assert x in ids;
        var j :| 0 <= j < |ids| && ids[j] == x;
      }
    }
    SameMembers(labels.Keys, universe);
  }

  lemma LabelReached(find: seq<nat>, ids: seq<Key>, links: set<Pair>, rootMin: map<nat, Key>, labels: map<Key, Key>, x: Key)
    requires Represents(find, ids, links)
    requires RootsSeen(find, ids, rootMin, |ids|) && Labelled(find, ids, rootMin, labels, |ids|) && x in labels
    ensures LabelledWithin(links, labels, x)
  {
  }

  lemma LabelBound(find: seq<nat>, ids: seq<Key>, links: set<Pair>, rootMin: map<nat, Key>, labels: map<Key, Key>, x: Key, y: Key)
    requires Represents(find, ids, links) && Ascending(ids)
    requires forall z :: z in Endpoints(links) ==> z in ids
    requires RootsSeen(find, ids, rootMin, |ids|) && Labelled(find, ids, rootMin, labels, |ids|)
    requires x in labels && y in labels && Connected(links, x, y)
    ensures labels[x] <= y
  {
    var i :| 0 <= i < |ids| && ids[i] == x;
    var j :| 0 <= j < |ids| && ids[j] == y;
    RepresentsIff(find, ids, links, i, j);
  }
}
