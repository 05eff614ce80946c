/** Record keys, pairs of them, and what it means for two records to be linked.
    Keys are only ever compared, so a key is represented by its place in the
    total order of key strings. */
module RecordGraph {
  type Key = int
  type Pair = (Key, Key)

  /** One scored link between two records. */
  datatype Edge = Edge(a: Key, b: Key, p: real)

  function Links(edges: seq<Edge>): set<Pair> {
    set e | e in edges :: (e.a, e.b)
  }

  predicate Adjacent(links: set<Pair>, x: Key, y: Key) {
    (x, y) in links || (y, x) in links
  }

  /** A walk along links from x to y, named by its vertices. */
  predicate IsPath(links: set<Pair>, p: seq<Key>, x: Key, y: Key) {
    && |p| > 0 && p[0] == x && p[|p| - 1] == y
    && forall i :: 0 < i < |p| ==> Adjacent(links, p[i - 1], p[i])
  }

  ghost predicate Connected(links: set<Pair>, x: Key, y: Key) {
    exists p :: IsPath(links, p, x, y)
  }

  function Canon(x: Key, y: Key): Pair {
    if x < y then (x, y) else (y, x)
  }

  function Endpoints(links: set<Pair>): set<Key> {
    (set e | e in links :: e.0) + (set e | e in links :: e.1)
  }

  lemma ConnectedSelf(links: set<Pair>, x: Key)
    ensures Connected(links, x, x)
  {
    assert IsPath(links, [x], x, x);
  }

  lemma ConnectedStep(links: set<Pair>, x: Key, y: Key)
    requires Adjacent(links, x, y)
    ensures Connected(links, x, y)
  {
    assert IsPath(links, [x, y], x, y);
  }

  lemma ConnectedTrans(links: set<Pair>, x: Key, y: Key, z: Key)
    requires Connected(links, x, y) && Connected(links, y, z)
    ensures Connected(links, x, z)
  {
    var p :| IsPath(links, p, x, y);
    var q :| IsPath(links, q, y, z);
    assert IsPath(links, p + q[1..], x, z);
  }

  lemma ConnectedSym(links: set<Pair>, x: Key, y: Key)
    requires Connected(links, x, y)
    ensures Connected(links, y, x)
  {
    var p :| IsPath(links, p, x, y);
    var r := seq(|p|, i requires 0 <= i < |p| => p[|p| - 1 - i]);
    forall i | 0 < i < |r|
      ensures Adjacent(links, r[i - 1], r[i])
    {
      assert r[i - 1] == p[|p| - i] && r[i] == p[|p| - i - 1];
    }
    assert IsPath(links, r, y, x);
  }

  lemma ConnectedMono(links: set<Pair>, more: set<Pair>, x: Key, y: Key)
    requires links <= more
    requires Connected(links, x, y)
    ensures Connected(more, x, y)
  {
    var p :| IsPath(links, p, x, y);
    assert IsPath(more, p, x, y);
  }

  /** Dropping the last vertex of a path leaves a path to its neighbour. */
  lemma PathInit(links: set<Pair>, p: seq<Key>, x: Key, y: Key)
    requires IsPath(links, p, x, y) && |p| > 1
    ensures IsPath(links, p[..|p| - 1], x, p[|p| - 2])
    ensures Adjacent(links, p[|p| - 2], y)
  {
  }

  /** A labelling that no link changes is constant along every path. */
  lemma {:induction false} LabelAlongPath(links: set<Pair>, tag: map<Key, Key>, p: seq<Key>, x: Key, y: Key)
    requires Endpoints(links) <= tag.Keys && x in tag
    requires forall e :: e in links ==> tag[e.0] == tag[e.1]
    requires IsPath(links, p, x, y)
    ensures y in tag && tag[x] == tag[y]
    decreases |p|
  {
    if |p| > 1 {
      PathInit(links, p, x, y);
      var u := p[|p| - 2];
      LabelAlongPath(links, tag, p[..|p| - 1], x, u);
      if (u, y) in links {
        assert tag[(u, y).0] == tag[(u, y).1];
      } else {
        assert tag[(y, u).0] == tag[(y, u).1];
      }
    }
  }

  /** A vertex that differs from the start of a path is the endpoint of a link. */
  lemma PathEndpoint(links: set<Pair>, p: seq<Key>, x: Key, y: Key)
    requires IsPath(links, p, x, y) && x != y
    ensures x in Endpoints(links) && y in Endpoints(links)
  {
    PathInit(links, p, x, y);
    assert Adjacent(links, p[0], p[1]);
    var u, v := p[1], p[|p| - 2];
    assert x == (x, u).0 && x == (u, x).1 && y == (v, y).1 && y == (y, v).0;
  }

  // ---- ascending listings of finite key sets ------------------------------

  ghost predicate Ascending(s: seq<Key>) {
    forall i, j :: 0 <= i < j < |s| ==> s[i] < s[j]
  }

  lemma Member<T>(s: set<T>) returns (x: T)
    requires s != {}
    ensures x in s
  {
    x :| x in s;
  }

  lemma NonEmpty<T>(s: set<T>, x: T)
    requires x in s
    ensures s != {}
  {
  }

  lemma SameMembers<T>(s: set<T>, s': set<T>)
    requires forall x :: x in s <==> x in s'
    ensures s == s'
  {
  }

  lemma MapsAgree(m: map<int, int>, m': map<int, int>)
    requires forall k :: k in m ==> k in m' && m[k] == m'[k]
    requires forall k :: k in m' ==> k in m && m[k] == m'[k]
    ensures m == m'
  {
    forall k | k in m
      ensures k in m' && m[k] == m'[k]
    {
    }
    forall k | k in m'
      ensures k in m && m[k] == m'[k]
    {
    }
  }

  lemma {:induction false} Fits<T>(a: set<T>, b: set<T>)
    requires a <= b
    ensures |a| <= |b|
    ensures a != b ==> |a| < |b|
  {
    assert b == a + (b - a);
    assert a != b ==> b - a != {};
  }

  lemma {:induction false} MinExists(s: set<Key>) returns (least: Key)
    requires s != {}
    ensures least in s && forall x :: x in s ==> least <= x
    decreases |s|
  {
    least := Member(s);
    var smaller := set y | y in s && y < least;
    forall x | x in s && x < least
      ensures x in smaller
    {
    }
    if smaller != {} {
      assert least !in smaller;
      Fits(smaller, s);
      least := MinExists(smaller);
    }
  }

  lemma HasMin(s: set<Key>)
    requires s != {}
    ensures exists m :: m in s && forall x :: x in s ==> m <= x
  {
    var least := MinExists(s);
  }

  /** The least key of a non-empty set. */
  function Min(s: set<Key>): (m: Key)
    requires s != {}
    ensures m in s && forall x :: x in s ==> m <= x
  {
    HasMin(s);
    var m :| m in s && forall x :: x in s ==> m <= x;
    m
  }

  /** Sort and de-duplicate: the members of a set in ascending order. */
  function Sorted(s: set<Key>): (r: seq<Key>)
    ensures Ascending(r)
    ensures forall x :: x in r <==> x in s
    ensures |r| == |s|
  {
    if s == {} then [] else
      var m := Min(s);
      var rest := Sorted(s - {m});
      assert forall i :: 0 <= i < |rest| ==> rest[i] in rest;
      [m] + rest
  }

  /** The position of every key of an ascending list. */
  function IndexOf(ids: seq<Key>): (index: map<Key, nat>)
    requires Ascending(ids)
    ensures forall x :: x in index <==> x in ids
    ensures forall x :: x in index ==> index[x] < |ids| && ids[index[x]] == x
  {
    map i | 0 <= i < |ids| :: ids[i] := i
  }
}
