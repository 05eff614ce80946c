/** The threshold editor: scored pairs counted into buckets of 0.02 from 0.50 up,
    and split by the two thresholds. */
module Histogram {
  const BUCKETS := 25

  function Count(ps: seq<real>, f: real -> bool): nat {
    if ps == [] then 0 else Count(ps[..|ps| - 1], f) + if f(ps[|ps| - 1]) then 1 else 0
  }

  /** How a product is rounded: in order, and never an integer to anything else. The
      difference from one half and its doubling are exact. */
  ghost predicate Rounds(round: real -> real) {
    && (forall x, y :: x <= y ==> round(x) <= round(y))
    && (forall x: real :: x == x.Floor as real ==> round(x) == x)
  }

  /** No rounding at all. */
  function Exact(): real -> real {
    x => x
  }

  /** Where a value lies, in bucket widths above one half. */
  function Place(p: real): real {
    (p - 0.5) / 0.5 * BUCKETS as real
  }

  /** The bucket of a value at or above one half. */
  function Index(round: real -> real, p: real): int {
    var i := round(Place(p)).Floor;
    if i < BUCKETS - 1 then i else BUCKETS - 1
  }

  function Lower(k: int): real {
    0.5 + k as real * 0.02
  }

  /** Without rounding, bucket k holds its half-open interval; the last also takes 1. */
  lemma IndexMeaning(p: real, k: int)
    requires 0.5 <= p <= 1.0 && 0 <= k < BUCKETS
    ensures Index(Exact(), p) == k <==> Lower(k) <= p && (p < Lower(k + 1) || k == BUCKETS - 1)
  {
  }

  /** With any rounding, a value is in the bucket it lies in, or in the next one up if its
      place is rounded to the boundary between them; never outside the buckets. */
  lemma RoundedIndex(round: real -> real, p: real)
    requires Rounds(round) && 0.5 <= p <= 1.0
    ensures 0 <= Index(round, p) < BUCKETS
    ensures var k := Index(Exact(), p);
      Index(round, p) == if k < BUCKETS - 1 && round(Place(p)) == (k + 1) as real then k + 1 else k
  {
    var x := Place(p);
    var k := x.Floor;
    assert 0.0 <= x <= BUCKETS as real;
    assert round(k as real) <= round(x) <= round((k + 1) as real);
    assert round(k as real) == k as real && round((k + 1) as real) == (k + 1) as real;
  }

  function Falls(round: real -> real, k: int): real -> bool {
    (p: real) => p >= 0.5 && Index(round, p) == k
  }

  function High(): real -> bool {
    (p: real) => p >= 0.5
  }

  predicate Probabilities(ps: seq<real>) {
    forall i :: 0 <= i < |ps| ==> 0.0 <= ps[i] <= 1.0
  }

  method Buckets(round: real -> real, ps: seq<real>) returns (counts: array<nat>)
    requires Rounds(round) && Probabilities(ps)
    ensures counts.Length == BUCKETS
    ensures forall k :: 0 <= k < BUCKETS ==> counts[k] == Count(ps, Falls(round, k))
  {
    counts := new nat[BUCKETS](_ => 0);
    for n := 0 to |ps|
      invariant counts.Length == BUCKETS
      invariant forall k :: 0 <= k < BUCKETS ==> counts[k] == Count(ps[..n], Falls(round, k))
    {
      var p := ps[n];
      forall k | 0 <= k < BUCKETS
        ensures Count(ps[..n + 1], Falls(round, k)) == Count(ps[..n], Falls(round, k)) + if p >= 0.5 && Index(round, p) == k then 1 else 0
      {
        assert ps[..n + 1][..n] == ps[..n];
      }
      if p < 0.5 {
        continue;
      }
      RoundedIndex(round, p);
      counts[Index(round, p)] := counts[Index(round, p)] + 1;
    }
    assert ps[..|ps|] == ps;
  }

  // ---- conservation --------------------------------------------------------------------

  /** The first n buckets together. */
  function Total(round: real -> real, ps: seq<real>, n: nat): nat {
    if n == 0 then 0 else Total(round, ps, n - 1) + Count(ps, Falls(round, n - 1))
  }

  lemma {:induction false} TotalSnoc(round: real -> real, ps: seq<real>, n: nat)
    requires ps != []
    ensures var p := ps[|ps| - 1];
      Total(round, ps, n) == Total(round, ps[..|ps| - 1], n) + if p >= 0.5 && 0 <= Index(round, p) < n then 1 else 0
    decreases n
  {
    if n > 0 {
      TotalSnoc(round, ps, n - 1);
    }
  }

  lemma {:induction false} TotalNone(round: real -> real, n: nat)
    ensures Total(round, [], n) == 0
  {
    if n > 0 {
      TotalNone(round, n - 1);
    }
  }

  /** Nothing at or above one half is lost or counted twice, however it is rounded. */
  lemma {:induction false} BucketsConserve(round: real -> real, ps: seq<real>)
    requires Rounds(round) && Probabilities(ps)
    ensures Total(round, ps, BUCKETS) == Count(ps, High())
  {
    if ps == [] {
      TotalNone(round, BUCKETS);
    } else {
      BucketsConserve(round, ps[..|ps| - 1]);
      TotalSnoc(round, ps, BUCKETS);
      if ps[|ps| - 1] >= 0.5 {
        RoundedIndex(round, ps[|ps| - 1]);
      }
    }
  }

  lemma {:induction false} CountWithout(ps: seq<real>, k: nat, f: real -> bool)
    requires k < |ps|
    ensures Count(ps, f) == Count(ps[..k] + ps[k + 1..], f) + if f(ps[k]) then 1 else 0
    decreases |ps|
  {
    var last, rest := |ps| - 1, ps[..k] + ps[k + 1..];
    if k < last {
      CountWithout(ps[..last], k, f);
      assert rest[..|rest| - 1] == ps[..last][..k] + ps[..last][k + 1..];
      assert rest[|rest| - 1] == ps[last];
    } else {
      assert rest == ps[..last];
    }
  }

  /** Counts do not depend on the order of the values. */
  lemma {:induction false} CountPermutes(ps: seq<real>, qs: seq<real>, f: real -> bool)
    requires multiset(ps) == multiset(qs)
    ensures Count(ps, f) == Count(qs, f)
    decreases |ps|
  {
    assert |ps| == |multiset(ps)| == |multiset(qs)| == |qs|;
    if ps != [] {
      var p, init := ps[|ps| - 1], ps[..|ps| - 1];
      assert ps == init + [p];
      assert p in multiset(qs);
      var k :| 0 <= k < |qs| && qs[k] == p;
      var rest := qs[..k] + qs[k + 1..];
      assert qs == qs[..k] + [p] + qs[k + 1..];
      assert multiset(qs) == multiset(rest) + multiset{p} by {
        assert multiset(qs[..k] + [p] + qs[k + 1..]) == multiset(qs[..k]) + multiset{p} + multiset(qs[k + 1..]);
        assert multiset(rest) == multiset(qs[..k]) + multiset(qs[k + 1..]);
      }
      assert multiset(init) == multiset(ps) - multiset{p};
      assert multiset(rest) == multiset(qs) - multiset{p};
      CountPermutes(init, rest, f);
      CountWithout(qs, k, f);
    }
  }

  // ---- the bands -----------------------------------------------------------------------------

  datatype Thresholds = Thresholds(reviewLow: real, autoMerge: real)

  function Below(t: Thresholds): real -> bool {
    (p: real) => p < t.reviewLow
  }

  function InBand(t: Thresholds): real -> bool {
    (p: real) => p >= t.reviewLow && p < t.autoMerge
  }

  function Above(t: Thresholds): real -> bool {
    (p: real) => p >= t.autoMerge
  }

  /** The three bands split every list exactly when the thresholds are in order. */
  lemma {:induction false} BandsPartition(ps: seq<real>, t: Thresholds)
    requires t.reviewLow <= t.autoMerge
    ensures Count(ps, Below(t)) + Count(ps, InBand(t)) + Count(ps, Above(t)) == |ps|
  {
    if ps != [] {
      BandsPartition(ps[..|ps| - 1], t);
    }
  }

  /** Out of order they do not: a value between the two is counted twice. */
  lemma BandsOverlap(t: Thresholds)
    requires t.autoMerge < t.reviewLow
    ensures var ps := [t.autoMerge]; Count(ps, Below(t)) + Count(ps, InBand(t)) + Count(ps, Above(t)) == 2
  {
  }

  /** What the two sliders can set, each bounded by the other. */
  predicate Slider(t: Thresholds, next: Thresholds) {
    || (next.autoMerge == t.autoMerge && 0.5 <= next.reviewLow <= t.autoMerge - 0.01)
    || (next.reviewLow == t.reviewLow && t.reviewLow + 0.01 <= next.autoMerge <= 0.99)
  }

  ghost predicate Slides(ts: seq<Thresholds>) {
    forall i :: 0 < i < |ts| ==> Slider(ts[i - 1], ts[i])
  }

  /** Over every run of slider moves the thresholds stay in order. */
  lemma {:induction false} SlidersKeepOrder(ts: seq<Thresholds>, i: nat)
    requires i < |ts| && Slides(ts) && ts[0].reviewLow < ts[0].autoMerge
    ensures ts[i].reviewLow < ts[i].autoMerge
  {
    if i > 0 {
      SlidersKeepOrder(ts, i - 1);
      assert Slider(ts[i - 1], ts[i]);
    }
  }
}
