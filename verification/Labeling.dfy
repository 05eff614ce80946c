/** Labelling one pair at a time. The client holds a page of the server's queue and
    a set of skipped pairs; the pair asked about is the first not skipped. */
module Labeling {
  import opened Wrappers
  import JsText

  type Pair = int  // a pair, by its key

  const PAGE := 25

  /** The server's queue of unlabelled pairs, the page last fetched, the skips, and
      the pairs whose verdict is under way. */
  datatype State = State(queue: seq<Pair>, items: seq<Pair>, skipped: set<Pair>, pending: multiset<Pair>)

  function Remaining(items: seq<Pair>, skipped: set<Pair>): (r: seq<Pair>)
    ensures forall p :: p in r <==> p in items && p !in skipped
    ensures |r| <= |items|
  {
    if items == [] then [] else
      var rest := Remaining(items[1..], skipped);
      if items[0] in skipped then rest else [items[0]] + rest
  }

  function NextUnskipped(items: seq<Pair>, skipped: set<Pair>): Option<Pair> {
    if items == [] then None
    else if items[0] !in skipped then Some(items[0])
    else NextUnskipped(items[1..], skipped)
  }

  /** The pair asked about is the head of what remains. */
  lemma {:induction false} CurrentIsFirst(items: seq<Pair>, skipped: set<Pair>)
    ensures NextUnskipped(items, skipped) ==
      if Remaining(items, skipped) == [] then None else Some(Remaining(items, skipped)[0])
  {
    if items != [] {
      CurrentIsFirst(items[1..], skipped);
    }
  }

  function Page(queue: seq<Pair>): seq<Pair> {
    if |queue| <= PAGE then queue else queue[..PAGE]
  }

  function Drop(queue: seq<Pair>, p: Pair): (r: seq<Pair>)
    ensures forall q :: q in r <==> q in queue && q != p
  {
    if queue == [] then [] else
      var rest := Drop(queue[1..], p);
      if queue[0] == p then rest else [queue[0]] + rest
  }

  /** What can happen: a skip, a verdict given on the pair then asked about, a verdict
      under way recorded or refused, a refetch landing, and pairs arriving anywhere
      in the server's queue. */
  datatype Step = Skip | Give | Accepted(p: Pair) | Refused(p: Pair) | Refetch | Arrive(at: nat, p: Pair)

  function Next(s: State, step: Step): State {
    var current := NextUnskipped(s.items, s.skipped);
    match step
    case Skip => if current.None? then s else s.(skipped := s.skipped + {current.value})
    case Give => if current.None? then s else s.(pending := s.pending + multiset{current.value})
    case Accepted(p) => if p !in s.pending then s else s.(queue := Drop(s.queue, p), pending := s.pending - multiset{p})
    case Refused(p) => s.(pending := s.pending - multiset{p})
    case Refetch => s.(items := Page(s.queue))
    case Arrive(at, p) => if at <= |s.queue| && p !in s.queue then s.(queue := s.queue[..at] + [p] + s.queue[at..]) else s
  }

  /** The page as the component keeps it. */
  class Labeller {
    var items: seq<Pair>
    var skipped: set<Pair>

    constructor (page: seq<Pair>)
      ensures items == page && skipped == {}
    {
      items, skipped := page, {};
    }

    method SkipCurrent()
      modifies this`skipped
      ensures var current := NextUnskipped(items, old(skipped));
        skipped == if current.Some? then old(skipped) + {current.value} else old(skipped)
    {
      var current := NextUnskipped(items, skipped);
      if current.Some? {
        skipped := skipped + {current.value};
      }
    }

    /** Give a verdict: it names the first pair of the page not skipped, if there is
        one and the role may label, and advances nothing itself. */
    method Give(canLabel: bool) returns (labelled: Option<Pair>)
      ensures labelled.Some? <==> canLabel && exists k :: 0 <= k < |items| && items[k] !in skipped
      ensures labelled.Some? ==> FirstUnskipped(items, skipped, labelled.value)
    {
      labelled := None;
      if !canLabel {
        return;
      }
      for k := 0 to |items|
        invariant labelled.None? && forall j :: 0 <= j < k ==> items[j] in skipped
      {
        if items[k] !in skipped {
          return Some(items[k]);
        }
      }
    }
  }

  /** p stands on the page, is not skipped, and everything before it is. */
  ghost predicate FirstUnskipped(items: seq<Pair>, skipped: set<Pair>, p: Pair) {
    exists k :: 0 <= k < |items| && items[k] == p && p !in skipped && forall j :: 0 <= j < k ==> items[j] in skipped
  }

  /** The search for the next pair finds exactly that one. */
  lemma {:induction false} NextIsFirst(items: seq<Pair>, skipped: set<Pair>, p: Pair)
    ensures NextUnskipped(items, skipped) == Some(p) <==> FirstUnskipped(items, skipped, p)
  {
    if items != [] {
      var rest := items[1..];
      NextIsFirst(rest, skipped, p);
      if items[0] in skipped {
        if FirstUnskipped(items, skipped, p) {
          var k :| 0 <= k < |items| && items[k] == p && p !in skipped && forall j :: 0 <= j < k ==> items[j] in skipped;
          assert rest[k - 1] == p && forall j :: 0 <= j < k - 1 ==> rest[j] == items[j + 1];
        }
        if FirstUnskipped(rest, skipped, p) {
          var k :| 0 <= k < |rest| && rest[k] == p && p !in skipped && forall j :: 0 <= j < k ==> rest[j] in skipped;
          assert items[k + 1] == p && forall j :: 0 < j < k + 1 ==> items[j] == rest[j - 1];
        }
      }
    }
  }

  // ---- no pair is stepped past ---------------------------------------------------------

  function Run(s: State, steps: seq<Step>): State
    decreases steps
  {
    if steps == [] then s else Run(Next(s, steps[0]), steps[1..])
  }

  /** A pair is within the first page of the queue. */
  ghost predicate Front(queue: seq<Pair>, p: Pair) {
    exists i :: 0 <= i < PAGE && i < |queue| && queue[i] == p
  }

  lemma {:induction false} DropFront(queue: seq<Pair>, gone: Pair, p: Pair, i: nat) returns (j: nat)
    requires i < |queue| && queue[i] == p && p != gone
    ensures j <= i && j < |Drop(queue, gone)| && Drop(queue, gone)[j] == p
  {
    if i == 0 {
      j := 0;
    } else {
      var k := DropFront(queue[1..], gone, p, i - 1);
      j := if queue[0] == gone then k else k + 1;
    }
  }

  /** A pair on the client's page, still in the server's first page. */
  ghost predicate Held(s: State, p: Pair) {
    p in s.items && (p in s.queue ==> Front(s.queue, p))
  }

  lemma HeldKept(s: State, step: Step, p: Pair)
    requires Held(s, p) && !step.Arrive?
    ensures p in Next(s, step).queue ==> Held(Next(s, step), p)
    ensures p in Next(s, step).queue ==> p in s.queue
  {
    var next := Next(s, step);
    if p in next.queue {
      var i :| 0 <= i < PAGE && i < |s.queue| && s.queue[i] == p;
      if step.Accepted? && step.p in s.pending {
        var j := DropFront(s.queue, step.p, p, i);
      }
      if step.Refetch? {
        assert Page(s.queue)[i] == p;
      }
    }
  }

  /** Over every run without arrivals, a pair that was offered and was neither
      labelled nor skipped is offered still, whatever happened around it. */
  lemma {:induction false} NeverSteppedPast(s: State, steps: seq<Step>, p: Pair)
    requires Held(s, p) && forall i :: 0 <= i < |steps| ==> !steps[i].Arrive?
    ensures var end := Run(s, steps);
      p in end.queue && p !in end.skipped ==> p in Remaining(end.items, end.skipped)
    decreases steps
  {
    if steps != [] {
      HeldKept(s, steps[0], p);
      if p in Next(s, steps[0]).queue {
        NeverSteppedPast(Next(s, steps[0]), steps[1..], p);
      } else {
        QueueShrinks(Next(s, steps[0]), steps[1..], p);
      }
    }
  }

  lemma {:induction false} QueueShrinks(s: State, steps: seq<Step>, p: Pair)
    requires p !in s.queue && forall i :: 0 <= i < |steps| ==> !steps[i].Arrive?
    ensures p !in Run(s, steps).queue
    decreases steps
  {
    if steps != [] {
      QueueShrinks(Next(s, steps[0]), steps[1..], p);
    }
  }

  /** Only what was asked is labelled: over every run, a pair that leaves the server's
      queue had its verdict given while it was the pair asked about, however many
      skips, refetches and other verdicts came before the answer. */
  lemma {:induction false} OnlyAskedLabelled(s: State, steps: seq<Step>, p: Pair)
    requires p in s.queue && p !in Run(s, steps).queue
    ensures p in s.pending || exists i: nat :: Asked(s, steps, i, p)
    decreases steps
  {
    if steps != [] {
      var next := Next(s, steps[0]);
      StepLoses(s, steps[0], p);
      if p in next.queue {
        OnlyAskedLabelled(next, steps[1..], p);
        if i: nat :| Asked(next, steps[1..], i, p) {
          AskedLater(s, steps, i, p);
        } else if p !in s.pending {
          assert steps[..0] == [];
          assert Asked(s, steps, 0, p);
        }
      }
    }
  }

  ghost function Given(s: State, step: Step, q: Pair): nat {
    if step == Give && FirstUnskipped(s.items, s.skipped, q) then 1 else 0
  }

  ghost function Answered(s: State, step: Step, q: Pair): nat {
    if (step == Accepted(q) || step == Refused(q)) && q in s.pending then 1 else 0
  }

  /** Each step touches its own part: the queue loses a pair only by an answer under way
      being recorded, and the page changes only by a refetch. */
  lemma QueueExactly(s: State, step: Step)
    ensures var t := Next(s, step);
      && (!step.Accepted? && !step.Arrive? ==> t.queue == s.queue)
      && (step.Accepted? ==> forall q :: q in t.queue <==> q in s.queue && !(q == step.p && step.p in s.pending))
      && (!step.Refetch? ==> t.items == s.items)
      && (step.Refetch? ==> t.items <= s.queue && |t.items| == (if |s.queue| < 25 then |s.queue| else 25))
  {
  }

  /** The skips only grow by the pair asked about, and a verdict under way begins with the
      pair asked about and ends exactly with its answer, recorded or refused. */
  lemma VerdictsExactly(s: State, step: Step, q: Pair)
    ensures var t := Next(s, step);
      && (q in t.skipped <==> q in s.skipped || (step == Skip && FirstUnskipped(s.items, s.skipped, q)))
      && t.pending[q] == s.pending[q] + Given(s, step, q) - Answered(s, step, q)
  {
    NextIsFirst(s.items, s.skipped, q);
  }

  lemma StepLoses(s: State, step: Step, p: Pair)
    ensures p in s.queue ==> p in Next(s, step).queue || p in s.pending
    ensures p in Next(s, step).pending ==> p in s.pending || (step == Give && NextUnskipped(s.items, s.skipped) == Some(p))
  {
  }

  lemma AskedLater(s: State, steps: seq<Step>, i: nat, p: Pair)
    requires steps != [] && Asked(Next(s, steps[0]), steps[1..], i, p)
    ensures Asked(s, steps, i + 1, p)
  {
    assert steps[..i + 1][1..] == steps[1..][..i];
  }

  /** The i-th step gives a verdict while p is the pair asked about. */
  ghost predicate Asked(s: State, steps: seq<Step>, i: nat, p: Pair) {
    && i < |steps| && steps[i] == Give
    && NextUnskipped(Run(s, steps[..i]).items, Run(s, steps[..i]).skipped) == Some(p)
  }

  /** An arrival is the one thing that can push a pair off the page: what a refetch
      offers is exactly the unskipped part of the server's first page. */
  lemma RefetchOffers(s: State, p: Pair)
    ensures p in Remaining(Next(s, Refetch).items, s.skipped) <==> Front(s.queue, p) && p !in s.skipped
  {
    if p in Page(s.queue) {
      var i :| 0 <= i < |Page(s.queue)| && Page(s.queue)[i] == p;
      assert s.queue[i] == p;
    }
    if Front(s.queue, p) {
      var i :| 0 <= i < PAGE && i < |s.queue| && s.queue[i] == p;
      assert Page(s.queue)[i] == p;
    }
  }

  // ---- progress ------------------------------------------------------------------------------

  lemma {:induction false} RemainingMono(items: seq<Pair>, skipped: set<Pair>, more: set<Pair>)
    requires skipped <= more
    ensures |Remaining(items, more)| <= |Remaining(items, skipped)|
    ensures (exists p :: p in items && p in more && p !in skipped) ==> |Remaining(items, more)| < |Remaining(items, skipped)|
  {
    if items != [] {
      RemainingMono(items[1..], skipped, more);
      assert items == [items[0]] + items[1..];
    }
  }

  /** Each skip leaves strictly fewer pairs. */
  lemma SkipShrinks(s: State)
    requires Remaining(s.items, s.skipped) != []
    ensures |Remaining(Next(s, Skip).items, Next(s, Skip).skipped)| < |Remaining(s.items, s.skipped)|
  {
    CurrentIsFirst(s.items, s.skipped);
    var current := NextUnskipped(s.items, s.skipped).value;
    assert current in Remaining(s.items, s.skipped);
    RemainingMono(s.items, s.skipped, s.skipped + {current});
  }

  lemma {:induction false} RemainingAppend(xs: seq<Pair>, ys: seq<Pair>, skipped: set<Pair>)
    ensures Remaining(xs + ys, skipped) == Remaining(xs, skipped) + Remaining(ys, skipped)
  {
    if xs == [] {
      assert xs + ys == ys;
    } else {
      RemainingAppend(xs[1..], ys, skipped);
      RemainingShift(xs[0], xs[1..], ys, skipped);
      assert xs == [xs[0]] + xs[1..];
    }
  }

  lemma RemainingShift(p: Pair, xs: seq<Pair>, ys: seq<Pair>, skipped: set<Pair>)
    requires Remaining(xs + ys, skipped) == Remaining(xs, skipped) + Remaining(ys, skipped)
    ensures Remaining([p] + xs + ys, skipped) == Remaining([p] + xs, skipped) + Remaining(ys, skipped)
  {
    RemainingFirst(xs, p, skipped);
    RemainingFirst(xs + ys, p, skipped);
    JsText.Reassociate([p], xs, ys);
    JsText.Reassociate(if p in skipped then [] else [p], Remaining(xs, skipped), Remaining(ys, skipped));
  }

  lemma RemainingFirst(xs: seq<Pair>, p: Pair, skipped: set<Pair>)
    ensures Remaining([p] + xs, skipped) == (if p in skipped then [] else [p]) + Remaining(xs, skipped)
  {
  }

  ghost predicate Distinct(queue: seq<Pair>) {
    forall i, j :: 0 <= i < j < |queue| ==> queue[i] != queue[j]
  }

  lemma {:induction false} DropAt(queue: seq<Pair>, k: nat)
    requires k < |queue| && Distinct(queue)
    ensures Drop(queue, queue[k]) == queue[..k] + queue[k + 1..]
  {
    if k == 0 {
      DropNone(queue[1..], queue[0]);
    } else {
      DropAt(queue[1..], k - 1);
      assert queue[..k] == [queue[0]] + queue[1..][..k - 1];
    }
  }

  lemma {:induction false} DropNone(queue: seq<Pair>, p: Pair)
    requires forall i :: 0 <= i < |queue| ==> queue[i] != p
    ensures Drop(queue, p) == queue
  {
    if queue != [] {
      DropNone(queue[1..], p);
    }
  }

  /** A recorded verdict followed by a refetch leaves strictly fewer pairs exactly
      when no pair moves up onto the page, or the one that does was skipped. */
  lemma VerdictShrinks(s: State)
    requires Distinct(s.queue) && s.items == Page(s.queue) && Remaining(s.items, s.skipped) != []
    ensures var asked := NextUnskipped(s.items, s.skipped);
      asked.Some? &&
      var after := Next(Next(Next(s, Give), Accepted(asked.value)), Refetch);
      |Remaining(after.items, after.skipped)| < |Remaining(s.items, s.skipped)| <==>
        |s.queue| <= PAGE || s.queue[PAGE] in s.skipped
  {
    CurrentIsFirst(s.items, s.skipped);
    var current := NextUnskipped(s.items, s.skipped).value;
    assert current in Remaining(s.items, s.skipped);
    var k :| 0 <= k < |s.items| && s.items[k] == current;
    DropAt(s.queue, k);
    OneFewer(s.items, k, s.skipped);
    PageAfter(s.queue, k);
    var kept := s.items[..k] + s.items[k + 1..];
    if |s.queue| > PAGE {
      OneMore(kept, s.queue[PAGE], s.skipped);
    }
  }

  lemma OneFewer(page: seq<Pair>, k: nat, skipped: set<Pair>)
    requires k < |page| && page[k] !in skipped
    ensures |Remaining(page, skipped)| == |Remaining(page[..k] + page[k + 1..], skipped)| + 1
  {
    var tail := [page[k]] + page[k + 1..];
    assert page == page[..k] + tail;
    assert tail[1..] == page[k + 1..];
    RemainingAppend(page[..k], tail, skipped);
    RemainingAppend(page[..k], page[k + 1..], skipped);
  }

  lemma OneMore(page: seq<Pair>, p: Pair, skipped: set<Pair>)
    ensures |Remaining(page + [p], skipped)| == |Remaining(page, skipped)| + if p in skipped then 0 else 1
  {
    RemainingAppend(page, [p], skipped);
    assert [p][1..] == [];
  }

  /** After one pair of the page leaves the queue, the next pair moves up. */
  lemma PageAfter(queue: seq<Pair>, k: nat)
    requires k < |Page(queue)|
    ensures var page := Page(queue);
      Page(queue[..k] + queue[k + 1..]) == page[..k] + page[k + 1..] + if |queue| <= PAGE then [] else [queue[PAGE]]
  {
  }
}
