/** Entity ids over whole histories of reconcile runs: an id merged away leaves a
    redirect to the id that absorbed it, and following redirects must end. */
module Ledger {
  import opened Wrappers
  import opened RecordGraph
  import opened Reconcile

  type Redirects = map<Id, Id>

  /** What the lake remembers between runs: who is in which live entity, every
      redirect ever written, and every id ever handed out. */
  datatype History = History(prior: map<Id, set<Key>>, redirects: Redirects, used: set<Id>)

  function EntitiesOf(m: Membership): map<Id, set<Key>> {
    map x | x in m :: m[x] := set y | y in m && m[y] == m[x]
  }

  /** The redirects one run writes: each merged id to its claimant. */
  function Merges(d: Decision): Redirects {
    map e | e in d.offers && d.offers[e] in d.accepted && d.accepted[d.offers[e]] != e :: d.accepted[d.offers[e]]
  }

  /** They are the merged rows of the plan. */
  lemma MergesAreRows(d: Decision, e: Id, f: Id)
    requires d.Sound()
    ensures (e in Merges(d) && Merges(d)[e] == f) <==> d.TransitionRow(Transition(e, Merged, Some(f), false))
  {
    var t := Transition(e, Merged, Some(f), false);
    if e in Merges(d) && Merges(d)[e] == f {
      assert d.EntityTransition(e, t);
    }
    if d.TransitionRow(t) {
      var g :| g in d.prior && d.EntityTransition(g, t);
    }
  }

  function MintedIds(d: Decision): set<Id> {
    set k | k in d.minted :: d.minted[k]
  }

  /** One run: the plan is applied, then records gone from the corpus are pruned. */
  function After(h: History, d: Decision, corpus: set<Key>): History
    requires d.Sound()
  {
    History(
      EntitiesOf(Survivors(d, corpus)),
      h.redirects + Merges(d),
      h.used + MintedIds(d))
  }

  /** Redirects point forward in time: an id is merged only while it is live. */
  ghost predicate Forward(redirects: Redirects, stamp: map<Id, nat>, clock: nat) {
    && redirects.Keys <= stamp.Keys
    && forall e :: e in redirects ==> stamp[e] < clock && (redirects[e] in redirects ==> stamp[e] < stamp[redirects[e]])
  }

  ghost predicate Consistent(h: History, stamp: map<Id, nat>, clock: nat) {
    && Partition(h.prior)
    && (forall e :: e in h.prior ==> e in h.used && e !in h.redirects)
    && (forall e :: e in h.redirects ==> e in h.used && h.redirects[e] in h.used)
    && Forward(h.redirects, stamp, clock)
  }

  /** A run fits a history: it starts from its entities and mints unused ids. */
  ghost predicate Fits?(h: History, d: Decision) {
    d.Sound() && d.prior == h.prior && forall k :: k in d.minted ==> d.minted[k] !in h.used
  }

  lemma EntitiesPartition(m: Membership)
    ensures Partition(EntitiesOf(m))
    ensures forall e :: e in EntitiesOf(m) <==> exists x :: x in m && m[x] == e
  {
    var parts := EntitiesOf(m);
    forall e | e in parts
      ensures parts[e] != {}
    {
      var x :| x in m && m[x] == e;
      NonEmpty(parts[e], x);
    }
  }

  lemma AcceptedLive(d: Decision)
    requires d.Sound()
    ensures forall k :: k in d.accepted ==> d.accepted[k] in d.prior
  {
  }

  /** Every id a run leaves a record in was kept or minted. */
  lemma TargetLive(d: Decision, x: Key)
    requires d.Sound() && x in d.Target()
    ensures d.Target()[x] in MintedIds(d) || (d.Target()[x] in d.prior && Kept(d, d.Target()[x]))
  {
    AcceptedLive(d);
    if d.Target()[x] in d.prior {
      LostIdUnused(d, d.Target()[x], x);
    }
  }

  function Survivors(d: Decision, corpus: set<Key>): Membership
    requires d.Sound()
  {
    map x | x in d.Target() && x in corpus :: d.Target()[x]
  }

  lemma LiveAfter(d: Decision, corpus: set<Key>, e: Id)
    requires d.Sound() && e in EntitiesOf(Survivors(d, corpus))
    ensures e in MintedIds(d) || (e in d.prior && Kept(d, e))
  {
    var m := Survivors(d, corpus);
    EntitiesPartition(m);
    var x :| x in m && m[x] == e;
    TargetLive(d, x);
  }

  /** Who is in which entity after a run: exactly where the plan puts it, while it is still
      in the corpus. */
  lemma AfterExactly(h: History, d: Decision, corpus: set<Key>, x: Key, e: Id)
    requires d.Sound()
    ensures (e in After(h, d, corpus).prior && x in After(h, d, corpus).prior[e]) <==> (x in corpus && x in d.Target() && d.Target()[x] == e)
  {
    var m := Survivors(d, corpus);
    if x in m && m[x] == e {
      assert e in EntitiesOf(m);
    }
  }

  /** The id merged into is live, and kept by the same run. */
  lemma MergesSound(d: Decision)
    requires d.Sound()
    ensures forall e :: e in Merges(d) ==> e in d.prior && !Kept(d, e) && Merges(d)[e] in d.prior && Merges(d)[e] !in Merges(d)
  {
  }

  function Stamps(stamp: map<Id, nat>, merges: Redirects, clock: nat): map<Id, nat> {
    stamp + map e | e in merges :: clock
  }

  lemma MergesForward(redirects: Redirects, merges: Redirects, stamp: map<Id, nat>, clock: nat)
    requires Forward(redirects, stamp, clock)
    requires forall e :: e in merges ==> e !in redirects && merges[e] !in redirects && merges[e] !in merges
    ensures Forward(redirects + merges, Stamps(stamp, merges, clock), clock + 1)
  {
  }

  /** Every run keeps the history consistent, however records move. */
  lemma RunKeepsConsistent(h: History, d: Decision, corpus: set<Key>, stamp: map<Id, nat>, clock: nat)
    requires Consistent(h, stamp, clock) && Fits?(h, d)
    ensures Consistent(After(h, d, corpus), Stamps(stamp, Merges(d), clock), clock + 1)
  {
    EntitiesPartition(Survivors(d, corpus));
    MergesSound(d);
    MergesForward(h.redirects, Merges(d), stamp, clock);
    forall e | e in EntitiesOf(Survivors(d, corpus))
      ensures e in h.used + MintedIds(d) && e !in h.redirects + Merges(d)
    {
      LiveUsed(h, d, corpus, stamp, clock, e);
    }
  }

  /** A live id has been handed out and redirects nowhere. */
  lemma LiveUsed(h: History, d: Decision, corpus: set<Key>, stamp: map<Id, nat>, clock: nat, e: Id)
    requires Consistent(h, stamp, clock) && Fits?(h, d) && e in EntitiesOf(Survivors(d, corpus))
    ensures e in h.used + MintedIds(d) && e !in h.redirects + Merges(d)
  {
    MergesSound(d);
    LiveAfter(d, corpus, e);
  }

  /** A history of runs, each with the corpus it pruned to. */
  datatype Step = Step(decision: Decision, corpus: set<Key>)

  ghost predicate Runs(h: History, steps: seq<Step>)
    decreases steps
  {
    steps == [] || (Fits?(h, steps[0].decision) && Runs(After(h, steps[0].decision, steps[0].corpus), steps[1..]))
  }

  ghost function AfterAll(h: History, steps: seq<Step>): History
    requires Runs(h, steps)
    decreases steps
  {
    if steps == [] then h else AfterAll(After(h, steps[0].decision, steps[0].corpus), steps[1..])
  }

  lemma {:induction false} RunsKeepConsistent(h: History, steps: seq<Step>, stamp: map<Id, nat>, clock: nat) returns (stamp': map<Id, nat>, clock': nat)
    requires Consistent(h, stamp, clock) && Runs(h, steps)
    ensures Consistent(AfterAll(h, steps), stamp', clock')
    decreases steps
  {
    if steps == [] {
      stamp', clock' := stamp, clock;
    } else {
      RunKeepsConsistent(h, steps[0].decision, steps[0].corpus, stamp, clock);
      var next := After(h, steps[0].decision, steps[0].corpus);
      var later := Stamps(stamp, Merges(steps[0].decision), clock);
      stamp', clock' := RunsKeepConsistent(next, steps[1..], later, clock + 1);
    }
  }

  const EMPTY := History(map[], map[], {})

  /** Over every history from an empty lake, no chain of redirects returns to an
      id it has passed, however long it is. */
  lemma RedirectsNeverCycle(steps: seq<Step>)
    requires Runs(EMPTY, steps)
    ensures Acyclic(AfterAll(EMPTY, steps).redirects)
  {
    var stamp, clock := RunsKeepConsistent(EMPTY, steps, map[], 0);
    forall ids | Chain(AfterAll(EMPTY, steps).redirects, ids)
      ensures Distinct(ids)
    {
      forall i, j | 0 <= i < j < |ids|
        ensures ids[i] != ids[j]
      {
        StampsGrow(AfterAll(EMPTY, steps).redirects, stamp, clock, ids, i, j);
      }
    }
  }

  lemma {:induction false} StampsGrow(redirects: Redirects, stamp: map<Id, nat>, clock: nat, ids: seq<Id>, i: nat, j: nat)
    requires Forward(redirects, stamp, clock) && Chain(redirects, ids) && i < j < |ids|
    ensures ids[i] in redirects && (ids[j] in redirects ==> stamp[ids[i]] < stamp[ids[j]])
    decreases j
  {
    assert Link(redirects, ids[j - 1], ids[j]);
    if i < j - 1 {
      StampsGrow(redirects, stamp, clock, ids, i, j - 1);
    }
  }

  // ---- resolving an external id -------------------------------------------------

  datatype Resolution = Resolved(id: Id) | Cycle(chain: seq<Id>) | TooLong(reached: Id)

  /** Each id of the chain redirects to the next. */
  ghost predicate Chain(redirects: Redirects, ids: seq<Id>) {
    forall i :: 0 < i < |ids| ==> Link(redirects, ids[i - 1], ids[i])
  }

  ghost predicate Distinct(ids: seq<Id>) {
    forall i, j :: 0 <= i < j < |ids| ==> ids[i] != ids[j]
  }

  /** No chain of redirects meets an id twice. */
  ghost predicate Acyclic(redirects: Redirects) {
    forall ids :: Chain(redirects, ids) ==> Distinct(ids)
  }

  predicate Link(redirects: Redirects, e: Id, f: Id) {
    e in redirects && redirects[e] == f
  }

  /** At most `hops` redirects lead from e to f. */
  ghost predicate Within(redirects: Redirects, e: Id, f: Id, hops: nat) {
    exists ids :: Chain(redirects, ids) && 0 < |ids| <= hops + 1 && ids[0] == e && ids[|ids| - 1] == f
  }

  ghost predicate Exactly(redirects: Redirects, e: Id, f: Id, hops: nat) {
    exists ids :: Chain(redirects, ids) && |ids| == hops + 1 && ids[0] == e && ids[hops] == f
  }

  lemma {:induction false} Crowd<T>(s: seq<T>, within: set<T>)
    requires forall i, j :: 0 <= i < j < |s| ==> s[i] != s[j]
    requires forall i :: 0 <= i < |s| ==> s[i] in within
    ensures |s| <= |within|
  {
    if s != [] {
      Crowd(s[1..], within - {s[0]});
    }
  }

  /** A chain of ids that all redirect, none met twice, is no longer than the table. */
  lemma LongChain(redirects: Redirects, ids: seq<Id>)
    requires Chain(redirects, ids) && ids != [] && ids[|ids| - 1] in redirects
    ensures Acyclic(redirects) ==> |ids| <= |redirects|
  {
    if Acyclic(redirects) {
      forall i | 0 <= i < |ids|
        ensures ids[i] in redirects.Keys
      {
        if i + 1 < |ids| {
          assert Link(redirects, ids[i + 1 - 1], ids[i + 1]);
        }
      }
      Crowd(ids, redirects.Keys);
    }
  }

  /** Redirects lead to one end only: two ids reached that redirect no further are
      the same. */
  lemma {:induction false} OneEnd(redirects: Redirects, ids: seq<Id>, others: seq<Id>)
    requires Chain(redirects, ids) && Chain(redirects, others) && ids != [] && others != [] && ids[0] == others[0]
    requires ids[|ids| - 1] !in redirects && others[|others| - 1] !in redirects
    ensures ids == others
  {
    if |ids| > 1 {
      assert Link(redirects, ids[0], ids[1]);
    }
    if |others| > 1 {
      assert Link(redirects, others[0], others[1]);
    }
    if |ids| > 1 && |others| > 1 {
      ChainRest(redirects, ids);
      ChainRest(redirects, others);
      OneEnd(redirects, ids[1..], others[1..]);
      assert ids == [ids[0]] + ids[1..] && others == [others[0]] + others[1..];
    }
  }

  lemma ChainRest(redirects: Redirects, ids: seq<Id>)
    requires Chain(redirects, ids) && |ids| > 0
    ensures Chain(redirects, ids[1..])
  {
  }

  lemma MeetsTwice(redirects: Redirects, ids: seq<Id>, next: Id, i: nat)
    requires Chain(redirects, ids) && i < |ids| && ids[i] == next && Link(redirects, ids[|ids| - 1], next)
    ensures Chain(redirects, ids + [next]) && (ids + [next])[i] == next && !Acyclic(redirects)
  {
    var longer := ids + [next];
    assert Chain(redirects, longer) && longer[i] == longer[|ids|];
    assert !Distinct(longer);
  }

  /** Follow redirects from an id, guarding against cycles and long chains. */
  method Resolve(id: Id, redirects: Redirects, maxHops: nat) returns (r: Resolution)
    ensures r.Resolved? ==> r.id !in redirects && Within(redirects, id, r.id, maxHops)
    ensures r.Cycle? ==> Chain(redirects, r.chain) && exists i :: 0 <= i < |r.chain| - 1 && r.chain[i] == r.chain[|r.chain| - 1]
    ensures r.TooLong? ==> r.reached in redirects && Exactly(redirects, id, r.reached, maxHops)
    ensures Acyclic(redirects) ==> !r.Cycle?
    ensures Acyclic(redirects) && |redirects| <= maxHops ==> r.Resolved?
  {
    var seen := [id];
    var current := id;
    while current in redirects
      invariant 0 < |seen| <= maxHops + 1 && seen[0] == id && seen[|seen| - 1] == current
      invariant Chain(redirects, seen)
      decreases maxHops + 2 - |seen|
    {
      var next := redirects[current];
      if next in seen {
        var i :| 0 <= i < |seen| && seen[i] == next;
        MeetsTwice(redirects, seen, next, i);
        return Cycle(seen + [next]);
      }
      if |seen| > maxHops {
        LongChain(redirects, seen);
        return TooLong(current);
      }
      seen := seen + [next];
      current := next;
    }
    r := Resolved(current);
  }
}
