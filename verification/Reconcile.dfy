/** Carrying entity ids from one partition of the records to the next. Every
    prior entity offers its id to the new group holding its largest fragment;
    every group accepts the largest overlap offered to it, or mints a new id.
    The plan names the rows to write and the events that explain them. */
module Reconcile {
  import opened Wrappers
  import opened RecordGraph

  type Id = int

  datatype Status = Active | Merged | Retired
  datatype Transition = Transition(id: Id, status: Status, mergedInto: Option<Id>, isNew: bool)

  datatype Event =
    | Created(id: Id, members: set<Key>)
    | MemberAdded(id: Id, members: set<Key>)
    | MemberRemoved(id: Id, members: set<Key>)
    | MergedInto(id: Id, members: set<Key>, into: Id)
    | SplitFrom(id: Id, members: set<Key>, from: Id)
    | RetiredAll(id: Id, members: set<Key>)

  /** The rows to write. The source sorts its row lists, so a set loses nothing. */
  datatype Plan = Plan(assignments: set<(Key, Id)>, transitions: set<Transition>, events: set<Event>, minted: seq<Id>)

  /** Fragment order: more members first, then the smaller least member. */
  predicate Outranks(x: set<Key>, y: set<Key>)
    requires x != {} && y != {}
  {
    |x| > |y| || (|x| == |y| && Min(x) < Min(y))
  }

  /** The candidate whose fragment no other outranks, first met on a tie. */
  function Pick(candidates: seq<int>, fragment: map<int, set<Key>>): (best: int)
    requires candidates != []
    requires forall i :: 0 <= i < |candidates| ==> candidates[i] in fragment && fragment[candidates[i]] != {}
    ensures best in candidates && best in fragment && fragment[best] != {}
    ensures forall i :: 0 <= i < |candidates| ==> !Outranks(fragment[candidates[i]], fragment[best])
  {
    if |candidates| == 1 then candidates[0] else
      var rest := Pick(candidates[1..], fragment);
      if Outranks(fragment[rest], fragment[candidates[0]]) then rest else candidates[0]
  }

  /** Disjoint parts, none of them empty. */
  ghost predicate Partition(parts: map<int, set<Key>>) {
    && (forall d, e :: d in parts && e in parts && d != e ==> parts[d] !! parts[e])
    && (forall e :: e in parts ==> parts[e] != {})
  }

  function Members(parts: map<int, set<Key>>): set<Key> {
    set e, x | e in parts && x in parts[e] :: x
  }

  /** The part holding a record. */
  function PartOf(parts: map<int, set<Key>>, x: Key): (e: int)
    requires Partition(parts) && x in Members(parts)
    ensures e in parts && x in parts[e]
  {
    var e :| e in parts && x in parts[e];
    e
  }

  function Was(prior: map<Id, set<Key>>, x: Key): (r: Option<Id>)
    requires Partition(prior)
    ensures r.Some? <==> x in Members(prior)
    ensures r.Some? ==> r.value in prior && x in prior[r.value]
  {
    if x in Members(prior) then Some(PartOf(prior, x)) else None
  }

  /** Who offered, who was accepted, and what was minted. */
  datatype Decision = Decision(prior: map<Id, set<Key>>, groups: map<Key, set<Key>>, offers: map<Id, Key>, accepted: map<Key, Id>, minted: map<Key, Id>) {
    function Overlap(k: Key, e: Id): set<Key> {
      if k in groups && e in prior then groups[k] * prior[e] else {}
    }

    predicate OffersTo(e: Id, k: Key) {
      e in offers && offers[e] == k
    }

    function Orphans(): set<Key> {
      Members(prior) - Members(groups)
    }

    function MintKeys(): set<Key> {
      (set k | k in groups && k !in accepted) + Orphans()
    }

    /** Each prior entity with a surviving member offers its id to the group
        holding its first fragment. */
    ghost predicate OffersSound() {
      && (forall e :: e in offers ==> e in prior && offers[e] in groups && Overlap(offers[e], e) != {})
      && (forall e, k :: e in prior && k in groups && Overlap(k, e) != {} ==>
        e in offers && !Outranks(Overlap(k, e), Overlap(offers[e], e)))
    }

    /** Each group offered an id keeps the one with the first overlap. */
    ghost predicate AcceptancesSound()
      requires OffersSound()
    {
      && (forall k :: k in accepted ==> OffersTo(accepted[k], k))
      && (forall e :: e in offers ==>
        offers[e] in accepted && !Outranks(Overlap(offers[e], e), Overlap(offers[e], accepted[offers[e]])))
    }

    /** Every other group, and every orphan, gets an id nobody else has. */
    ghost predicate MintsSound() {
      && minted.Keys == MintKeys()
      && (forall k :: k in minted ==> minted[k] !in prior)
      && (forall j, k :: j in minted && k in minted && minted[j] == minted[k] ==> j == k)
    }

    ghost predicate Sound() {
      && Partition(prior) && Partition(groups)
      && (forall k :: k in groups ==> k in groups[k])
      && OffersSound() && AcceptancesSound() && MintsSound()
    }

    function EntityOf(k: Key): Id
      requires Sound() && k in groups
    {
      if k in accepted then accepted[k] else minted[k]
    }

    /** Where every record belongs once the plan is applied. */
    function Target(): (r: map<Key, Id>)
      requires Sound()
      ensures r.Keys == Members(groups) + Members(prior)
    {
      map x | x in Members(groups) + Members(prior) ::
        if x in Members(groups) then EntityOf(PartOf(groups, x)) else minted[x]
    }

    // ---- the rows the plan consists of ------------------------------------------

    ghost predicate AssignmentRow(x: Key, e: Id)
      requires Sound()
    {
      x in Target() && Target()[x] == e && Was(prior, x) != Some(e)
    }

    ghost predicate GroupTransition(k: Key, t: Transition)
      requires Sound() && k in groups
    {
      if k in accepted then
        prior[accepted[k]] != groups[k] && t == Transition(accepted[k], Active, None, false)
      else
        t == Transition(minted[k], Active, None, true)
    }

    ghost predicate EntityTransition(e: Id, t: Transition)
      requires Sound() && e in prior
    {
      if e in offers then
        accepted[offers[e]] != e && t == Transition(e, Merged, Some(accepted[offers[e]]), false)
      else
        t == Transition(e, Retired, None, false)
    }

    ghost predicate TransitionRow(t: Transition)
      requires Sound()
    {
      || (exists k :: k in groups && GroupTransition(k, t))
      || (exists e :: e in prior && EntityTransition(e, t))
      || (exists o :: o in Orphans() && t == Transition(minted[o], Active, None, true))
    }

    ghost predicate GroupEvent(k: Key, ev: Event)
      requires Sound() && k in groups
    {
      match ev
      case Created(id, members) => k !in accepted && id == minted[k] && members == groups[k]
      case MemberAdded(id, members) => k in accepted && id == accepted[k] && members == groups[k] - Members(prior) && members != {}
      case MemberRemoved(id, members) => k in accepted && id == accepted[k] && members == prior[id] - groups[k] && members != {}
      case SplitFrom(id, members, from) => id == EntityOf(k) && from in prior && !OffersTo(from, k) && members == Overlap(k, from) && members != {}
      case _ => false
    }

    ghost predicate EntityEvent(e: Id, ev: Event)
      requires Sound() && e in prior
    {
      match ev
      case RetiredAll(id, members) => e !in offers && id == e && members == prior[e]
      case MergedInto(id, members, into) =>
        && e in offers && accepted[offers[e]] != e
        && id == e && into == accepted[offers[e]] && members == Overlap(offers[e], e)
      case _ => false
    }

    ghost predicate EventRow(ev: Event)
      requires Sound()
    {
      || (exists k :: k in groups && GroupEvent(k, ev))
      || (exists e :: e in prior && EntityEvent(e, ev))
      || (exists o :: o in Orphans() && ev == Created(minted[o], {o}))
    }
  }

  // ---- the partition is realised, ids are kept ------------------------------------

  /** No two groups end with one id. */
  lemma EntityOfInjective(d: Decision, j: Key, k: Key)
    requires d.Sound() && j in d.groups && k in d.groups && d.EntityOf(j) == d.EntityOf(k)
    ensures j == k
  {
  }

  lemma OrphanApart(d: Decision, o: Key, k: Key)
    requires d.Sound() && o in d.Orphans() && k in d.groups
    ensures d.minted[o] != d.EntityOf(k)
  {
  }

  lemma SamePart(parts: map<int, set<Key>>, x: Key, k: int)
    requires Partition(parts) && k in parts && x in parts[k]
    ensures x in Members(parts) && PartOf(parts, x) == k
  {
  }

  /** The plan realises the new partition: two records share an entity exactly
      when they share a group; a record in no group is alone. */
  lemma TargetPartition(d: Decision, x: Key, y: Key)
    requires d.Sound() && x in d.Target() && y in d.Target()
    ensures d.Target()[x] == d.Target()[y] <==>
      x == y || exists k :: k in d.groups && x in d.groups[k] && y in d.groups[k]
  {
    if k :| k in d.groups && x in d.groups[k] && y in d.groups[k] {
      SamePart(d.groups, x, k);
      SamePart(d.groups, y, k);
    } else if d.Target()[x] == d.Target()[y] && x != y {
      if x in Members(d.groups) && y in Members(d.groups) {
        EntityOfInjective(d, PartOf(d.groups, x), PartOf(d.groups, y));
      } else if x in Members(d.groups) {
        OrphanApart(d, y, PartOf(d.groups, x));
      } else if y in Members(d.groups) {
        OrphanApart(d, x, PartOf(d.groups, y));
      }
    }
  }

  /** An id survives exactly when the group its entity offered to accepted it. */
  predicate Kept(d: Decision, e: Id) {
    e in d.offers && d.offers[e] in d.accepted && d.accepted[d.offers[e]] == e
  }

  /** A prior entity that loses its id loses all its members with it. */
  lemma LostIdUnused(d: Decision, e: Id, x: Key)
    requires d.Sound() && e in d.prior && x in d.Target() && d.Target()[x] == e
    ensures Kept(d, e) && x in d.groups[d.offers[e]]
  {
    if x in Members(d.groups) {
      var k := PartOf(d.groups, x);
      assert k in d.accepted;
      assert d.OffersTo(d.accepted[k], k);
    }
  }

  /** Merges do not chain: the id merged into is kept, and is the holder of the
      members the merged entity left in that group. */
  lemma MergeTarget(d: Decision, t: Transition)
    requires d.Sound() && d.TransitionRow(t) && t.status == Merged
    ensures t.id in d.prior && !Kept(d, t.id)
    ensures t.mergedInto.Some? && t.mergedInto.value in d.prior && t.mergedInto.value != t.id && Kept(d, t.mergedInto.value)
    ensures exists x :: x in d.prior[t.id] && x in d.Target() && d.Target()[x] == t.mergedInto.value
  {
    var e :| e in d.prior && d.EntityTransition(e, t);
    var k := d.offers[e];
    var c := d.accepted[k];
    assert d.OffersTo(c, k);
    var x := Member(d.Overlap(k, e));
    SamePart(d.groups, x, k);
    assert d.Target()[x] == c;
  }

  /** Of two groups holding parts of one entity, one part outranks the other. */
  lemma FragmentsRanked(d: Decision, j: Key, k: Key, e: Id)
    requires d.Sound() && j in d.groups && k in d.groups && j != k && d.Overlap(j, e) != {} && d.Overlap(k, e) != {}
    ensures Outranks(d.Overlap(j, e), d.Overlap(k, e)) || Outranks(d.Overlap(k, e), d.Overlap(j, e))
  {
    assert Min(d.Overlap(j, e)) in d.groups[j] && Min(d.Overlap(k, e)) in d.groups[k];
  }

  /** The members of e in group k outrank its members in every other group. */
  ghost predicate LargestPart(d: Decision, k: Key, e: Id)
    requires d.Overlap(k, e) != {}
  {
    forall j :: j in d.groups && j != k && d.Overlap(j, e) != {} ==> Outranks(d.Overlap(k, e), d.Overlap(j, e))
  }

  lemma OffersIff(d: Decision, k: Key, e: Id)
    requires d.Sound() && k in d.groups && e in d.prior && d.Overlap(k, e) != {}
    ensures d.OffersTo(e, k) <==> LargestPart(d, k, e)
  {
    if d.OffersTo(e, k) {
      forall j | j in d.groups && j != k && d.Overlap(j, e) != {}
        ensures Outranks(d.Overlap(k, e), d.Overlap(j, e))
      {
        FragmentsRanked(d, j, k, e);
      }
    }
  }

  /** A group takes the id of the entity it overlaps most exactly when it also holds
      the largest part of that entity. */
  lemma ClaimantIff(d: Decision, k: Key, e: Id)
    requires d.Sound() && k in d.groups && e in d.prior && d.Overlap(k, e) != {}
    requires forall f :: f in d.prior && f != e && d.Overlap(k, f) != {} ==> Outranks(d.Overlap(k, e), d.Overlap(k, f))
    ensures d.EntityOf(k) == e <==> LargestPart(d, k, e)
  {
    OffersIff(d, k, e);
    if k in d.accepted {
      assert d.OffersTo(d.accepted[k], k);
    }
  }

  /** It need not: on these inputs group 4 overlaps entity 10 most, yet takes the id of
      entity 11, since 10 keeps its id in group 1. */
  lemma LargestOverlapLoses(d: Decision)
    requires d.Sound()
    requires d.prior == map[10 := {1, 2, 3, 4, 5}, 11 := {6}] && d.groups == map[1 := {1, 2, 3}, 4 := {4, 5, 6}]
    ensures Outranks(d.Overlap(4, 10), d.Overlap(4, 11)) && d.EntityOf(4) == 11 && d.EntityOf(1) == 10
  {
    assert d.Overlap(1, 10) == {1, 2, 3} && d.Overlap(4, 10) == {4, 5} && d.Overlap(4, 11) == {6} && d.Overlap(1, 11) == {};
    assert d.OffersTo(10, 1) && d.OffersTo(11, 4);
    assert d.OffersTo(d.accepted[4], 4) && d.OffersTo(d.accepted[1], 1);
  }

  /** Of equal parts the one with the least record keeps the id. */
  lemma EvenSplit(d: Decision)
    requires d.Sound() && d.prior == map[10 := {1, 2, 3, 4}] && d.groups == map[1 := {1, 4}, 2 := {2, 3}]
    ensures d.EntityOf(1) == 10 && d.EntityOf(2) != 10
  {
    assert d.Overlap(1, 10) == {1, 4} && d.Overlap(2, 10) == {2, 3};
    assert Min({1, 4}) == 1 && Min({2, 3}) == 2;
    assert d.OffersTo(10, 1);
    assert d.OffersTo(d.accepted[1], 1);
    if 2 in d.accepted {
      assert d.OffersTo(d.accepted[2], 2);
    }
  }

  /** An entity is merged exactly when it loses its id but not all its records. */
  lemma MergedIff(d: Decision, e: Id)
    requires d.Sound() && e in d.prior
    ensures (exists t :: d.TransitionRow(t) && t.id == e && t.status == Merged)
      <==> !Kept(d, e) && exists x :: x in d.prior[e] && x in Members(d.groups)
  {
    if t :| d.TransitionRow(t) && t.id == e && t.status == Merged {
      MergeTarget(d, t);
      var f :| f in d.prior && d.EntityTransition(f, t);
      var x := Member(d.Overlap(d.offers[e], e));
      SamePart(d.groups, x, d.offers[e]);
    }
    if x :| !Kept(d, e) && x in d.prior[e] && x in Members(d.groups) {
      var k := PartOf(d.groups, x);
      NonEmpty(d.Overlap(k, e), x);
      assert d.EntityTransition(e, Transition(e, Merged, Some(d.accepted[d.offers[e]]), false));
    }
  }

  /** All its records follow it exactly when one group holds them all. */
  lemma MergedWhollyIff(d: Decision, t: Transition)
    requires d.Sound() && d.TransitionRow(t) && t.status == Merged
    ensures t.id in d.prior && t.mergedInto.Some?
    ensures (forall x :: x in d.prior[t.id] ==> x in d.Target() && d.Target()[x] == t.mergedInto.value)
      <==> exists k :: k in d.groups && d.prior[t.id] <= d.groups[k]
  {
    MergeTarget(d, t);
    var e :| e in d.prior && d.EntityTransition(e, t);
    var k := d.offers[e];
    forall x | x in d.prior[e]
      ensures x in d.Target() && (d.Target()[x] == d.accepted[k] <==> x in d.groups[k])
    {
      FollowsIff(d, e, x);
    }
    if j :| j in d.groups && d.prior[e] <= d.groups[j] {
      var x := Member(d.Overlap(k, e));
      assert j == k;
    }
  }

  /** A record of an entity goes to the claimant of its group exactly when it is there. */
  lemma FollowsIff(d: Decision, e: Id, x: Key)
    requires d.Sound() && e in d.offers && x in d.prior[e]
    ensures x in d.Target() && (d.Target()[x] == d.accepted[d.offers[e]] <==> x in d.groups[d.offers[e]])
  {
    var k := d.offers[e];
    assert d.OffersTo(d.accepted[k], k);
    assert x in Members(d.prior);
    if x in d.groups[k] {
      SamePart(d.groups, x, k);
    } else if d.Target()[x] == d.accepted[k] {
      LostIdUnused(d, d.accepted[k], x);
    }
  }

  /** They need not: on these inputs entity 10 is always merged into 11, although
      its record 3 ends elsewhere. */
  lemma MergedInPart(d: Decision)
    requires d.Sound()
    requires d.prior == map[10 := {1, 2, 3}, 11 := {4, 5, 6}] && d.groups == map[1 := {1, 2, 4, 5, 6}, 3 := {3}]
    ensures d.TransitionRow(Transition(10, Merged, Some(11), false))
    ensures 3 in d.prior[10] && 3 in d.Target() && d.Target()[3] != 11
  {
    MergedInPartOffers(d);
    assert d.EntityTransition(10, Transition(10, Merged, Some(11), false));
    SamePart(d.prior, 3, 10);
    if d.Target()[3] == 11 {
      LostIdUnused(d, 11, 3);
    }
  }

  lemma MergedInPartOffers(d: Decision)
    requires d.Sound()
    requires d.prior == map[10 := {1, 2, 3}, 11 := {4, 5, 6}] && d.groups == map[1 := {1, 2, 4, 5, 6}, 3 := {3}]
    ensures d.OffersTo(10, 1) && d.OffersTo(11, 1) && 1 in d.accepted && d.accepted[1] == 11
  {
    assert d.Overlap(1, 10) == {1, 2} && d.Overlap(3, 10) == {3} && d.Overlap(1, 11) == {4, 5, 6};
    assert d.OffersTo(10, 1) && d.OffersTo(11, 1);
    assert d.OffersTo(d.accepted[1], 1);
  }

  /** A set-equal group keeps its id. */
  lemma EqualGroupAccepted(d: Decision, k: Key, e: Id)
    requires d.Sound() && k in d.groups && e in d.prior && d.groups[k] == d.prior[e]
    ensures d.OffersTo(e, k) && k in d.accepted && d.accepted[k] == e
    ensures forall f :: f in d.prior && d.Overlap(k, f) != {} ==> f == e
    ensures forall j :: j in d.groups && d.Overlap(j, e) != {} ==> j == k
  {
    forall f | f in d.prior && d.Overlap(k, f) != {}
      ensures f == e
    {
      var x := Member(d.Overlap(k, f));
    }
    forall j | j in d.groups && d.Overlap(j, e) != {}
      ensures j == k
    {
      var x := Member(d.Overlap(j, e));
    }
    assert d.Overlap(k, e) == d.prior[e];
    assert d.OffersTo(d.accepted[k], k);
  }

  predicate Mentions(ev: Event, e: Id) {
    ev.id == e || (ev.MergedInto? && ev.into == e) || (ev.SplitFrom? && ev.from == e)
  }

  /** INV-PERM: an entity whose members form a group again is left alone. */
  lemma UntouchedRows(d: Decision, k: Key, e: Id)
    requires d.Sound() && k in d.groups && e in d.prior && d.groups[k] == d.prior[e]
    ensures forall x :: x in d.prior[e] ==> x in d.Target() && d.Target()[x] == e && !d.AssignmentRow(x, e)
    ensures forall t :: d.TransitionRow(t) ==> t.id != e && t.mergedInto != Some(e)
  {
    EqualGroupAccepted(d, k, e);
    forall x | x in d.prior[e]
      ensures x in d.Target() && d.Target()[x] == e && !d.AssignmentRow(x, e)
    {
      SamePart(d.groups, x, k);
      SamePart(d.prior, x, e);
    }
    forall t | d.TransitionRow(t)
      ensures t.id != e && t.mergedInto != Some(e)
    {
      if j :| j in d.groups && d.GroupTransition(j, t) {
        assert j in d.accepted ==> d.OffersTo(d.accepted[j], j);
      } else if f :| f in d.prior && d.EntityTransition(f, t) {
        assert f in d.offers ==> d.OffersTo(d.accepted[d.offers[f]], d.offers[f]);
      }
    }
  }

  lemma UntouchedEvents(d: Decision, k: Key, e: Id, ev: Event)
    requires d.Sound() && k in d.groups && e in d.prior && d.groups[k] == d.prior[e]
    requires d.EventRow(ev)
    ensures !Mentions(ev, e)
  {
    EqualGroupAccepted(d, k, e);
    if j :| j in d.groups && d.GroupEvent(j, ev) {
      UntouchedByGroup(d, k, e, j, ev);
    } else if f :| f in d.prior && d.EntityEvent(f, ev) {
      assert f in d.offers ==> d.OffersTo(d.accepted[d.offers[f]], d.offers[f]);
    }
  }

  lemma UntouchedByGroup(d: Decision, k: Key, e: Id, j: Key, ev: Event)
    requires d.Sound() && k in d.groups && e in d.prior && d.groups[k] == d.prior[e]
    requires j in d.groups && d.GroupEvent(j, ev)
    ensures !Mentions(ev, e)
  {
    EqualGroupAccepted(d, k, e);
    assert j in d.accepted ==> d.OffersTo(d.accepted[j], j);
    if ev.MemberAdded? && j == k {
      assert forall x :: x in d.groups[k] ==> x in Members(d.prior);
    }
  }

  ghost predicate SameParts(parts: map<int, set<Key>>, other: map<int, set<Key>>) {
    forall k :: k in parts ==> exists e :: e in other && other[e] == parts[k]
  }

  ghost predicate NothingToDo(d: Decision)
    requires d.Sound()
  {
    && (forall x, e :: !d.AssignmentRow(x, e))
    && (forall t :: !d.TransitionRow(t))
    && (forall ev :: !d.EventRow(ev))
  }

  /** The plan is empty exactly when the partition has not changed. */
  lemma EmptyPlanIff(d: Decision)
    requires d.Sound()
    ensures NothingToDo(d) <==> SameParts(d.groups, d.prior) && SameParts(d.prior, d.groups)
  {
    if NothingToDo(d) {
      QuietGroups(d);
      QuietEntities(d);
    }
    if SameParts(d.groups, d.prior) && SameParts(d.prior, d.groups) {
      CarriedGroups(d);
      CarriedEntities(d);
      CarriedQuiet(d);
    }
  }

  lemma QuietGroups(d: Decision)
    requires d.Sound() && NothingToDo(d)
    ensures forall k :: k in d.groups ==> k in d.accepted && d.accepted[k] in d.prior && d.prior[d.accepted[k]] == d.groups[k]
  {
    forall k | k in d.groups
      ensures k in d.accepted && d.accepted[k] in d.prior && d.prior[d.accepted[k]] == d.groups[k]
    {
      var e := if k in d.accepted then d.accepted[k] else d.minted[k];
      assert k in d.accepted ==> d.OffersTo(e, k);
      assert !d.TransitionRow(Transition(e, Active, None, k !in d.accepted));
      assert !d.GroupTransition(k, Transition(e, Active, None, k !in d.accepted));
    }
  }

  lemma QuietEntities(d: Decision)
    requires d.Sound() && NothingToDo(d)
    ensures SameParts(d.prior, d.groups)
  {
    QuietGroups(d);
    forall e | e in d.prior
      ensures exists k :: k in d.groups && d.groups[k] == d.prior[e]
    {
      var t := if e in d.offers then Transition(e, Merged, Some(d.accepted[d.offers[e]]), false) else Transition(e, Retired, None, false);
      assert !d.TransitionRow(t);
      assert !d.EntityTransition(e, t);
      assert d.groups[d.offers[e]] == d.prior[e];
    }
  }

  ghost predicate GroupsCarried(d: Decision) {
    forall k :: k in d.groups ==> k in d.accepted && d.accepted[k] in d.prior && d.prior[d.accepted[k]] == d.groups[k]
  }

  ghost predicate EntitiesCarried(d: Decision) {
    forall e :: e in d.prior ==> Kept(d, e) && d.offers[e] in d.groups && d.groups[d.offers[e]] == d.prior[e]
  }

  /** Every group is some entity's members again, and every entity some group's. */
  ghost predicate Carried(d: Decision) {
    GroupsCarried(d) && EntitiesCarried(d)
  }

  lemma CarriedGroups(d: Decision)
    requires d.Sound() && SameParts(d.groups, d.prior)
    ensures GroupsCarried(d)
  {
  }

  lemma CarriedEntities(d: Decision)
    requires d.Sound() && SameParts(d.prior, d.groups)
    ensures EntitiesCarried(d)
  {
  }

  lemma CarriedQuiet(d: Decision)
    requires d.Sound() && Carried(d)
    ensures NothingToDo(d)
  {
    NoOrphans(d);
    forall x, e
      ensures !d.AssignmentRow(x, e)
    {
      QuietRow(d, x, e);
    }
    forall ev
      ensures !d.EventRow(ev)
    {
      QuietEvent(d, ev);
    }
  }

  lemma QuietRow(d: Decision, x: Key, e: Id)
    requires d.Sound() && Carried(d)
    ensures !d.AssignmentRow(x, e)
  {
    NoOrphans(d);
    if x in d.Target() {
      var k := PartOf(d.groups, x);
      UntouchedRows(d, k, d.accepted[k]);
      SamePart(d.prior, x, d.accepted[k]);
    }
  }

  lemma NoOrphans(d: Decision)
    requires d.Sound() && Carried(d)
    ensures d.Orphans() == {}
    ensures forall x :: x in d.Target() ==> x in Members(d.groups)
  {
  }

  lemma QuietEvent(d: Decision, ev: Event)
    requires d.Sound() && Carried(d) && d.Orphans() == {}
    ensures !d.EventRow(ev)
  {
    if k :| k in d.groups && d.GroupEvent(k, ev) {
      UntouchedEvents(d, k, d.accepted[k], ev);
    }
  }

  // ---- the ledger replays to the membership ---------------------------------------

  type Membership = map<Key, Id>

  function PriorMembership(prior: map<Id, set<Key>>): Membership
    requires Partition(prior)
  {
    map x | x in Members(prior) :: PartOf(prior, x)
  }

  /** The entity an event puts its members in, if it puts them anywhere. */
  function Destination(ev: Event): Option<Id> {
    match ev
    case Created(id, _) => Some(id)
    case MemberAdded(id, _) => Some(id)
    case SplitFrom(id, _, _) => Some(id)
    case MergedInto(_, _, into) => Some(into)
    case MemberRemoved(_, _) => None
    case RetiredAll(_, _) => None
  }

  /** One event: move its members, or take them from the entity losing them. */
  function Replay1(m: Membership, ev: Event): Membership {
    match Destination(ev)
    case Some(id) => m + (map x | x in ev.members :: id)
    case None => map x | x in m && !(x in ev.members && m[x] == ev.id) :: m[x]
  }

  function Replay(m: Membership, events: seq<Event>): Membership {
    if events == [] then m else Replay1(Replay(m, events[..|events| - 1]), events[|events| - 1])
  }

  /** Whatever an event says of a record agrees with where the record belongs. */
  lemma EventAgrees(d: Decision, ev: Event, x: Key)
    requires d.Sound() && d.EventRow(ev) && x in ev.members
    ensures x in d.Target()
    ensures Destination(ev).Some? ==> d.Target()[x] == Destination(ev).value
    ensures Destination(ev).None? ==> d.Target()[x] != ev.id
  {
    if k :| k in d.groups && d.GroupEvent(k, ev) {
      if ev.MemberRemoved? {
        SamePart(d.prior, x, ev.id);
        if d.Target()[x] == ev.id {
          LostIdUnused(d, ev.id, x);
        }
      } else {
        SamePart(d.groups, x, k);
      }
    } else if e :| e in d.prior && d.EntityEvent(e, ev) {
      SamePart(d.prior, x, e);
      if ev.RetiredAll? {
        if d.Target()[x] == e {
          LostIdUnused(d, e, x);
        }
      } else {
        SamePart(d.groups, x, d.offers[e]);
      }
    }
  }

  /** Every record that changes hands is named by an event that moves it. */
  lemma ChangeExplained(d: Decision, x: Key) returns (ev: Event)
    requires d.Sound() && x in d.Target() && Was(d.prior, x) != Some(d.Target()[x])
    ensures d.EventRow(ev) && x in ev.members && Destination(ev).Some?
  {
    if x !in Members(d.groups) {
      ev := Created(d.minted[x], {x});
    } else {
      var k := PartOf(d.groups, x);
      ev := GroupExplains(d, k, x);
    }
  }

  lemma GroupExplains(d: Decision, k: Key, x: Key) returns (ev: Event)
    requires d.Sound() && k in d.groups && x in d.groups[k]
    requires Was(d.prior, x) != Some(d.EntityOf(k))
    ensures d.EventRow(ev) && x in ev.members && Destination(ev).Some?
  {
    if k !in d.accepted {
      ev := Created(d.minted[k], d.groups[k]);
      assert d.GroupEvent(k, ev);
    } else if x !in Members(d.prior) {
      ev := MemberAdded(d.accepted[k], d.groups[k] - Members(d.prior));
      NonEmpty(ev.members, x);
      assert d.GroupEvent(k, ev);
    } else {
      var e := PartOf(d.prior, x);
      assert x in d.Overlap(k, e);
      if d.OffersTo(e, k) {
        ev := MergedInto(e, d.Overlap(k, e), d.accepted[k]);
        assert d.EntityEvent(e, ev);
      } else {
        ev := SplitFrom(d.EntityOf(k), d.Overlap(k, e), e);
        assert d.GroupEvent(k, ev);
      }
    }
  }

  ghost predicate Moved(events: seq<Event>, x: Key) {
    exists i :: 0 <= i < |events| && x in events[i].members && Destination(events[i]).Some?
  }

  function At(m: Membership, x: Key): Option<Id> {
    if x in m then Some(m[x]) else None
  }

  lemma ReplayStep(m: Membership, ev: Event, x: Key)
    ensures At(Replay1(m, ev), x) ==
      if x !in ev.members then At(m, x)
      else if Destination(ev).Some? then Destination(ev)
      else if At(m, x) == Some(ev.id) then None else At(m, x)
  {
  }

  lemma MovedSnoc(events: seq<Event>, x: Key)
    requires events != []
    ensures var ev := events[|events| - 1];
      Moved(events, x) <==> Moved(events[..|events| - 1], x) || (x in ev.members && Destination(ev).Some?)
  {
  }

  /** Where a record can be found part-way through: once moved, where it belongs;
      before that, where it was or taken from there, unless it belongs there. */
  ghost predicate PartWay(d: Decision, moved: bool, at: Option<Id>, x: Key)
    requires d.Sound()
  {
    && (at.Some? || moved ==> x in d.Target())
    && (moved ==> at == Some(d.Target()[x]))
    && (!moved && at.Some? ==> at == Was(d.prior, x))
    && (x in d.Target() && Was(d.prior, x) == Some(d.Target()[x]) ==> at == Some(d.Target()[x]))
  }

  /** One record through any list of the plan's events. */
  lemma {:induction false} ReplayOne(d: Decision, events: seq<Event>, x: Key)
    requires d.Sound() && forall i :: 0 <= i < |events| ==> d.EventRow(events[i])
    ensures PartWay(d, Moved(events, x), At(Replay(PriorMembership(d.prior), events), x), x)
  {
    if events != [] {
      var init, ev := events[..|events| - 1], events[|events| - 1];
      ReplayOne(d, init, x);
      assert d.EventRow(ev);
      ReplayStep(Replay(PriorMembership(d.prior), init), ev, x);
      MovedSnoc(events, x);
      if x in ev.members {
        EventAgrees(d, ev, x);
      }
    }
  }

  /** The event ledger is complete and consistent: replaying the plan's events in
      any order, over the prior membership, gives the new membership. */
  lemma LedgerReplays(d: Decision, events: seq<Event>)
    requires d.Sound() && forall ev :: ev in events <==> d.EventRow(ev)
    ensures Replay(PriorMembership(d.prior), events) == d.Target()
  {
    var m := Replay(PriorMembership(d.prior), events);
    forall x
      ensures At(m, x) == At(d.Target(), x)
    {
      ReplayedAt(d, events, x);
    }
    forall x
      ensures x in m <==> x in d.Target()
      ensures x in m ==> m[x] == d.Target()[x]
    {
      assert At(m, x) == At(d.Target(), x);
    }
  }

  lemma ReplayedAt(d: Decision, events: seq<Event>, x: Key)
    requires d.Sound() && forall ev :: ev in events <==> d.EventRow(ev)
    ensures At(Replay(PriorMembership(d.prior), events), x) == At(d.Target(), x)
  {
    forall i | 0 <= i < |events|
      ensures d.EventRow(events[i])
    {
      assert events[i] in events;
    }
    ReplayOne(d, events, x);
    if x in d.Target() && Was(d.prior, x) != Some(d.Target()[x]) {
      var ev := ChangeExplained(d, x);
      var i :| 0 <= i < |events| && events[i] == ev;
      assert Moved(events, x);
    }
  }

  // ---- determinism -----------------------------------------------------------------

  /** All tiebreaks are total: the partitions determine who keeps which id. */
  lemma DecisionDetermined(d: Decision, d': Decision)
    requires d.Sound() && d'.Sound() && d.prior == d'.prior && d.groups == d'.groups
    ensures d.offers == d'.offers && d.accepted == d'.accepted
  {
    OffersDetermined(d, d');
    AcceptancesWithin(d, d');
    AcceptancesWithin(d', d);
    MapsAgree(d.accepted, d'.accepted);
  }

  lemma OffersDetermined(d: Decision, d': Decision)
    requires d.Sound() && d'.Sound() && d.prior == d'.prior && d.groups == d'.groups
    ensures d.offers == d'.offers
  {
    OffersWithin(d, d');
    OffersWithin(d', d);
    MapsAgree(d.offers, d'.offers);
  }

  lemma OffersWithin(d: Decision, d': Decision)
    requires d.Sound() && d'.Sound() && d.prior == d'.prior && d.groups == d'.groups
    ensures forall e :: e in d.offers ==> e in d'.offers && d.offers[e] == d'.offers[e]
  {
  }

  lemma AcceptancesWithin(d: Decision, d': Decision)
    requires d.Sound() && d'.Sound() && d.prior == d'.prior && d.groups == d'.groups && d.offers == d'.offers
    ensures forall k :: k in d.accepted ==> k in d'.accepted && d.accepted[k] == d'.accepted[k]
  {
  }

  // ---- the computation ----------------------------------------------------------------

  /** The key, in ascending order, whose fragment comes first. */
  function First(fragment: map<int, set<Key>>): (best: int)
    requires fragment.Keys != {} && forall c :: c in fragment ==> fragment[c] != {}
    ensures best in fragment
    ensures forall c :: c in fragment ==> !Outranks(fragment[c], fragment[best])
  {
    var order := Sorted(fragment.Keys);
    assert forall i :: 0 <= i < |order| ==> order[i] in order;
    var best := Pick(order, fragment);
    assert forall c :: c in fragment ==> c in order;
    best
  }

  function FragmentsOf(prior: map<Id, set<Key>>, groups: map<Key, set<Key>>, e: Id): map<Key, set<Key>>
    requires e in prior
  {
    map k | k in groups && groups[k] * prior[e] != {} :: groups[k] * prior[e]
  }

  function BestGroup(prior: map<Id, set<Key>>, groups: map<Key, set<Key>>, e: Id): (k: Key)
    requires e in prior && FragmentsOf(prior, groups, e).Keys != {}
    ensures k in groups && groups[k] * prior[e] != {}
    ensures forall j :: j in groups && groups[j] * prior[e] != {} ==> !Outranks(groups[j] * prior[e], groups[k] * prior[e])
  {
    var fragment := FragmentsOf(prior, groups, e);
    assert forall j :: j in groups && groups[j] * prior[e] != {} ==> j in fragment && fragment[j] == groups[j] * prior[e];
    First(fragment)
  }

  function OffersOf(prior: map<Id, set<Key>>, groups: map<Key, set<Key>>): map<Id, Key> {
    map e | e in prior && FragmentsOf(prior, groups, e).Keys != {} :: BestGroup(prior, groups, e)
  }

  lemma OffersOfSound(prior: map<Id, set<Key>>, groups: map<Key, set<Key>>)
    ensures Decision(prior, groups, OffersOf(prior, groups), map[], map[]).OffersSound()
  {
    var d := Decision(prior, groups, OffersOf(prior, groups), map[], map[]);
    forall e, k | e in prior && k in groups && d.Overlap(k, e) != {}
      ensures e in d.offers && !Outranks(d.Overlap(k, e), d.Overlap(d.offers[e], e))
    {
      NonEmpty(FragmentsOf(prior, groups, e).Keys, k);
    }
  }

  function OfferedTo(offers: map<Id, Key>, k: Key): set<Id> {
    set e | e in offers && offers[e] == k
  }

  /** What each entity offering to a group has in it. */
  function Claims(prior: map<Id, set<Key>>, groups: map<Key, set<Key>>, offers: map<Id, Key>, k: Key): map<Id, set<Key>>
    requires k in groups
  {
    map e | e in OfferedTo(offers, k) && e in prior && groups[k] * prior[e] != {} :: groups[k] * prior[e]
  }

  function AcceptancesOf(prior: map<Id, set<Key>>, groups: map<Key, set<Key>>, offers: map<Id, Key>): map<Key, Id> {
    map k | k in groups && Claims(prior, groups, offers, k).Keys != {} :: First(Claims(prior, groups, offers, k))
  }

  lemma AcceptancesOfSound(prior: map<Id, set<Key>>, groups: map<Key, set<Key>>, offers: map<Id, Key>)
    requires Decision(prior, groups, offers, map[], map[]).OffersSound()
    ensures var d := Decision(prior, groups, offers, AcceptancesOf(prior, groups, offers), map[]);
      d.OffersSound() && d.AcceptancesSound()
  {
    var d0 := Decision(prior, groups, offers, map[], map[]);
    var d := Decision(prior, groups, offers, AcceptancesOf(prior, groups, offers), map[]);
    assert forall k, e :: d.Overlap(k, e) == d0.Overlap(k, e);
    forall e | e in offers
      ensures offers[e] in d.accepted && !Outranks(d.Overlap(offers[e], e), d.Overlap(offers[e], d.accepted[offers[e]]))
    {
      var k := offers[e];
      assert e in OfferedTo(offers, k) && d0.Overlap(k, e) != {};
      NonEmpty(Claims(prior, groups, offers, k).Keys, e);
      var f := First(Claims(prior, groups, offers, k));
      assert d.Overlap(k, e) == Claims(prior, groups, offers, k)[e] && d.Overlap(k, f) == Claims(prior, groups, offers, k)[f];
    }
    forall k | k in d.accepted
      ensures d.OffersTo(d.accepted[k], k)
    {
      assert d.accepted[k] in OfferedTo(offers, k);
    }
  }

  /** The id factory: the ids it hands out, in order; none repeats or is in use. */
  ghost predicate Fresh(factory: nat -> Id, prior: map<Id, set<Key>>) {
    && (forall i: nat :: factory(i) !in prior)
    && (forall i: nat, j: nat :: factory(i) == factory(j) ==> i == j)
  }

  /** Ids for the keys given, handed out in ascending order of key. */
  function Mint(factory: nat -> Id, keys: set<Key>): (minted: map<Key, Id>)
    ensures minted.Keys == keys
  {
    var index := IndexOf(Sorted(keys));
    map k | k in keys :: factory(index[k])
  }

  function Smaller(keys: set<Key>, k: Key): set<Key> {
    set x | x in keys && x < k
  }

  /** Each key gets the id handed out after one for every smaller key. */
  lemma MintInOrder(factory: nat -> Id, keys: set<Key>, k: Key)
    requires k in keys
    ensures Mint(factory, keys)[k] == factory(|Smaller(keys, k)|)
  {
    var ids := Sorted(keys);
    var i := IndexOf(ids)[k];
    FirstDistinct(ids, i);
    forall x: Key
      ensures x in Smaller(keys, k) <==> x in ListedBefore(ids, i)
    {
      SmallerListed(ids, keys, k, i, x);
    }
    SameMembers(Smaller(keys, k), ListedBefore(ids, i));
  }

  function ListedBefore(ids: seq<Key>, i: nat): set<Key>
    requires i <= |ids|
  {
    set x | x in ids[..i]
  }

  lemma SmallerListed(ids: seq<Key>, keys: set<Key>, k: Key, i: nat, x: Key)
    requires Ascending(ids) && (forall y :: y in ids <==> y in keys) && i < |ids| && ids[i] == k
    ensures x in Smaller(keys, k) <==> x in ListedBefore(ids, i)
  {
    if x in ids[..i] {
      var j :| 0 <= j < i && ids[j] == x;
    }
    if x in keys && x < k {
      assert x in ids;
      var j :| 0 <= j < |ids| && ids[j] == x;
      assert ids[..i][j] == x;
    }
  }

  lemma {:induction false} FirstDistinct(ids: seq<Key>, i: nat)
    requires Ascending(ids) && i <= |ids|
    ensures |ListedBefore(ids, i)| == i
  {
    if i > 0 {
      FirstDistinct(ids, i - 1);
      assert ids[..i] == ids[..i - 1] + [ids[i - 1]];
      assert ids[i - 1] !in ids[..i - 1];
      forall x: Key
        ensures x in ListedBefore(ids, i) <==> x in ListedBefore(ids, i - 1) + {ids[i - 1]}
      {
      }
      SameMembers(ListedBefore(ids, i), ListedBefore(ids, i - 1) + {ids[i - 1]});
    }
  }

  method Decide(prior: map<Id, set<Key>>, groups: map<Key, set<Key>>, factory: nat -> Id) returns (d: Decision)
    requires Partition(prior) && Partition(groups) && Fresh(factory, prior)
    requires forall k :: k in groups ==> k in groups[k]
    ensures d.Sound() && d.prior == prior && d.groups == groups
    ensures d.minted == Mint(factory, d.MintKeys())
  {
    var offers := OffersOf(prior, groups);
    OffersOfSound(prior, groups);
    var accepted := AcceptancesOf(prior, groups, offers);
    AcceptancesOfSound(prior, groups, offers);
    var bare := Decision(prior, groups, offers, accepted, map[]);
    d := bare.(minted := Mint(factory, bare.MintKeys()));
    MintKeepsSound(bare, d.minted);
    MintSound(factory, prior, bare.MintKeys());
  }

  lemma MintKeepsSound(d: Decision, minted: map<Key, Id>)
    requires d.OffersSound() && d.AcceptancesSound()
    ensures d.(minted := minted).OffersSound() && d.(minted := minted).AcceptancesSound()
    ensures d.(minted := minted).MintKeys() == d.MintKeys()
  {
  }

  lemma MintSound(factory: nat -> Id, prior: map<Id, set<Key>>, keys: set<Key>)
    requires Fresh(factory, prior)
    ensures var minted := Mint(factory, keys);
      && (forall k :: k in minted ==> minted[k] !in prior)
      && (forall j, k :: j in minted && k in minted && minted[j] == minted[k] ==> j == k)
  {
  }

  // ---- writing the rows ------------------------------------------------------------------

  /** The records of a group whose entity changes. */
  function AssignmentsOf(d: Decision, k: Key): (rows: set<(Key, Id)>)
    requires d.Sound() && k in d.groups
    ensures forall x, e :: (x, e) in rows <==> x in d.groups[k] && e == d.EntityOf(k) && Was(d.prior, x) != Some(e)
  {
    set x | x in d.groups[k] && Was(d.prior, x) != Some(d.EntityOf(k)) :: (x, d.EntityOf(k))
  }

  function TransitionsOf(d: Decision, k: Key): (rows: set<Transition>)
    requires d.Sound() && k in d.groups
    ensures forall t :: t in rows <==> d.GroupTransition(k, t)
  {
    if k !in d.accepted then {Transition(d.minted[k], Active, None, true)}
    else
      assert d.OffersTo(d.accepted[k], k);
      if d.prior[d.accepted[k]] != d.groups[k] then {Transition(d.accepted[k], Active, None, false)}
      else {}
  }

  /** One split per entity whose first fragment is elsewhere. */
  function SplitsOf(d: Decision, k: Key): (rows: set<Event>)
    requires d.Sound() && k in d.groups
    ensures forall ev :: ev in rows <==> ev.SplitFrom? && d.GroupEvent(k, ev)
  {
    set e | e in d.prior && d.Overlap(k, e) != {} && !d.OffersTo(e, k) :: SplitFrom(d.EntityOf(k), d.Overlap(k, e), e)
  }

  function EventsOf(d: Decision, k: Key): (rows: set<Event>)
    requires d.Sound() && k in d.groups
    ensures forall ev :: ev in rows <==> d.GroupEvent(k, ev)
  {
    SplitsOf(d, k) +
    if k !in d.accepted then {Created(d.minted[k], d.groups[k])}
    else
      assert d.OffersTo(d.accepted[k], k);
      var joined, left := d.groups[k] - Members(d.prior), d.prior[d.accepted[k]] - d.groups[k];
      (if joined != {} then {MemberAdded(d.accepted[k], joined)} else {}) +
      (if left != {} then {MemberRemoved(d.accepted[k], left)} else {})
  }

  function EntityTransitionsOf(d: Decision, e: Id): (rows: set<Transition>)
    requires d.Sound() && e in d.prior
    ensures forall t :: t in rows <==> d.EntityTransition(e, t)
  {
    if e !in d.offers then {Transition(e, Retired, None, false)}
    else if d.accepted[d.offers[e]] != e then {Transition(e, Merged, Some(d.accepted[d.offers[e]]), false)}
    else {}
  }

  function EntityEventsOf(d: Decision, e: Id): (rows: set<Event>)
    requires d.Sound() && e in d.prior
    ensures forall ev :: ev in rows <==> d.EntityEvent(e, ev)
  {
    if e !in d.offers then {RetiredAll(e, d.prior[e])}
    else if d.accepted[d.offers[e]] != e then {MergedInto(e, d.Overlap(d.offers[e], e), d.accepted[d.offers[e]])}
    else {}
  }

  /** Walk the keys in ascending order, collecting the rows of each. */
  method Collect<T(==)>(keys: set<int>, rows: int --> set<T>) returns (all: set<T>)
    requires forall k :: k in keys ==> rows.requires(k)
    ensures forall r :: r in all <==> exists k :: k in keys && r in rows(k)
  {
    var order := Sorted(keys);
    assert forall i :: 0 <= i < |order| ==> order[i] in order;
    all := {};
    for n := 0 to |order|
      invariant forall r :: r in all <==> exists i :: 0 <= i < n && r in rows(order[i])
    {
      all := all + rows(order[n]);
    }
    assert forall k :: k in keys ==> k in order;
  }

  method ReconcilePlan(prior: map<Id, set<Key>>, groups: map<Key, set<Key>>, factory: nat -> Id) returns (plan: Plan, d: Decision)
    requires Partition(prior) && Partition(groups) && Fresh(factory, prior)
    requires forall k :: k in groups ==> k in groups[k]
    ensures d.Sound() && d.prior == prior && d.groups == groups && d.minted == Mint(factory, d.MintKeys())
    ensures forall x, e :: (x, e) in plan.assignments <==> d.AssignmentRow(x, e)
    ensures forall t :: t in plan.transitions <==> d.TransitionRow(t)
    ensures forall ev :: ev in plan.events <==> d.EventRow(ev)
    ensures plan.minted == seq(|d.MintKeys()|, i requires 0 <= i => factory(i))
  {
    d := Decide(prior, groups, factory);
    var assignments := PlanAssignments(d);
    var transitions := PlanTransitions(d);
    var events := PlanEvents(d);
    plan := Plan(assignments, transitions, events, seq(|d.MintKeys()|, i requires 0 <= i => factory(i)));
  }

  method PlanAssignments(d: Decision) returns (rows: set<(Key, Id)>)
    requires d.Sound()
    ensures forall x, e :: (x, e) in rows <==> d.AssignmentRow(x, e)
  {
    var grouped := Collect(d.groups.Keys, k requires d.Sound() && k in d.groups => AssignmentsOf(d, k));
    rows := grouped + set o | o in d.Orphans() :: (o, d.minted[o]);
  }

  method PlanTransitions(d: Decision) returns (rows: set<Transition>)
    requires d.Sound()
    ensures forall t :: t in rows <==> d.TransitionRow(t)
  {
    var grouped := Collect(d.groups.Keys, k requires d.Sound() && k in d.groups => TransitionsOf(d, k));
    var former := Collect(d.prior.Keys, e requires d.Sound() && e in d.prior => EntityTransitionsOf(d, e));
    rows := grouped + former + set o | o in d.Orphans() :: Transition(d.minted[o], Active, None, true);
  }

  method PlanEvents(d: Decision) returns (rows: set<Event>)
    requires d.Sound()
    ensures forall ev :: ev in rows <==> d.EventRow(ev)
  {
    var grouped := Collect(d.groups.Keys, k requires d.Sound() && k in d.groups => EventsOf(d, k));
    var former := Collect(d.prior.Keys, e requires d.Sound() && e in d.prior => EntityEventsOf(d, e));
    rows := grouped + former + set o | o in d.Orphans() :: Created(d.minted[o], {o});
  }
}
