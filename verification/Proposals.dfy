/** Validating the actions a model proposes, and who may be offered them. */
module Proposals {
  import opened Wrappers
  import opened JsText

  datatype Kind = ResolveReview | SuppressRecord | UnsuppressRecord | ProtectRecord | UnprotectRecord
  datatype Resolution = Match | NoMatch | DismissReview

  /** A field of the model's reply: text, or anything else. */
  datatype Text = Absent | Text(value: seq<Unit>)
  /** A field with a closed vocabulary: a word of it, or anything else. */
  datatype Word<T> = Outside | Word(value: T)

  datatype Entry = NotObject | Object(kind: Word<Kind>, subject: Text, resolution: Word<Resolution>, rationale: Text)
  datatype Reply = NotArray | Array(entries: seq<Entry>)

  datatype Action = Action(kind: Kind, subject: seq<Unit>, resolution: Option<Resolution>, rationale: seq<Unit>)

  const SUBJECT_MAX := 200
  const RATIONALE_MAX := 300
  const MAX_PROPOSALS := 3

  function Slice(s: seq<Unit>, n: nat): seq<Unit> {
    if |s| <= n then s else s[..n]
  }

  /** The action an entry proposes, when it is well formed. */
  function Valid(e: Entry): Option<Action> {
    if e.NotObject? || e.kind.Outside? || e.subject.Absent? then None
    else if TrimUnits(e.subject.value) == [] || |e.subject.value| > SUBJECT_MAX then None
    else if e.kind.value == ResolveReview && e.resolution.Outside? then None
    else Some(Action(
      e.kind.value, TrimUnits(e.subject.value),
      if e.kind.value == ResolveReview then Some(e.resolution.value) else None,
      if e.rationale.Text? then Slice(TrimUnits(e.rationale.value), RATIONALE_MAX) else []))
  }

  predicate Same(a: Action, b: Action) {
    a.kind == b.kind && a.subject == b.subject
  }

  predicate Contains(actions: seq<Action>, a: Action) {
    exists i :: 0 <= i < |actions| && Same(actions[i], a)
  }

  // ---- the specification: valid, first of each, at most three --------------------------

  function ValidOf(entries: seq<Entry>): seq<Action> {
    if entries == [] then [] else
      var rest := ValidOf(entries[..|entries| - 1]);
      var last := Valid(entries[|entries| - 1]);
      if last.Some? then rest + [last.value] else rest
  }

  function Firsts(actions: seq<Action>): seq<Action> {
    if actions == [] then [] else
      var rest := Firsts(actions[..|actions| - 1]);
      if Contains(rest, actions[|actions| - 1]) then rest else rest + [actions[|actions| - 1]]
  }

  function Capped(actions: seq<Action>): seq<Action> {
    if |actions| <= MAX_PROPOSALS then actions else actions[..MAX_PROPOSALS]
  }

  function Parsed(entries: seq<Entry>): seq<Action> {
    Capped(Firsts(ValidOf(entries)))
  }

  lemma {:induction false} ValidAppend(xs: seq<Entry>, ys: seq<Entry>)
    ensures ValidOf(xs + ys) == ValidOf(xs) + ValidOf(ys)
    decreases |ys|
  {
    if ys == [] {
      assert xs + ys == xs;
    } else {
      ValidAppend(xs, ys[..|ys| - 1]);
      assert (xs + ys)[..|xs + ys| - 1] == xs + ys[..|ys| - 1];
    }
  }

  lemma {:induction false} FirstsGrow(xs: seq<Action>, ys: seq<Action>)
    ensures Firsts(xs) <= Firsts(xs + ys)
    decreases |ys|
  {
    if ys == [] {
      assert xs + ys == xs;
    } else {
      FirstsGrow(xs, ys[..|ys| - 1]);
      assert (xs + ys)[..|xs + ys| - 1] == xs + ys[..|ys| - 1];
    }
  }

  /** What is proposed first stays: more entries only add to the result. */
  lemma ParsedPrefix(xs: seq<Entry>, ys: seq<Entry>)
    ensures Parsed(xs) <= Parsed(xs + ys)
  {
    ValidAppend(xs, ys);
    FirstsGrow(ValidOf(xs), ValidOf(ys));
  }

  lemma {:induction false} FirstsDistinct(actions: seq<Action>)
    ensures forall i, j :: 0 <= i < j < |Firsts(actions)| ==> !Same(Firsts(actions)[i], Firsts(actions)[j])
  {
    if actions != [] {
      FirstsDistinct(actions[..|actions| - 1]);
    }
  }

  // ---- the loop ---------------------------------------------------------------------------

  lemma EntryStep(xs: seq<Entry>, e: Entry)
    ensures Firsts(ValidOf(xs + [e])) ==
      if Valid(e).Some? && !Contains(Firsts(ValidOf(xs)), Valid(e).value) then Firsts(ValidOf(xs)) + [Valid(e).value] else Firsts(ValidOf(xs))
  {
  }

  lemma EntryAt(entries: seq<Entry>, n: nat)
    requires n < |entries|
    ensures var out, action := Firsts(ValidOf(entries[..n])), Valid(entries[n]);
      Firsts(ValidOf(entries[..n + 1])) == if action.Some? && !Contains(out, action.value) then out + [action.value] else out
  {
    EntryStep(entries[..n], entries[n]);
    assert entries[..n + 1] == entries[..n] + [entries[n]];
  }

  /** Three found: whatever follows adds nothing. */
  lemma Saturated(entries: seq<Entry>, n: nat)
    requires n <= |entries| && |Firsts(ValidOf(entries[..n]))| == MAX_PROPOSALS
    ensures Parsed(entries) == Firsts(ValidOf(entries[..n]))
  {
    ParsedPrefix(entries[..n], entries[n..]);
    assert entries[..n] + entries[n..] == entries;
  }

  method ParseProposals(reply: Reply) returns (out: seq<Action>)
    ensures out == if reply.NotArray? then [] else Parsed(reply.entries)
  {
    out := [];
    if reply.NotArray? {
      return;
    }
    var entries := reply.entries;
    for n := 0 to |entries|
      invariant out == Firsts(ValidOf(entries[..n])) && |out| <= MAX_PROPOSALS
    {
      if |out| >= MAX_PROPOSALS {
        Saturated(entries, n);
        return;
      }
      EntryAt(entries, n);
      var action := Valid(entries[n]);
      if action.Some? && !Contains(out, action.value) {
        out := out + [action.value];
      }
    }
    assert entries[..|entries|] == entries;
  }

  // ---- which entries are taken, and what is made of them ---------------------------------

  /** An entry a proposal is made of: a known kind, a subject that is not blank and not over
      two hundred units long, and for a review verdict a known resolution. */
  predicate Acceptable(e: Entry) {
    && e.Object? && e.kind.Word? && e.subject.Text?
    && TrimUnits(e.subject.value) != [] && |e.subject.value| <= 200
    && (e.kind == Word(ResolveReview) ==> e.resolution.Word?)
  }

  /** The action is what the entry says: its kind, its subject without outer space, its
      resolution for a review verdict and none otherwise, and the first three hundred units
      of its trimmed rationale. */
  predicate Says(e: Entry, a: Action) {
    && e.Object? && e.kind == Word(a.kind) && e.subject.Text? && a.subject == TrimUnits(e.subject.value)
    && (if a.kind == ResolveReview then a.resolution.Some? && e.resolution == Word(a.resolution.value) else a.resolution == None)
    && (if e.rationale.Text? then a.rationale <= TrimUnits(e.rationale.value) && |a.rationale| == Least(300, |TrimUnits(e.rationale.value)|) else a.rationale == [])
  }

  function Least(x: nat, y: nat): nat {
    if x < y then x else y
  }

  lemma ValidMeaning(e: Entry)
    ensures Valid(e).Some? <==> Acceptable(e)
    ensures Valid(e).Some? ==> Says(e, Valid(e).value)
  {
  }

  /** Two entries propose the same thing to the same subject. */
  predicate Repeats(e: Entry, f: Entry) {
    Acceptable(e) && Acceptable(f) && e.kind == f.kind && TrimUnits(e.subject.value) == TrimUnits(f.subject.value)
  }

  /** The first acceptable entry of its kind and subject. */
  predicate New(entries: seq<Entry>, i: nat) {
    i < |entries| && Acceptable(entries[i]) && forall j :: 0 <= j < i ==> !Repeats(entries[j], entries[i])
  }

  /** How many of those stand before. */
  function NewBefore(entries: seq<Entry>, n: nat): nat
    requires n <= |entries|
  {
    if n == 0 then 0 else NewBefore(entries, n - 1) + if New(entries, n - 1) then 1 else 0
  }

  /** The actions found so far are those of the new entries, in order. */
  ghost predicate Tracks(entries: seq<Entry>, n: nat, found: seq<Action>)
    requires n <= |entries|
  {
    && |found| == NewBefore(entries, n)
    && (forall i: nat :: i < n && New(entries, i) ==> NewBefore(entries, i) < |found| && Says(entries[i], found[NewBefore(entries, i)]))
    && (forall a :: Contains(found, a) <==> exists j :: 0 <= j < n && Covers(entries[j], a))
  }

  /** The entry proposes the same thing as the action. */
  predicate Covers(e: Entry, a: Action) {
    Acceptable(e) && e.kind == Word(a.kind) && TrimUnits(e.subject.value) == a.subject
  }

  lemma {:induction false} FirstsTrack(entries: seq<Entry>, n: nat)
    requires n <= |entries|
    ensures Tracks(entries, n, Firsts(ValidOf(entries[..n])))
  {
    if n > 0 {
      FirstsTrack(entries, n - 1);
      EntryAt(entries, n - 1);
      TrackNext(entries, n - 1, Firsts(ValidOf(entries[..n - 1])));
    } else {
      assert entries[..0] == [];
    }
  }

  lemma TrackNext(entries: seq<Entry>, n: nat, found: seq<Action>)
    requires n < |entries| && Tracks(entries, n, found)
    ensures var a := Valid(entries[n]);
      Tracks(entries, n + 1, if a.Some? && !Contains(found, a.value) then found + [a.value] else found)
  {
    var e, a := entries[n], Valid(entries[n]);
    ValidMeaning(e);
    var next := if a.Some? && !Contains(found, a.value) then found + [a.value] else found;
    if a.Some? {
      NewIffAbsent(entries, n, found, a.value);
    }
    forall i: nat | i < n + 1 && New(entries, i)
      ensures NewBefore(entries, i) < |next| && Says(entries[i], next[NewBefore(entries, i)])
    {
      if i < n {
        assert next[NewBefore(entries, i)] == found[NewBefore(entries, i)];
      }
    }
    forall b
      ensures Contains(next, b) <==> exists j :: 0 <= j < n + 1 && Covers(entries[j], b)
    {
      ContainsNext(entries, n, found, next, b);
    }
  }

  lemma NewIffAbsent(entries: seq<Entry>, n: nat, found: seq<Action>, a: Action)
    requires n < |entries| && Tracks(entries, n, found) && Valid(entries[n]) == Some(a)
    ensures New(entries, n) <==> !Contains(found, a)
  {
    ValidMeaning(entries[n]);
    forall j | 0 <= j < n
      ensures Repeats(entries[j], entries[n]) <==> Covers(entries[j], a)
    {
    }
  }

  lemma ContainsNext(entries: seq<Entry>, n: nat, found: seq<Action>, next: seq<Action>, b: Action)
    requires n < |entries| && Tracks(entries, n, found)
    requires var a := Valid(entries[n]); next == if a.Some? && !Contains(found, a.value) then found + [a.value] else found
    ensures Contains(next, b) <==> exists j :: 0 <= j < n + 1 && Covers(entries[j], b)
  {
    var a := Valid(entries[n]);
    ValidMeaning(entries[n]);
    assert Covers(entries[n], b) <==> a.Some? && Same(a.value, b);
    if Contains(found, b) {
      var i :| 0 <= i < |found| && Same(found[i], b);
      assert next[i] == found[i];
    }
    if a.Some? && Same(a.value, b) {
      if Contains(found, a.value) {
        var i :| 0 <= i < |found| && Same(found[i], a.value);
        assert Same(next[i], b);
      } else {
        assert next[|found|] == a.value;
      }
    }
  }

  /** The result, exactly: one action for each of the first three entries that are
      acceptable and repeat none before them, in their order, each what its entry says. */
  lemma ParsedExactly(entries: seq<Entry>)
    ensures |Parsed(entries)| == Least(3, NewBefore(entries, |entries|))
    ensures forall i: nat :: New(entries, i) && NewBefore(entries, i) < 3 ==>
      NewBefore(entries, i) < |Parsed(entries)| && Says(entries[i], Parsed(entries)[NewBefore(entries, i)])
  {
    FirstsTrack(entries, |entries|);
    assert entries[..|entries|] == entries;
  }

  /** Every action comes from such an entry. */
  lemma {:induction false} ActionFrom(entries: seq<Entry>, n: nat, k: nat) returns (i: nat)
    requires n <= |entries| && k < NewBefore(entries, n)
    ensures i < n && New(entries, i) && NewBefore(entries, i) == k
    decreases n
  {
    if New(entries, n - 1) && NewBefore(entries, n - 1) == k {
      i := n - 1;
    } else {
      i := ActionFrom(entries, n - 1, k);
    }
  }

  // ---- parsing what was parsed ---------------------------------------------------------------

  /** An action as the reply it could have come from. */
  function Reply1(a: Action): Entry {
    Object(Word(a.kind), Text(a.subject), if a.resolution.Some? then Word(a.resolution.value) else Outside, Text(a.rationale))
  }

  function Replies(actions: seq<Action>): seq<Entry> {
    seq(|actions|, i requires 0 <= i < |actions| => Reply1(actions[i]))
  }

  ghost predicate FromEntry(a: Action) {
    exists e :: Valid(e) == Some(a)
  }

  /** Equal but for the rationale, whose cut may leave an outer space. */
  predicate Alike(a: Action, b: Action) {
    a.kind == b.kind && a.subject == b.subject && a.resolution == b.resolution
  }

  lemma ValidAgain(a: Action)
    requires FromEntry(a)
    ensures Valid(Reply1(a)).Some? && Alike(Valid(Reply1(a)).value, a)
  {
    var e :| Valid(e) == Some(a);
    TrimTidy(e.subject.value, IsSpaceUnit);
    TrimTidy(a.subject, IsSpaceUnit);
  }

  lemma {:induction false} ParsedFromEntries(entries: seq<Entry>)
    ensures forall i :: 0 <= i < |Firsts(ValidOf(entries))| ==> FromEntry(Firsts(ValidOf(entries))[i])
  {
    if entries != [] {
      var init, e := entries[..|entries| - 1], entries[|entries| - 1];
      ParsedFromEntries(init);
      EntryStep(init, e);
      assert entries == init + [e];
    }
  }

  ghost predicate AllAlike(xs: seq<Action>, ys: seq<Action>) {
    |xs| == |ys| && forall i :: 0 <= i < |xs| ==> Alike(xs[i], ys[i])
  }

  lemma {:induction false} FirstsAgain(actions: seq<Action>)
    requires forall i :: 0 <= i < |actions| ==> FromEntry(actions[i])
    requires forall i, j :: 0 <= i < j < |actions| ==> !Same(actions[i], actions[j])
    ensures AllAlike(Firsts(ValidOf(Replies(actions))), actions)
  {
    if actions != [] {
      var init, a := actions[..|actions| - 1], actions[|actions| - 1];
      FirstsAgain(init);
      ValidAgain(a);
      RepliesSnoc(init, a);
      assert actions == init + [a];
      EntryStep(Replies(init), Reply1(a));
      StillNew(Firsts(ValidOf(Replies(init))), init, Valid(Reply1(a)).value, a);
      AlikeSnoc(Firsts(ValidOf(Replies(init))), init, Valid(Reply1(a)).value, a);
    }
  }

  lemma RepliesSnoc(init: seq<Action>, a: Action)
    ensures Replies(init + [a]) == Replies(init) + [Reply1(a)]
  {
  }

  lemma AlikeSnoc(xs: seq<Action>, ys: seq<Action>, x: Action, y: Action)
    requires AllAlike(xs, ys) && Alike(x, y)
    ensures AllAlike(xs + [x], ys + [y])
  {
  }

  lemma StillNew(again: seq<Action>, actions: seq<Action>, b: Action, a: Action)
    requires |again| == |actions| && forall i :: 0 <= i < |actions| ==> Alike(again[i], actions[i])
    requires Alike(b, a) && forall i :: 0 <= i < |actions| ==> !Same(actions[i], a)
    ensures !Contains(again, b)
  {
  }

  /** Parsing the result again keeps its length, kinds, subjects and resolutions. */
  lemma ParsedTwice(entries: seq<Entry>)
    ensures var once := Parsed(entries);
      var twice := Parsed(Replies(once));
      |twice| == |once| && forall i :: 0 <= i < |once| ==> Alike(twice[i], once[i])
  {
    ParsedFromEntries(entries);
    FirstsDistinct(ValidOf(entries));
    FirstsAgain(Parsed(entries));
  }

  /** What may be offered: at most three, distinct, each with a subject and each
      review verdict explicit. */
  lemma ParsedSound(entries: seq<Entry>)
    ensures var out := Parsed(entries);
      && |out| <= MAX_PROPOSALS
      && (forall i, j :: 0 <= i < j < |out| ==> !Same(out[i], out[j]))
      && (forall i :: 0 <= i < |out| ==> out[i].subject != [] && |out[i].subject| <= SUBJECT_MAX && |out[i].rationale| <= RATIONALE_MAX && (out[i].kind == ResolveReview <==> out[i].resolution.Some?))
  {
    ParsedFromEntries(entries);
    FirstsDistinct(ValidOf(entries));
    var out := Parsed(entries);
    forall i | 0 <= i < |out|
      ensures out[i].subject != [] && |out[i].subject| <= SUBJECT_MAX && |out[i].rationale| <= RATIONALE_MAX && (out[i].kind == ResolveReview <==> out[i].resolution.Some?)
    {
      assert FromEntry(Firsts(ValidOf(entries))[i]);
      var e :| Valid(e) == Some(out[i]);
      TrimTidy(e.subject.value, IsSpaceUnit);
    }
  }

  // ---- the role gate ---------------------------------------------------------------------------

  datatype Role = Viewer | Steward | Admin | NoRole

  predicate CanBeOffered(role: Role) {
    role == Steward || role == Admin
  }

  function MinimumRole(kind: Kind): Role {
    Steward
  }

  function Allowed(actions: seq<Action>, role: Role): seq<Action> {
    if !CanBeOffered(role) then [] else Performable(actions, role)
  }

  function Performable(actions: seq<Action>, role: Role): seq<Action> {
    if actions == [] then [] else
      var rest := Performable(actions[1..], role);
      var ok := if MinimumRole(actions[0].kind) == Steward then role == Steward || role == Admin else role == Admin;
      if ok then [actions[0]] + rest else rest
  }

  /** Stewards and admins get every proposal; viewers and unresolved sessions none. */
  lemma {:induction false} GateWhole(actions: seq<Action>, role: Role)
    ensures Allowed(actions, role) == if role == Steward || role == Admin then actions else []
  {
    if actions != [] {
      GateWhole(actions[1..], role);
    }
  }
}
