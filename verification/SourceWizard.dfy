/** The new-source wizard: drafting, publishing and uploading in order, re-entered
    at the phase that failed, and the rank a new source starts with. */
module SourceWizard {
  import opened Wrappers

  datatype Phase = Draft | Publish | Upload
  datatype Activation = Activation(phase: Phase, running: bool, failed: bool)

  /** One request the wizard sends, with its outcome. */
  datatype Request =
    | DraftFailed | DraftMade(version: int)
    | PublishFailed(version: int) | Published(version: int)
    | UploadFailed | Uploaded

  /** What a call meets: whether the base config is read, what drafting gives
      (nothing is sent when the source block cannot be added), whether publishing
      succeeds, whether the file is still held, whether the upload succeeds. */
  datatype Drafting = BlockRefused | Refused | Made(version: int)
  datatype World = World(base: bool, draft: Drafting, publishes: bool, held: bool, uploads: bool)

  datatype State = State(activation: Option<Activation>, draftVersion: Option<int>, requests: seq<Request>, navigated: bool)

  const START := State(None, None, [], false)

  function Fail(s: State, phase: Phase): State {
    s.(activation := Some(Activation(phase, false, true)))
  }

  function SendDraft(s: State, w: World): (State, bool) {
    if !w.base then (Fail(s, Draft), false)
    else match w.draft
      case BlockRefused => (Fail(s, Draft), false)
      case Refused => (Fail(s.(requests := s.requests + [DraftFailed]), Draft), false)
      case Made(v) => (s.(requests := s.requests + [DraftMade(v)], draftVersion := Some(v)), true)
  }

  function SendPublish(s: State, w: World): (State, bool) {
    match s.draftVersion
    case None => (Fail(s, Publish), false)
    case Some(v) =>
      if w.publishes then (s.(requests := s.requests + [Published(v)]), true)
      else (Fail(s.(requests := s.requests + [PublishFailed(v)]), Publish), false)
  }

  function SendUpload(s: State, w: World): State {
    if !w.held then Fail(s, Upload)
    else if w.uploads then
      s.(requests := s.requests + [Uploaded], activation := Some(Activation(Upload, true, false)), navigated := true)
    else Fail(s.(requests := s.requests + [UploadFailed]), Upload)
  }

  /** The pipeline from a phase on: each phase runs only if the one before it did. */
  function Activated(s: State, from: Phase, w: World): State {
    var (drafted, ok) := if from == Draft then SendDraft(s, w) else (s, true);
    if !ok then drafted
    else
      var (published, ok2) := if from != Upload then SendPublish(drafted, w) else (drafted, true);
      if !ok2 then published else SendUpload(published, w)
  }

  function DraftSaved(s: State, w: World): State {
    if !w.base then s
    else match w.draft
      case BlockRefused => s
      case Refused => s.(requests := s.requests + [DraftFailed])
      case Made(v) => s.(requests := s.requests + [DraftMade(v)], draftVersion := Some(v))
  }

  class Pipeline {
    var activation: Option<Activation>
    var draftVersion: Option<int>
    var requests: seq<Request>
    var navigated: bool

    constructor ()
      ensures Now() == START
    {
      activation, draftVersion, requests, navigated := None, None, [], false;
    }

    function Now(): State
      reads this
    {
      State(activation, draftVersion, requests, navigated)
    }

    method SaveDraft(w: World)
      modifies this
      ensures Now() == DraftSaved(old(Now()), w)
    {
      if !w.base || w.draft.BlockRefused? {
        return;
      }
      if w.draft.Refused? {
        requests := requests + [DraftFailed];
        return;
      }
      requests := requests + [DraftMade(w.draft.version)];
      draftVersion := Some(w.draft.version);
    }

    /** Activate, from a phase on; every call ends failed and not running, or by
        leaving the page. */
    method Activate(from: Phase, w: World)
      requires !navigated
      modifies this
      ensures Now() == Activated(old(Now()), from, w)
      ensures navigated || (activation.Some? && activation.value.failed && !activation.value.running)
    {
      var version := draftVersion;
      if from == Draft {
        activation := Some(Activation(Draft, true, false));
        if !w.base || w.draft.BlockRefused? {
          activation := Some(Activation(Draft, false, true));
          return;
        }
        if w.draft.Refused? {
          requests := requests + [DraftFailed];
          activation := Some(Activation(Draft, false, true));
          return;
        }
        requests := requests + [DraftMade(w.draft.version)];
        version := Some(w.draft.version);
        draftVersion := version;
      }
      if from == Draft || from == Publish {
        activation := Some(Activation(Publish, true, false));
        if version.None? {
          activation := Some(Activation(Publish, false, true));
          return;
        }
        if !w.publishes {
          requests := requests + [PublishFailed(version.value)];
          activation := Some(Activation(Publish, false, true));
          return;
        }
        requests := requests + [Published(version.value)];
      }
      activation := Some(Activation(Upload, true, false));
      if !w.held {
        activation := Some(Activation(Upload, false, true));
        return;
      }
      if w.uploads {
        requests := requests + [Uploaded];
        navigated := true;
      } else {
        requests := requests + [UploadFailed];
        activation := Some(Activation(Upload, false, true));
      }
    }
  }

  // ---- the legal request sequences ----------------------------------------------------

  /** How far a request sequence has come. */
  datatype Stage = Drafting | Publishing(version: int) | Uploading(version: int) | Finished

  function Advance(stage: Stage, r: Request): Option<Stage> {
    match (stage, r)
    case (Drafting, DraftFailed) => Some(Drafting)
    case (Drafting, DraftMade(v)) => Some(Publishing(v))
    case (Publishing(v), PublishFailed(u)) => if u == v then Some(stage) else None
    case (Publishing(v), Published(u)) => if u == v then Some(Uploading(v)) else None
    case (Uploading(_), UploadFailed) => Some(stage)
    case (Uploading(_), Uploaded) => Some(Finished)
    case _ => None
  }

  /** Failed drafts, one draft, failed publishes of it, one publish of it, failed
      uploads, one upload: a sequence is legal when it is a prefix of such a one. */
  function Reached(requests: seq<Request>): Option<Stage> {
    if requests == [] then Some(Drafting) else
      match Reached(requests[..|requests| - 1])
      case None => None
      case Some(stage) => Advance(stage, requests[|requests| - 1])
  }

  /** What a call records is what it met: every request sent, and none not sent, with the
      outcome the world gave it. */
  lemma OutcomesRecorded(s: State, from: Phase, w: World)
    ensures var t := Activated(s, from, w);
      var version := if from == Draft && w.draft.Made? then Some(w.draft.version) else s.draftVersion;
      var drafts := if from == Draft && w.base && !w.draft.BlockRefused? then [if w.draft.Made? then DraftMade(w.draft.version) else DraftFailed] else [];
      var drafted := from != Draft || (w.base && w.draft.Made?);
      var publishes := if drafted && from != Upload && version.Some? then [if w.publishes then Published(version.value) else PublishFailed(version.value)] else [];
      var published := drafted && (from == Upload || (version.Some? && w.publishes));
      var uploads := if published && w.held then [if w.uploads then Uploaded else UploadFailed] else [];
      && t.requests == s.requests + drafts + publishes + uploads
      && t.navigated == (s.navigated || (published && w.held && w.uploads))
      && t.draftVersion == (if drafted && from == Draft then Some(w.draft.version) else s.draftVersion)
      && t.activation == Some(Activation(
        if !drafted then Draft else if !published then Publish else Upload,
        published && w.held && w.uploads, !(published && w.held && w.uploads)))
  {
    assert s.requests + [] == s.requests;
  }

  /** Saving a draft records its outcome and starts nothing. */
  lemma DraftRecorded(s: State, w: World)
    ensures var t := DraftSaved(s, w);
      && t.requests == s.requests + (if !w.base || w.draft.BlockRefused? then [] else if w.draft.Made? then [DraftMade(w.draft.version)] else [DraftFailed])
      && t.draftVersion == (if w.base && w.draft.Made? then Some(w.draft.version) else s.draftVersion)
      && t.activation == s.activation && t.navigated == s.navigated
  {
    assert s.requests + [] == s.requests;
  }

  /** What the screens offer: each button with the state it is shown in. */
  datatype Action = Save(w: World) | Begin(w: World) | Retry(w: World) | Dismiss

  predicate Offered(s: State, a: Action) {
    && !s.navigated
    && match s.activation
      case Some(act) => act.failed && (a.Retry? || (a.Dismiss? && act.phase != Upload))
      case None => s.draftVersion.None? && (a.Save? || a.Begin?)
  }

  function Taken(s: State, a: Action): State {
    match a
    case Save(w) => DraftSaved(s, w)
    case Begin(w) => Activated(s, Draft, w)
    case Retry(w) => if s.activation.Some? then Activated(s, s.activation.value.phase, w) else s
    case Dismiss => s.(activation := None)
  }

  /** The screen shown agrees with how far the requests have come. */
  ghost predicate Agrees(s: State) {
    match Reached(s.requests)
    case None => false
    case Some(Drafting) => !s.navigated && s.draftVersion.None? && (s.activation.Some? ==> s.activation.value == Activation(Draft, false, true))
    case Some(Publishing(v)) => !s.navigated && s.draftVersion == Some(v) && (s.activation.Some? ==> s.activation.value == Activation(Publish, false, true))
    case Some(Uploading(v)) => !s.navigated && s.draftVersion == Some(v) && s.activation == Some(Activation(Upload, false, true))
    case Some(Finished) => s.navigated
  }

  lemma Snoc(requests: seq<Request>, r: Request)
    ensures Reached(requests + [r]) == match Reached(requests) case None => None case Some(stage) => Advance(stage, r)
  {
  }

  lemma UploadAgrees(s: State, w: World, v: int)
    requires Reached(s.requests) == Some(Uploading(v)) && !s.navigated && s.draftVersion == Some(v)
    ensures Agrees(SendUpload(s, w))
  {
    Snoc(s.requests, Uploaded);
    Snoc(s.requests, UploadFailed);
  }

  lemma PublishAgrees(s: State, w: World, v: int)
    requires Reached(s.requests) == Some(Publishing(v)) && !s.navigated && s.draftVersion == Some(v)
    ensures Agrees(Activated(s, Publish, w))
  {
    Snoc(s.requests, Published(v));
    Snoc(s.requests, PublishFailed(v));
    if w.publishes {
      UploadAgrees(s.(requests := s.requests + [Published(v)]), w, v);
    }
  }

  lemma DraftAgrees(s: State, w: World)
    requires Reached(s.requests) == Some(Drafting) && !s.navigated && s.draftVersion.None?
    ensures Agrees(Activated(s, Draft, w))
  {
    Snoc(s.requests, DraftFailed);
    if w.base && w.draft.Made? {
      var v := w.draft.version;
      Snoc(s.requests, DraftMade(v));
      PublishAgrees(s.(requests := s.requests + [DraftMade(v)], draftVersion := Some(v)), w, v);
    }
  }

  lemma SaveAgrees(s: State, w: World)
    requires Agrees(s) && s.activation.None? && s.draftVersion.None? && !s.navigated
    ensures Agrees(DraftSaved(s, w))
  {
    Snoc(s.requests, DraftFailed);
    if w.draft.Made? {
      Snoc(s.requests, DraftMade(w.draft.version));
    }
  }

  lemma ActionAgrees(s: State, a: Action)
    requires Agrees(s) && Offered(s, a)
    ensures Agrees(Taken(s, a))
  {
    match a
    case Save(w) => SaveAgrees(s, w);
    case Begin(w) => DraftAgrees(s, w);
    case Dismiss =>
    case Retry(w) =>
      match s.activation.value.phase
      case Draft => DraftAgrees(s, w);
      case Publish => PublishAgrees(s, w, s.draftVersion.value);
      case Upload => UploadAgrees(s, w, s.draftVersion.value);
  }

  ghost predicate Runs(s: State, actions: seq<Action>)
    decreases actions
  {
    actions == [] || (Offered(s, actions[0]) && Runs(Taken(s, actions[0]), actions[1..]))
  }

  function RunAll(s: State, actions: seq<Action>): State
    decreases actions
  {
    if actions == [] then s else RunAll(Taken(s, actions[0]), actions[1..])
  }

  lemma {:induction false} RunAgrees(s: State, actions: seq<Action>)
    requires Agrees(s) && Runs(s, actions)
    ensures Agrees(RunAll(s, actions))
    decreases actions
  {
    if actions != [] {
      ActionAgrees(s, actions[0]);
      RunAgrees(Taken(s, actions[0]), actions[1..]);
    }
  }

  /** A source is activated whatever fails on the way: after a failed publish and a failed
      upload, each retried at its own phase, one draft has been made and published once. */
  lemma RetriesComplete(version: int)
    ensures var ok := World(true, Made(version), true, true, true);
      var actions := [Begin(ok.(publishes := false)), Retry(ok.(uploads := false)), Retry(ok)];
      && Runs(START, actions) && RunAll(START, actions).navigated
      && RunAll(START, actions).requests == [DraftMade(version), PublishFailed(version), Published(version), UploadFailed, Uploaded]
  {
    var ok := World(true, Made(version), true, true, true);
    var first, second, third := Begin(ok.(publishes := false)), Retry(ok.(uploads := false)), Retry(ok);
    var actions := [first, second, third];
    assert actions[1..] == [second, third] && [second, third][1..] == [third] && [third][1..] == [];
    var s1 := Taken(START, first);
    assert s1 == State(Some(Activation(Publish, false, true)), Some(version), [DraftMade(version), PublishFailed(version)], false);
    var s2 := Taken(s1, second);
    assert s2 == State(Some(Activation(Upload, false, true)), Some(version), [DraftMade(version), PublishFailed(version), Published(version), UploadFailed], false);
    var s3 := Taken(s2, third);
    assert RunAll(s2, [third]) == RunAll(s3, []) && RunAll(s1, [second, third]) == RunAll(s2, [third]);
    assert Runs(s3, []) && Runs(s2, [third]) && Runs(s1, [second, third]);
  }

  /** Every run of the wizard sends a legal request sequence: in particular at most
      one draft is made, only that version is published, and nothing is uploaded
      before it is. */
  lemma ActivationTraces(actions: seq<Action>)
    requires Runs(START, actions)
    ensures var requests := RunAll(START, actions).requests;
      && Reached(requests).Some?
      && (forall i, j :: 0 <= i < j < |requests| ==> !(requests[i].DraftMade? && requests[j].DraftMade?))
      && (forall i :: 0 <= i < |requests| && requests[i].Published? ==> DraftMade(requests[i].version) in requests[..i])
      && (forall i :: 0 <= i < |requests| && (requests[i].Uploaded? || requests[i].UploadFailed?) ==> exists j :: 0 <= j < i && requests[j].Published?)
  {
    RunAgrees(START, actions);
    var requests := RunAll(START, actions).requests;
    forall j | 0 <= j < |requests|
      ensures Preceded(requests[..j], requests[j])
    {
      LegalAt(requests, j);
    }
    forall i, j | 0 <= i < j < |requests|
      ensures !(requests[i].DraftMade? && requests[j].DraftMade?)
    {
      assert requests[..j][i] == requests[i];
      LegalAt(requests, j);
    }
    forall i | 0 <= i < |requests| && (requests[i].Uploaded? || requests[i].UploadFailed?)
      ensures exists j :: 0 <= j < i && requests[j].Published?
    {
      LegalAt(requests, i);
      var j :| 0 <= j < |requests[..i]| && requests[..i][j].Published?;
      assert requests[j].Published?;
    }
  }

  /** What a stage says of the requests so far. */
  ghost predicate HistoryOf(requests: seq<Request>, stage: Stage) {
    && (stage.Drafting? ==> forall i :: 0 <= i < |requests| ==> requests[i] == DraftFailed)
    && (stage.Publishing? ==> DraftMade(stage.version) in requests)
    && (stage.Uploading? || stage.Finished? ==> exists j :: 0 <= j < |requests| && requests[j].Published?)
  }

  /** What a request says of those before it. */
  ghost predicate Preceded(before: seq<Request>, r: Request) {
    && (r.DraftMade? ==> forall i :: 0 <= i < |before| ==> before[i] == DraftFailed)
    && (r.Published? ==> DraftMade(r.version) in before)
    && (r.Uploaded? || r.UploadFailed? ==> exists j :: 0 <= j < |before| && before[j].Published?)
  }

  lemma {:induction false} Histories(requests: seq<Request>)
    requires Reached(requests).Some?
    ensures HistoryOf(requests, Reached(requests).value)
  {
    if requests != [] {
      var init, r := requests[..|requests| - 1], requests[|requests| - 1];
      assert requests == init + [r];
      Snoc(init, r);
      Histories(init);
      HistoryGrows(init, r);
    }
  }

  lemma HistoryGrows(init: seq<Request>, r: Request)
    requires Reached(init + [r]).Some? && Reached(init).Some? && HistoryOf(init, Reached(init).value)
    ensures HistoryOf(init + [r], Reached(init + [r]).value)
  {
    Snoc(init, r);
    var all := init + [r];
    assert all[|init|] == r && forall i :: 0 <= i < |init| ==> all[i] == init[i];
  }

  /** Every beginning of a legal sequence is legal. */
  lemma {:induction false} LegalBefore(requests: seq<Request>, n: nat)
    requires n <= |requests| && Reached(requests).Some?
    ensures Reached(requests[..n]).Some?
    decreases |requests|
  {
    if n < |requests| {
      LegalBefore(requests[..|requests| - 1], n);
      assert requests[..|requests| - 1][..n] == requests[..n];
    } else {
      assert requests[..n] == requests;
    }
  }

  lemma LegalAt(requests: seq<Request>, j: nat)
    requires j < |requests| && Reached(requests).Some?
    ensures Preceded(requests[..j], requests[j])
  {
    LegalBefore(requests, j);
    LegalBefore(requests, j + 1);
    assert requests[..j + 1] == requests[..j] + [requests[j]];
    Snoc(requests[..j], requests[j]);
    Histories(requests[..j]);
  }

  // ---- the rank a new source starts with ---------------------------------------------------

  lemma {:induction false} Crowded(used: set<int>, n: nat)
    requires forall r :: 1 <= r <= n ==> r in used
    ensures n <= |used|
    decreases n
  {
    if n > 0 {
      Crowded(used - {n}, n - 1);
    }
  }

  /** The least positive rank not in use, at most one past how many are. */
  method NextFreeRank(used: set<int>) returns (rank: int)
    ensures rank >= 1 && rank !in used
    ensures forall r :: 1 <= r < rank ==> r in used
    ensures rank <= |used| + 1
  {
    rank := 1;
    while rank in used
      invariant rank >= 1 && forall r :: 1 <= r < rank ==> r in used
      decreases |used| + 1 - rank
    {
      Crowded(used, rank);
      rank := rank + 1;
    }
    Crowded(used, rank - 1);
  }
}
