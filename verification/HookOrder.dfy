/** The chart gate on install order: a pod that runs as a pre-install hook may not
    name a service account that might not exist yet. */
module HookOrder {
  import opened Wrappers

  type Name = int

  /** Which hook annotations a manifest carries, if any. */
  datatype Hook = Hook(preInstall: bool, preUpgrade: bool)

  /** One manifest of the render: an account or not, its hook annotation and
      weight, and the account its pod template names, if it has one. */
  datatype Doc = Doc(account: bool, name: Name, hook: Option<Hook>, weight: int, pod: bool, runsAs: Option<Name>)

  datatype Problem = Released(pod: Name, account: Name) | TooLate(pod: Name, account: Name) | NothingExamined

  predicate HookAccount(d: Doc) {
    d.account && d.hook.Some?
  }

  predicate PlainAccount(d: Doc) {
    d.account && d.hook.None?
  }

  /** A pod run before the release: what the gate examines. */
  predicate PrePod(d: Doc) {
    d.pod && d.hook.Some? && (d.hook.value.preInstall || d.hook.value.preUpgrade)
  }

  /** Weights by account name, the last manifest of a name deciding. */
  function Weights(docs: seq<Doc>): map<Name, int> {
    if docs == [] then map[] else
      var rest, d := Weights(docs[..|docs| - 1]), docs[|docs| - 1];
      if HookAccount(d) then rest[d.name := d.weight] else rest
  }

  function Plain(docs: seq<Doc>): set<Name> {
    set d | d in docs && PlainAccount(d) :: d.name
  }

  /** What the gate says of one pod. */
  function Complaint(docs: seq<Doc>, d: Doc): Option<Problem> {
    if d.runsAs.None? then None
    else if d.runsAs.value in Plain(docs) then Some(Released(d.name, d.runsAs.value))
    else if d.runsAs.value in Weights(docs) && Weights(docs)[d.runsAs.value] >= d.weight then Some(TooLate(d.name, d.runsAs.value))
    else None
  }

  method Check(docs: seq<Doc>) returns (problems: seq<Problem>)
    ensures forall p :: p in problems <==>
      (exists d :: d in docs && PrePod(d) && Complaint(docs, d) == Some(p)) || (p == NothingExamined && forall d :: d in docs ==> !PrePod(d))
  {
    var hookAccounts: map<Name, int>, plainAccounts: set<Name> := map[], {};
    for n := 0 to |docs|
      invariant hookAccounts == Weights(docs[..n]) && plainAccounts == Plain(docs[..n])
    {
      var d := docs[n];
      assert docs[..n + 1] == docs[..n] + [d];
      if d.account {
        if d.hook.Some? {
          hookAccounts := hookAccounts[d.name := d.weight];
        } else {
          plainAccounts := plainAccounts + {d.name};
        }
      }
    }
    assert docs[..|docs|] == docs;
    problems := [];
    var examined := 0;
    for n := 0 to |docs|
      invariant examined > 0 <==> exists i :: 0 <= i < n && PrePod(docs[i])
      invariant examined >= 0
      invariant forall p :: p in problems <==> exists i :: 0 <= i < n && PrePod(docs[i]) && Complaint(docs, docs[i]) == Some(p)
    {
      var d := docs[n];
      if PrePod(d) {
        examined := examined + 1;
        var complaint := Complaint(docs, d);
        if complaint.Some? {
          problems := problems + [complaint.value];
        }
      }
    }
    if examined == 0 {
      problems := problems + [NothingExamined];
    }
  }

  // ---- install orders --------------------------------------------------------------------

  /** A chart is applied at an install and at every upgrade, each with hooks of its own. */
  datatype Phase = Install | Upgrade

  /** Run as a hook before this phase. */
  predicate Pre(phase: Phase, d: Doc) {
    d.hook.Some? && match phase case Install => d.hook.value.preInstall case Upgrade => d.hook.value.preUpgrade
  }

  /** What Helm promises of a phase: the hooks before it by weight, and all of them before
      anything that is not one. */
  predicate MayPrecede(phase: Phase, d: Doc, e: Doc) {
    if Pre(phase, d) then Pre(phase, e) ==> d.weight <= e.weight else !Pre(phase, e)
  }

  ghost predicate InstallOrder(phase: Phase, docs: seq<Doc>, order: seq<Doc>) {
    && multiset(order) == multiset(docs)
    && forall i, j :: 0 <= i < j < |order| ==> MayPrecede(phase, order[i], order[j])
  }

  /** When the pod at i starts, an account of that name has been applied in this phase,
      which is what an account needs that was not there before it. */
  ghost predicate AccountExists(order: seq<Doc>, i: nat, name: Name) {
    exists j :: 0 <= j < i && j < |order| && order[j].account && order[j].name == name
  }

  lemma {:induction false} WeightsMeaning(docs: seq<Doc>, name: Name)
    ensures name in Weights(docs) <==> exists d :: d in docs && HookAccount(d) && d.name == name
    ensures name in Weights(docs) ==> exists d :: d in docs && HookAccount(d) && d.name == name && d.weight == Weights(docs)[name]
  {
    if docs != [] {
      WeightsMeaning(docs[..|docs| - 1], name);
      assert docs == docs[..|docs| - 1] + [docs[|docs| - 1]];
      assert docs[|docs| - 1] in docs;
    }
  }

  /** Soundness, at install and at upgrade: if the gate does not complain of a pod that
      runs before the phase, and an account hooked under the name it runs as runs before
      that phase too, then in every order of it an account of that name is there first. */
  lemma GateSound(phase: Phase, docs: seq<Doc>, order: seq<Doc>, i: nat)
    requires InstallOrder(phase, docs, order) && i < |order|
    requires Pre(phase, order[i]) && order[i].runsAs.Some? && Complaint(docs, order[i]).None?
    requires forall d :: d in docs && HookAccount(d) && d.name == order[i].runsAs.value ==> Pre(phase, d)
    requires exists d :: d in docs && d.account && d.name == order[i].runsAs.value
    ensures AccountExists(order, i, order[i].runsAs.value)
  {
    var name := order[i].runsAs.value;
    var declared :| declared in docs && declared.account && declared.name == name;
    WeightsMeaning(docs, name);
    assert name !in Plain(docs);
    assert HookAccount(declared);
    var d :| d in docs && HookAccount(d) && d.name == name && d.weight == Weights(docs)[name];
    assert d in multiset(order);
    var j :| 0 <= j < |order| && order[j] == d;
    assert j < i;
  }

  /** Pre-install hooks alone are not enough to assume: an account hooked to another
      phase passes the gate by its weight and is applied after the pod. */
  lemma OtherPhaseSlipsThrough()
    ensures var account := Doc(true, 1, Some(Hook(false, false)), 0, false, None);
      var pod := Doc(false, 2, Some(Hook(true, false)), 5, true, Some(1));
      Complaint([account, pod], pod).None? && InstallOrder(Install, [account, pod], [pod, account]) && !AccountExists([pod, account], 0, 1)
  {
  }

  /** The gate looks at every pod that runs before either phase, and at no other. */
  lemma Examined(d: Doc)
    ensures PrePod(d) <==> d.pod && (Pre(Install, d) || Pre(Upgrade, d))
  {
  }

  /** With no problem reported at all, every pod that runs before a phase finds the account
      it names, if that account runs before the phase too. */
  lemma SilentChart(phase: Phase, docs: seq<Doc>, order: seq<Doc>, i: nat)
    requires forall d :: d in docs && PrePod(d) ==> Complaint(docs, d).None?
    requires InstallOrder(phase, docs, order) && i < |order| && order[i].pod && Pre(phase, order[i]) && order[i].runsAs.Some?
    requires forall d :: d in docs && HookAccount(d) && d.name == order[i].runsAs.value ==> Pre(phase, d)
    requires exists d :: d in docs && d.account && d.name == order[i].runsAs.value
    ensures AccountExists(order, i, order[i].runsAs.value)
  {
    Examined(order[i]);
    assert order[i] in multiset(docs);
    GateSound(phase, docs, order, i);
  }

  // ---- every complaint is real -----------------------------------------------------------------

  /** An install order that favours one pod among equals. */
  predicate Favours(phase: Phase, pod: Doc, d: Doc, e: Doc) {
    if Pre(phase, d) != Pre(phase, e) then Pre(phase, d)
    else if Pre(phase, d) && d.weight != e.weight then d.weight < e.weight
    else d == pod || e != pod
  }

  function Insert(phase: Phase, pod: Doc, d: Doc, sorted: seq<Doc>): seq<Doc> {
    if sorted == [] || Favours(phase, pod, d, sorted[0]) then [d] + sorted
    else [sorted[0]] + Insert(phase, pod, d, sorted[1..])
  }

  function Arranged(phase: Phase, pod: Doc, docs: seq<Doc>): seq<Doc> {
    if docs == [] then [] else Insert(phase, pod, docs[0], Arranged(phase, pod, docs[1..]))
  }

  ghost predicate InFavour(phase: Phase, pod: Doc, order: seq<Doc>) {
    forall i, j :: 0 <= i < j < |order| ==> Favours(phase, pod, order[i], order[j])
  }

  lemma {:induction false} InsertKeeps(phase: Phase, pod: Doc, d: Doc, sorted: seq<Doc>)
    requires InFavour(phase, pod, sorted)
    ensures InFavour(phase, pod, Insert(phase, pod, d, sorted))
    ensures multiset(Insert(phase, pod, d, sorted)) == multiset{d} + multiset(sorted)
  {
    if sorted == [] || Favours(phase, pod, d, sorted[0]) {
      assert [d] + sorted == [d] + sorted;
    } else {
      var rest := Insert(phase, pod, d, sorted[1..]);
      InsertKeeps(phase, pod, d, sorted[1..]);
      assert sorted == [sorted[0]] + sorted[1..];
      forall j | 0 <= j < |rest|
        ensures Favours(phase, pod, sorted[0], rest[j])
      {
        assert rest[j] in multiset(rest);
        assert rest[j] == d || rest[j] in sorted[1..];
      }
    }
  }

  lemma {:induction false} ArrangedOrder(phase: Phase, pod: Doc, docs: seq<Doc>)
    ensures InFavour(phase, pod, Arranged(phase, pod, docs)) && multiset(Arranged(phase, pod, docs)) == multiset(docs)
  {
    if docs != [] {
      ArrangedOrder(phase, pod, docs[1..]);
      InsertKeeps(phase, pod, docs[0], Arranged(phase, pod, docs[1..]));
      assert docs == [docs[0]] + docs[1..];
    }
  }

  /** In the order that favours a pod, what it favours the pod over comes later. */
  lemma FavouredFirst(phase: Phase, docs: seq<Doc>, pod: Doc) returns (order: seq<Doc>, i: nat)
    requires pod in docs
    ensures InstallOrder(phase, docs, order) && i < |order| && order[i] == pod
    ensures forall j :: 0 <= j < i ==> order[j] in docs && Favours(phase, pod, order[j], pod)
  {
    order := Arranged(phase, pod, docs);
    ArrangedOrder(phase, pod, docs);
    assert pod in multiset(docs);
    i :| 0 <= i < |order| && order[i] == pod;
    forall j | 0 <= j < i
      ensures order[j] in docs && Favours(phase, pod, order[j], pod)
    {
      assert order[j] in multiset(docs);
    }
  }

  /** A complaint names an install order in which the pod starts too early. */
  lemma ComplaintReal(phase: Phase, docs: seq<Doc>, pod: Doc) returns (order: seq<Doc>, i: nat)
    requires pod in docs && Pre(phase, pod) && !pod.account && Complaint(docs, pod).Some?
    requires OneManifest(docs, pod.runsAs.value)
    ensures InstallOrder(phase, docs, order) && i < |order| && order[i] == pod && !AccountExists(order, i, pod.runsAs.value)
  {
    order, i := FavouredFirst(phase, docs, pod);
    var name := pod.runsAs.value;
    forall j | 0 <= j < i && order[j].account && order[j].name == name
      ensures false
    {
      AccountWeight(docs, order[j], name);
    }
  }

  /** So does an account that does not run before the phase, complaint or not. */
  lemma OtherPhaseLate(phase: Phase, docs: seq<Doc>, pod: Doc, account: Doc) returns (order: seq<Doc>, i: nat)
    requires pod in docs && Pre(phase, pod) && !pod.account && pod.runsAs.Some?
    requires Declares(docs, account, pod.runsAs.value) && !Pre(phase, account)
    ensures InstallOrder(phase, docs, order) && i < |order| && order[i] == pod && !AccountExists(order, i, pod.runsAs.value)
  {
    order, i := FavouredFirst(phase, docs, pod);
  }

  /** This manifest, and no other, declares the account of that name. */
  ghost predicate Declares(docs: seq<Doc>, account: Doc, name: Name) {
    account in docs && account.account && account.name == name && OneManifest(docs, name)
  }

  /** A name is declared by one manifest. */
  ghost predicate OneManifest(docs: seq<Doc>, name: Name) {
    forall d, e :: d in docs && e in docs && d.account && e.account && d.name == name && e.name == name ==> d == e
  }

  lemma AccountWeight(docs: seq<Doc>, d: Doc, name: Name)
    requires OneManifest(docs, name) && d in docs && d.account && d.name == name
    ensures name in Plain(docs) <==> d.hook.None?
    ensures name in Weights(docs) <==> d.hook.Some?
    ensures d.hook.Some? ==> Weights(docs)[name] == d.weight
  {
    WeightsMeaning(docs, name);
  }

  /** In every install order the account exists before the pod starts. */
  ghost predicate AlwaysFirst(phase: Phase, docs: seq<Doc>, pod: Doc)
    requires pod.runsAs.Some?
  {
    forall order, i: nat :: InstallOrder(phase, docs, order) && i < |order| && order[i] == pod ==> AccountExists(order, i, pod.runsAs.value)
  }

  /** When a silent gate is right: exactly when the account named is itself a
      hook of that phase. */
  lemma SilenceRightIff(phase: Phase, docs: seq<Doc>, pod: Doc, account: Doc)
    requires pod in docs && Pre(phase, pod) && !pod.account && pod.runsAs.Some?
    requires Declares(docs, account, pod.runsAs.value) && Complaint(docs, pod).None?
    ensures AlwaysFirst(phase, docs, pod) <==> Pre(phase, account)
  {
    if Pre(phase, account) {
      forall order, i: nat | InstallOrder(phase, docs, order) && i < |order| && order[i] == pod
        ensures AccountExists(order, i, pod.runsAs.value)
      {
        GateSound(phase, docs, order, i);
      }
    } else {
      var order, i := OtherPhaseLate(phase, docs, pod, account);
    }
  }

  /** What the order needs, exactly: no complaint from the gate and, which the gate
      does not look at, an account that is a hook of that phase. */
  lemma GateExact(phase: Phase, docs: seq<Doc>, pod: Doc, account: Doc)
    requires pod in docs && Pre(phase, pod) && !pod.account && pod.runsAs.Some?
    requires Declares(docs, account, pod.runsAs.value)
    ensures AlwaysFirst(phase, docs, pod) <==> Complaint(docs, pod).None? && Pre(phase, account)
  {
    if Complaint(docs, pod).None? {
      SilenceRightIff(phase, docs, pod, account);
    } else {
      var order, i := ComplaintReal(phase, docs, pod);
    }
  }
}
