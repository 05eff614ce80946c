/** The ordered-list editors of the configuration studio. Each offers buttons that
    move an entry one place; the comparison editor keeps its null level apart. */
module Editors {
  import opened Wrappers

  // ---- moving one entry -------------------------------------------------------------

  /** Take the entry out and put it back at the target, as two splices do. */
  function Moved<T>(s: seq<T>, index: nat, delta: int): seq<T> {
    var target := index + delta;
    if target < 0 || target >= |s| || index >= |s| then s
    else
      var rest := s[..index] + s[index + 1..];
      rest[..target] + [s[index]] + rest[target..]
  }

  /** The two buttons: one place earlier, one place later. */
  datatype Step = Step(index: nat, delta: int)

  predicate Offered<T>(s: seq<T>, m: Step) {
    m.index < |s| && ((m.delta == -1 && m.index > 0) || (m.delta == 1 && m.index < |s| - 1))
  }

  /** An offered move exchanges two neighbours. */
  lemma MovedSwaps<T>(s: seq<T>, m: Step)
    requires Offered(s, m)
    ensures Moved(s, m.index, m.delta) == s[m.index := s[m.index + m.delta]][m.index + m.delta := s[m.index]]
    ensures |Moved(s, m.index, m.delta)| == |s|
  {
  }

  lemma TakeOut<T>(s: seq<T>, k: nat)
    requires k < |s|
    ensures multiset(s) == multiset(s[..k] + s[k + 1..]) + multiset{s[k]}
  {
    assert s == s[..k] + [s[k]] + s[k + 1..];
    assert multiset(s[..k] + [s[k]] + s[k + 1..]) == multiset(s[..k]) + multiset{s[k]} + multiset(s[k + 1..]);
    assert multiset(s[..k] + s[k + 1..]) == multiset(s[..k]) + multiset(s[k + 1..]);
  }

  lemma CancelOne<T>(a: multiset<T>, b: multiset<T>, x: T)
    requires a + multiset{x} == b + multiset{x}
    ensures a == b
  {
    assert a == a + multiset{x} - multiset{x};
    assert b == b + multiset{x} - multiset{x};
  }

  /** A move neither loses nor repeats an entry. */
  lemma MovedMultiset<T>(s: seq<T>, index: nat, delta: int)
    ensures multiset(Moved(s, index, delta)) == multiset(s)
  {
    var target := index + delta;
    if 0 <= target < |s| && index < |s| {
      var rest, moved := s[..index] + s[index + 1..], Moved(s, index, delta);
      TakeOut(s, index);
      TakeOut(moved, target);
      assert moved[..target] + moved[target + 1..] == rest;
    }
  }

  /** The opposite button on the moved entry undoes a move. */
  lemma MoveUndone<T>(s: seq<T>, m: Step)
    requires Offered(s, m)
    ensures Offered(Moved(s, m.index, m.delta), Step(m.index + m.delta, -m.delta))
    ensures Moved(Moved(s, m.index, m.delta), m.index + m.delta, -m.delta) == s
  {
    MovedSwaps(s, m);
    MovedSwaps(Moved(s, m.index, m.delta), Step(m.index + m.delta, -m.delta));
  }

  // ---- every order can be reached -------------------------------------------------------

  /** One press of an offered button. */
  ghost predicate Press<T>(s: seq<T>, t: seq<T>) {
    exists m :: Offered(s, m) && t == Moved(s, m.index, m.delta)
  }

  /** The lists seen while pressing buttons, from the first to the last. */
  ghost predicate Trail<T>(trail: seq<seq<T>>, s: seq<T>, t: seq<T>) {
    && trail != [] && trail[0] == s && trail[|trail| - 1] == t
    && forall i :: 0 < i < |trail| ==> Press(trail[i - 1], trail[i])
  }

  lemma TrailJoin<T>(p: seq<seq<T>>, q: seq<seq<T>>, s: seq<T>, t: seq<T>, u: seq<T>)
    requires Trail(p, s, t) && Trail(q, t, u)
    ensures Trail(p + q[1..], s, u)
  {
  }

  /** Moving the entry at k to the front, one place at a time. */
  lemma {:induction false} ToFront<T>(s: seq<T>, k: nat) returns (trail: seq<seq<T>>)
    requires k < |s|
    ensures Trail(trail, s, [s[k]] + (s[..k] + s[k + 1..]))
    decreases k
  {
    if k == 0 {
      trail := [s];
      assert s == [s[0]] + (s[..0] + s[1..]);
    } else {
      var m := Step(k, -1);
      MovedSwaps(s, m);
      var t := Moved(s, k, -1);
      assert Press(s, t);
      var rest := ToFront(t, k - 1);
      assert t[..k - 1] + t[k..] == s[..k] + s[k + 1..];
      trail := [s, t] + rest[1..];
      TrailJoin([s, t], rest, s, t, [s[k]] + (s[..k] + s[k + 1..]));
    }
  }

  lemma PressUnder<T>(x: T, s: seq<T>, t: seq<T>)
    requires Press(s, t)
    ensures Press([x] + s, [x] + t)
  {
    var m :| Offered(s, m) && t == Moved(s, m.index, m.delta);
    var m' := Step(m.index + 1, m.delta);
    MovedSwaps(s, m);
    MovedSwaps([x] + s, m');
    assert Offered([x] + s, m') && [x] + t == Moved([x] + s, m'.index, m'.delta);
  }

  /** The same presses under a fixed first entry. */
  lemma TrailUnder<T>(x: T, trail: seq<seq<T>>, s: seq<T>, t: seq<T>) returns (under: seq<seq<T>>)
    requires Trail(trail, s, t)
    ensures Trail(under, [x] + s, [x] + t)
  {
    under := seq(|trail|, i requires 0 <= i < |trail| => [x] + trail[i]);
    forall i | 0 < i < |under|
      ensures Press(under[i - 1], under[i])
    {
      PressUnder(x, trail[i - 1], trail[i]);
    }
  }

  /** Where the first entry of one order stands in the other. */
  lemma FirstOf<T>(s: seq<T>, t: seq<T>) returns (k: nat)
    requires multiset(s) == multiset(t) && t != []
    ensures k < |s| && s[k] == t[0] && multiset(s[..k] + s[k + 1..]) == multiset(t[1..])
  {
    assert t[0] in multiset(t);
    k :| 0 <= k < |s| && s[k] == t[0];
    TakeOut(s, k);
    TakeOut(t, 0);
    assert t[..0] + t[1..] == t[1..];
    CancelOne(multiset(s[..k] + s[k + 1..]), multiset(t[1..]), t[0]);
  }

  /** Reorder completeness: the offered buttons reach every order of the entries. */
  lemma {:induction false} EveryOrderReachable<T>(s: seq<T>, t: seq<T>) returns (trail: seq<seq<T>>)
    requires multiset(s) == multiset(t)
    ensures Trail(trail, s, t)
    decreases |t|
  {
    assert |s| == |multiset(s)| == |multiset(t)| == |t|;
    if t == [] {
      trail := [s];
    } else {
      var k := FirstOf(s, t);
      var rest := s[..k] + s[k + 1..];
      var front := ToFront(s, k);
      var later := EveryOrderReachable(rest, t[1..]);
      var under := TrailUnder(t[0], later, rest, t[1..]);
      assert [t[0]] + t[1..] == t;
      TrailJoin(front, under, s, [t[0]] + rest, t);
      trail := front + under[1..];
    }
  }

  /** Presses only ever reorder: what can be reached is exactly every order. */
  lemma {:induction false} TrailMultiset<T>(trail: seq<seq<T>>, s: seq<T>, t: seq<T>)
    requires Trail(trail, s, t)
    ensures multiset(s) == multiset(t)
    decreases |trail|
  {
    if |trail| > 1 {
      var init := trail[..|trail| - 1];
      assert Press(init[|init| - 1], t);
      TrailMultiset(init, s, init[|init| - 1]);
      var m :| Offered(init[|init| - 1], m) && t == Moved(init[|init| - 1], m.index, m.delta);
      MovedMultiset(init[|init| - 1], m.index, m.delta);
    }
  }

  // ---- the comparison editor ---------------------------------------------------------------

  datatype Vocabulary = Exact | UsernameExact | VariantMatch | DobSameYearMonth

  /** Level tokens: the null level, the fixed vocabulary, the one level with a
      threshold, and whatever else a stored config may hold. */
  datatype Level = Null | Known(name: Vocabulary) | Jaro(threshold: real) | Unknown(token: string)

  function Orderable(levels: seq<Level>): (r: seq<Level>)
    ensures Null !in r
  {
    if levels == [] then [] else
      var rest := Orderable(levels[1..]);
      if levels[0] == Null then rest else [levels[0]] + rest
  }

  function WithNull(levels: seq<Level>, hadNull: bool): seq<Level> {
    if hadNull then levels + [Null] else levels
  }

  datatype Edit =
    | Move(step: Step)
    | Remove(index: nat)
    | Add(level: Level)
    | SetThreshold(index: nat, threshold: Option<real>)

  function Bounded(t: real): real {
    if t < 0.01 then 0.01 else if t > 1.0 then 1.0 else t
  }

  /** What an edit makes of the ordered levels, or nothing when it changes none. */
  function Edited(levels: seq<Level>, edit: Edit): Option<seq<Level>> {
    match edit
    case Move(m) =>
      if m.index + m.delta < 0 || m.index + m.delta >= |levels| || m.index >= |levels| then None
      else Some(Moved(levels, m.index, m.delta))
    case Remove(i) =>
      var rest := if i < |levels| then levels[..i] + levels[i + 1..] else levels;
      if rest == [] then None else Some(rest)
    case Add(level) => if level in levels then None else Some(levels + [level])
    case SetThreshold(i, t) =>
      if t.None? || i >= |levels| then None else Some(levels[i := Jaro(Bounded(t.value))])
  }

  function Apply(levels: seq<Level>, edit: Edit): seq<Level> {
    match Edited(Orderable(levels), edit)
    case None => levels
    case Some(next) => WithNull(next, Null in levels)
  }

  /** What the rendered controls offer. */
  predicate Control(levels: seq<Level>, edit: Edit) {
    match edit
    case Move(m) => Offered(levels, m)
    case Remove(i) => i < |levels| && |levels| != 1
    case Add(level) =>
      || (level.Known? && level !in levels)
      || (level == Jaro(0.9) && forall i :: 0 <= i < |levels| ==> !levels[i].Jaro?)
    case SetThreshold(i, _) => i < |levels| && levels[i].Jaro?
  }

  /** The levels but the null ones, in their order. */
  lemma {:induction false} OrderableAppend(xs: seq<Level>, ys: seq<Level>)
    ensures Orderable(xs + ys) == Orderable(xs) + Orderable(ys)
    ensures Null !in xs ==> Orderable(xs) == xs
    ensures Orderable([Null]) == []
  {
    if xs == [] {
      assert xs + ys == ys;
    } else {
      OrderableAppend(xs[1..], ys);
      assert (xs + ys)[1..] == xs[1..] + ys;
    }
  }

  /** Removing takes out that level and no other, and never the last one left. */
  lemma RemovedExactly(levels: seq<Level>, i: nat)
    requires i < |levels|
    ensures var r := Edited(levels, Remove(i));
      && (r.None? <==> |levels| == 1)
      && (r.Some? ==> |r.value| == |levels| - 1)
      && (r.Some? ==> forall k :: 0 <= k < i ==> r.value[k] == levels[k])
      && (r.Some? ==> forall k :: i <= k < |levels| - 1 ==> r.value[k] == levels[k + 1])
  {
  }

  /** Adding puts the level last, once. */
  lemma AddedExactly(levels: seq<Level>, level: Level)
    ensures var r := Edited(levels, Add(level));
      && (r.None? <==> exists k :: 0 <= k < |levels| && levels[k] == level)
      && (r.Some? ==> |r.value| == |levels| + 1 && r.value[|levels|] == level && forall k :: 0 <= k < |levels| ==> r.value[k] == levels[k])
  {
  }

  /** Setting a threshold changes that level alone, to the value nearest to the one asked
      for within its bounds. */
  lemma ThresholdExactly(levels: seq<Level>, i: nat, t: real)
    requires i < |levels|
    ensures var r := Edited(levels, SetThreshold(i, Some(t)));
      && r.Some? && |r.value| == |levels| && (forall k :: 0 <= k < |levels| && k != i ==> r.value[k] == levels[k])
      && r.value[i].Jaro? && 0.01 <= r.value[i].threshold <= 1.0
      && forall u :: 0.01 <= u <= 1.0 ==> Distance(r.value[i].threshold, t) <= Distance(u, t)
  {
  }

  /** The null level, where there is one, stands behind all others. */
  lemma NullLast(levels: seq<Level>, hadNull: bool)
    ensures levels <= WithNull(levels, hadNull) && |WithNull(levels, hadNull)| == |levels| + if hadNull then 1 else 0
    ensures hadNull ==> WithNull(levels, hadNull)[|levels|] == Null
  {
  }

  /** Any known level not in the list can be added, and then removed again. */
  lemma AddRemoved(levels: seq<Level>, level: Level)
    requires levels != [] && level.Known? && level !in levels
    ensures Control(levels, Add(level)) && Edited(levels, Add(level)).Some?
    ensures var more := Edited(levels, Add(level)).value;
      Control(more, Remove(|levels|)) && Edited(more, Remove(|levels|)) == Some(levels)
  {
    var more := levels + [level];
    assert more[..|levels|] + more[|levels| + 1..] == levels;
  }

  function Distance(a: real, b: real): real {
    if a < b then b - a else a - b
  }

  class ComparisonEditor {
    var levels: seq<Level>

    constructor (initial: seq<Level>)
      ensures levels == initial
    {
      levels := initial;
    }

    method MoveLevel(index: nat, delta: int)
      modifies this
      ensures levels == Apply(old(levels), Move(Step(index, delta)))
    {
      var hadNull, list, target := Null in levels, Orderable(levels), index + delta;
      if target < 0 || target >= |list| || index >= |list| {
        return;
      }
      var level := list[index];
      list := list[..index] + list[index + 1..];
      list := list[..target] + [level] + list[target..];
      levels := WithNull(list, hadNull);
    }

    method RemoveLevel(index: nat)
      modifies this
      ensures levels == Apply(old(levels), Remove(index))
    {
      var hadNull, list := Null in levels, Orderable(levels);
      if index < |list| {
        list := list[..index] + list[index + 1..];
      }
      if list == [] {
        return;
      }
      levels := WithNull(list, hadNull);
    }

    method AddLevel(level: Level)
      modifies this
      ensures levels == Apply(old(levels), Add(level))
    {
      var hadNull, list := Null in levels, Orderable(levels);
      if level !in list {
        levels := WithNull(list + [level], hadNull);
      }
    }

    method SetJaro(index: nat, threshold: Option<real>)
      requires index < |Orderable(levels)|
      modifies this
      ensures levels == Apply(old(levels), SetThreshold(index, threshold))
    {
      if threshold.Some? {
        var hadNull, list := Null in levels, Orderable(levels);
        levels := WithNull(list[index := Jaro(Bounded(threshold.value))], hadNull);
      }
    }
  }

  ghost predicate NoRepeats(levels: seq<Level>) {
    forall i, j :: 0 <= i < j < |levels| ==> levels[i] != levels[j]
  }

  ghost predicate OneJaro(levels: seq<Level>) {
    forall i, j :: 0 <= i < |levels| && 0 <= j < |levels| && levels[i].Jaro? && levels[j].Jaro? ==> i == j
  }

  /** What every run of edits keeps about the ordered levels. */
  ghost predicate Sound(levels: seq<Level>) {
    levels != [] && Null !in levels && NoRepeats(levels) && OneJaro(levels)
  }

  ghost predicate JaroBounded(levels: seq<Level>) {
    forall i :: 0 <= i < |levels| && levels[i].Jaro? ==> 0.01 <= levels[i].threshold <= 1.0
  }

  lemma EditedSound(levels: seq<Level>, edit: Edit)
    requires Sound(levels) && Control(levels, edit)
    ensures Edited(levels, edit).Some? ==> Sound(Edited(levels, edit).value)
    ensures Edited(levels, edit).Some? && JaroBounded(levels) ==> JaroBounded(Edited(levels, edit).value)
    ensures Edited(levels, edit).Some? && edit.SetThreshold? ==> JaroBounded(Edited(levels, edit).value)
  {
    match edit
    case Move(m) => MoveSound(levels, m);
    case Remove(i) => RemoveSound(levels, i);
    case Add(level) => AddSound(levels, level);
    case SetThreshold(i, t) =>
      if t.Some? {
        ThresholdSound(levels, i, Bounded(t.value));
      }
  }

  lemma MoveSound(levels: seq<Level>, m: Step)
    requires Sound(levels) && Offered(levels, m)
    ensures Sound(Moved(levels, m.index, m.delta))
    ensures JaroBounded(levels) ==> JaroBounded(Moved(levels, m.index, m.delta))
  {
    MovedSwaps(levels, m);
  }

  lemma RemoveSound(levels: seq<Level>, i: nat)
    requires Sound(levels) && i < |levels| && |levels| != 1
    ensures Sound(levels[..i] + levels[i + 1..])
    ensures JaroBounded(levels) ==> JaroBounded(levels[..i] + levels[i + 1..])
  {
  }

  lemma AddSound(levels: seq<Level>, level: Level)
    requires Sound(levels) && Control(levels, Add(level))
    ensures Sound(levels + [level])
    ensures JaroBounded(levels) ==> JaroBounded(levels + [level])
  {
  }

  lemma ThresholdSound(levels: seq<Level>, i: nat, t: real)
    requires Sound(levels) && i < |levels| && levels[i].Jaro? && 0.01 <= t <= 1.0
    ensures Sound(levels[i := Jaro(t)]) && JaroBounded(levels[i := Jaro(t)])
  {
  }

  lemma {:induction false} OrderableWithNull(levels: seq<Level>, hadNull: bool)
    requires Null !in levels
    ensures Orderable(WithNull(levels, hadNull)) == levels
    ensures Null in WithNull(levels, hadNull) <==> hadNull
  {
    if levels == [] {
      assert hadNull ==> [Null][1..] == [];
    } else {
      OrderableWithNull(levels[1..], hadNull);
      assert WithNull(levels, hadNull)[1..] == WithNull(levels[1..], hadNull);
      assert levels == [levels[0]] + levels[1..];
    }
  }

  ghost predicate Runs(levels: seq<Level>, edits: seq<Edit>)
    decreases edits
  {
    edits == [] || (Control(Orderable(levels), edits[0]) && Runs(Apply(levels, edits[0]), edits[1..]))
  }

  function ApplyAll(levels: seq<Level>, edits: seq<Edit>): seq<Level>
    decreases edits
  {
    if edits == [] then levels else ApplyAll(Apply(levels, edits[0]), edits[1..])
  }

  lemma ApplySound(levels: seq<Level>, edit: Edit)
    requires Sound(Orderable(levels)) && Control(Orderable(levels), edit)
    ensures Sound(Orderable(Apply(levels, edit)))
    ensures Null in Apply(levels, edit) <==> Null in levels
    ensures Apply(levels, edit) != levels ==> Apply(levels, edit) == WithNull(Orderable(Apply(levels, edit)), Null in levels)
    ensures levels == WithNull(Orderable(levels), Null in levels) ==> Apply(levels, edit) == WithNull(Orderable(Apply(levels, edit)), Null in levels)
    ensures JaroBounded(Orderable(levels)) ==> JaroBounded(Orderable(Apply(levels, edit)))
  {
    EditedSound(Orderable(levels), edit);
    if Edited(Orderable(levels), edit).Some? {
      OrderableWithNull(Edited(Orderable(levels), edit).value, Null in levels);
    }
  }

  /** Over every run of offered edits the null level comes and goes never, and the
      others stay non-empty, distinct and with at most one threshold level, which
      stays in bounds; once anything changed, the null level is single and last. */
  lemma {:induction false} RunSound(levels: seq<Level>, edits: seq<Edit>)
    requires Sound(Orderable(levels)) && Runs(levels, edits)
    ensures var r := ApplyAll(levels, edits);
      && Sound(Orderable(r))
      && (Null in r <==> Null in levels)
      && (r == levels || r == WithNull(Orderable(r), Null in levels))
      && (levels == WithNull(Orderable(levels), Null in levels) ==> r == WithNull(Orderable(r), Null in levels))
      && (JaroBounded(Orderable(levels)) ==> JaroBounded(Orderable(r)))
    decreases edits
  {
    if edits != [] {
      ApplySound(levels, edits[0]);
      RunSound(Apply(levels, edits[0]), edits[1..]);
    }
  }

  /** Moving a level is moving it among the ordered levels, the null level last. */
  lemma ApplyMove(levels: seq<Level>, hadNull: bool, m: Step)
    requires Null !in levels && Offered(levels, m)
    ensures Apply(WithNull(levels, hadNull), Move(m)) == WithNull(Moved(levels, m.index, m.delta), hadNull)
  {
    OrderableWithNull(levels, hadNull);
  }

  /** The presses along a trail, as edits of the list with its null level. */
  lemma {:induction false} TrailEdits(trail: seq<seq<Level>>, s: seq<Level>, t: seq<Level>, hadNull: bool) returns (edits: seq<Edit>)
    requires Trail(trail, s, t) && Null !in s
    ensures Runs(WithNull(s, hadNull), edits) && ApplyAll(WithNull(s, hadNull), edits) == WithNull(t, hadNull)
    ensures forall i :: 0 <= i < |edits| ==> edits[i].Move?
    decreases |trail|
  {
    edits := [];
    if |trail| > 1 {
      assert Press(trail[1 - 1], trail[1]);
      var m :| Offered(s, m) && trail[1] == Moved(s, m.index, m.delta);
      MovedMultiset(s, m.index, m.delta);
      assert Null !in multiset(trail[1]);
      TrailRest(trail, s, t);
      var rest := TrailEdits(trail[1..], trail[1], t, hadNull);
      ApplyMove(s, hadNull, m);
      OrderableWithNull(s, hadNull);
      edits := [Move(m)] + rest;
      assert edits[1..] == rest;
    }
  }

  lemma TrailRest<T>(trail: seq<seq<T>>, s: seq<T>, t: seq<T>)
    requires Trail(trail, s, t) && |trail| > 1
    ensures Trail(trail[1..], trail[1], t)
  {
    forall i | 0 < i < |trail[1..]|
      ensures Press(trail[1..][i - 1], trail[1..][i])
    {
      assert Press(trail[i + 1 - 1], trail[i + 1]);
    }
  }

  /** Every order of the comparison levels can be reached by the buttons offered, the
      null level staying last. */
  lemma EveryLevelOrderReachable(levels: seq<Level>, target: seq<Level>, hadNull: bool) returns (edits: seq<Edit>)
    requires multiset(levels) == multiset(target) && Null !in levels
    ensures Runs(WithNull(levels, hadNull), edits) && ApplyAll(WithNull(levels, hadNull), edits) == WithNull(target, hadNull)
    ensures forall i :: 0 <= i < |edits| ==> edits[i].Move?
  {
    var trail := EveryOrderReachable(levels, target);
    edits := TrailEdits(trail, levels, target, hadNull);
  }

  // ---- the survivorship and blocking editors ----------------------------------------------------

  /** A chain of survivorship rules: reordered, never emptied, never repeated. */
  class SurvivorshipEditor {
    var chain: seq<string>

    constructor (initial: seq<string>)
      ensures chain == initial
    {
      chain := initial;
    }

    method MoveRule(index: nat, delta: int)
      modifies this
      ensures chain == Moved(old(chain), index, delta)
    {
      var list, target := chain, index + delta;
      if target < 0 || target >= |list| || index >= |list| {
        return;
      }
      var rule := list[index];
      list := list[..index] + list[index + 1..];
      chain := list[..target] + [rule] + list[target..];
    }

    method RemoveRule(index: nat)
      modifies this
      ensures old(chain) != [] ==> chain != []
      ensures chain == if index < |old(chain)| && |old(chain)| > 1 then old(chain)[..index] + old(chain)[index + 1..] else old(chain)
    {
      var list := if index < |chain| then chain[..index] + chain[index + 1..] else chain;
      if list != [] {
        chain := list;
      }
    }

    method AddRule(token: string)
      modifies this
      ensures chain == if token in old(chain) then old(chain) else old(chain) + [token]
      ensures multiset(chain)[token] == if token in old(chain) then multiset(old(chain))[token] else 1
    {
      if token !in chain {
        chain := chain + [token];
      }
    }
  }

  datatype BlockingRule = BlockingRule(keyType: string, expr: string)

  class BlockingEditor {
    var rules: seq<BlockingRule>

    constructor (initial: seq<BlockingRule>)
      ensures rules == initial
    {
      rules := initial;
    }

    method MoveBlock(index: nat, delta: int)
      modifies this
      ensures rules == Moved(old(rules), index, delta)
    {
      var next, target := rules, index + delta;
      if target < 0 || target >= |rules| || index >= |rules| {
        return;
      }
      var rule := next[index];
      next := next[..index] + next[index + 1..];
      rules := next[..target] + [rule] + next[target..];
    }
  }
}
