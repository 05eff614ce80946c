/** The steward inbox: a cursor over a list of reviews that shrinks as verdicts
    are given and grows as pages load. */
module ReviewInbox {
  type Row = int  // a review, by its id

  datatype State = State(rows: seq<Row>, cursor: int)

  datatype Press = Down | Up | Click(index: nat) | Verdict | Load(more: seq<Row>)

  function Min(a: int, b: int): int {
    if a < b then a else b
  }

  function Max(a: int, b: int): int {
    if a > b then a else b
  }

  /** The row the detail pane shows, by position; none at a negative index. */
  function ActiveIndex(s: State): int {
    Min(s.cursor, Max(|s.rows| - 1, 0))
  }

  predicate HasActive(s: State) {
    0 <= ActiveIndex(s) < |s.rows|
  }

  function Without(rows: seq<Row>, gone: Row): seq<Row> {
    if rows == [] then []
    else if rows[0] == gone then Without(rows[1..], gone)
    else [rows[0]] + Without(rows[1..], gone)
  }

  function Next(s: State, p: Press): State {
    match p
    case Down => s.(cursor := Min(s.cursor + 1, |s.rows| - 1))
    case Up => s.(cursor := Max(s.cursor - 1, 0))
    case Click(i) => s.(cursor := i)
    case Verdict =>
      if !HasActive(s) then s
      else State(Without(s.rows, s.rows[ActiveIndex(s)]), Max(0, Min(s.cursor, |s.rows| - 2)))
    case Load(more) => s.(rows := s.rows + more)
  }

  /** The inbox as the component keeps it. */
  class Inbox {
    var rows: seq<Row>
    var cursor: int

    constructor (initial: seq<Row>)
      ensures rows == initial && cursor == 0
    {
      rows, cursor := initial, 0;
    }

    /** A verdict resolves the active row, drops it and pulls the cursor back in. */
    method Act(isSteward: bool) returns (resolved: seq<Row>)
      modifies this
      ensures var s := State(old(rows), old(cursor));
        if isSteward && HasActive(s) then
          resolved == [old(rows)[ActiveIndex(s)]] && State(rows, cursor) == Next(s, Verdict)
        else resolved == [] && unchanged(this)
    {
      var at := Min(cursor, Max(|rows| - 1, 0));
      if at < 0 || at >= |rows| || !isSteward {
        return [];
      }
      resolved := [rows[at]];
      cursor := Max(0, Min(cursor, |rows| - 2));
      rows := Without(rows, rows[at]);
    }

    method KeyDown(p: Press)
      requires p.Down? || p.Up?
      modifies this
      ensures State(rows, cursor) == Next(State(old(rows), old(cursor)), p)
    {
      if p.Down? {
        cursor := Min(cursor + 1, |rows| - 1);
      } else {
        cursor := Max(cursor - 1, 0);
      }
    }
  }

  /** Each press, exactly: one down or up within bounds, the row clicked, the active row
      gone and no other, more rows behind those there. */
  lemma PressExactly(s: State, p: Press)
    requires s.cursor >= 0
    ensures var t := Next(s, p);
      && (p == Down && s.rows != [] ==> t.cursor == (if s.cursor + 1 < |s.rows| then s.cursor + 1 else |s.rows| - 1))
      && (p == Up ==> t.cursor == (if s.cursor > 0 then s.cursor - 1 else 0))
      && (p.Click? ==> t.cursor == p.index)
      && (p.Load? ==> t.rows == s.rows + p.more && t.cursor == s.cursor)
      && (!p.Load? && p != Verdict ==> t.rows == s.rows)
      && (p == Verdict && s.rows == [] ==> t == s)
      && (p == Verdict && s.rows != [] ==>
        var active := s.rows[if s.cursor < |s.rows| then s.cursor else |s.rows| - 1];
        forall r :: r in t.rows <==> r in s.rows && r != active)
  {
    if p == Verdict && s.rows != [] {
      WithoutMembers(s.rows, s.rows[ActiveIndex(s)]);
    }
  }

  lemma {:induction false} WithoutMembers(rows: seq<Row>, gone: Row)
    ensures forall r :: r in Without(rows, gone) <==> r in rows && r != gone
  {
    if rows != [] {
      WithoutMembers(rows[1..], gone);
      assert rows == [rows[0]] + rows[1..];
    }
  }

  // ---- the order in which verdicts resolve rows ---------------------------------------

  ghost predicate Distinct(rows: seq<Row>) {
    forall i, j :: 0 <= i < j < |rows| ==> rows[i] != rows[j]
  }

  lemma {:induction false} WithoutNone(rows: seq<Row>, gone: Row)
    requires forall i :: 0 <= i < |rows| ==> rows[i] != gone
    ensures Without(rows, gone) == rows
  {
    if rows != [] {
      WithoutNone(rows[1..], gone);
    }
  }

  lemma {:induction false} WithoutAt(rows: seq<Row>, k: nat)
    requires k < |rows| && Distinct(rows)
    ensures Without(rows, rows[k]) == rows[..k] + rows[k + 1..]
  {
    if k == 0 {
      WithoutNone(rows[1..], rows[0]);
    } else {
      WithoutAt(rows[1..], k - 1);
      assert rows[1..][..k - 1] == rows[1..k] && rows[1..][k..] == rows[k + 1..];
      assert rows[..k] == [rows[0]] + rows[1..k];
    }
  }

  /** What repeated verdicts resolve, with no other press in between. */
  function Resolved(s: State): seq<Row>
    decreases |s.rows|
  {
    if !HasActive(s) then []
    else
      WithoutShrinks(s.rows, ActiveIndex(s));
      [s.rows[ActiveIndex(s)]] + Resolved(Next(s, Verdict))
  }

  lemma {:induction false} WithoutShrinks(rows: seq<Row>, k: nat)
    requires k < |rows|
    ensures |Without(rows, rows[k])| < |rows|
  {
    if k == 0 {
      WithoutLeq(rows[1..], rows[0]);
    } else {
      WithoutShrinks(rows[1..], k - 1);
    }
  }

  lemma {:induction false} WithoutLeq(rows: seq<Row>, gone: Row)
    ensures |Without(rows, gone)| <= |rows|
  {
    if rows != [] {
      WithoutLeq(rows[1..], gone);
    }
  }

  function Reversed(rows: seq<Row>): seq<Row> {
    if rows == [] then [] else [rows[|rows| - 1]] + Reversed(rows[..|rows| - 1])
  }

  /** From position a to the end, then backwards from before a. */
  function Order(rows: seq<Row>, a: nat): seq<Row>
    requires a <= |rows|
  {
    rows[a..] + Reversed(rows[..a])
  }

  lemma OrderForward(rows: seq<Row>, a: nat)
    requires a < |rows|
    ensures Order(rows, a) == [rows[a]] + Order(rows[..a] + rows[a + 1..], a)
  {
  }

  lemma OrderBackward(rows: seq<Row>)
    requires |rows| > 1
    ensures Order(rows, |rows| - 1) == [rows[|rows| - 1]] + Order(rows[..|rows| - 1], |rows| - 2)
  {
  }

  lemma VerdictAt(s: State)
    requires s.cursor >= 0 && Distinct(s.rows) && s.rows != []
    ensures HasActive(s)
    ensures var a := ActiveIndex(s); Next(s, Verdict).rows == s.rows[..a] + s.rows[a + 1..]
    ensures Distinct(Next(s, Verdict).rows) && Next(s, Verdict).cursor >= 0
    ensures ActiveIndex(Next(s, Verdict)) == if ActiveIndex(s) < |s.rows| - 1 then ActiveIndex(s) else Max(0, |s.rows| - 2)
  {
    WithoutAt(s.rows, ActiveIndex(s));
  }

  /** Every row once: from the active one to the end, then backwards from before it. */
  lemma {:induction false} TriageOrder(s: State)
    requires s.cursor >= 0 && Distinct(s.rows)
    ensures s.rows == [] ==> Resolved(s) == []
    ensures s.rows != [] ==> Resolved(s) == Order(s.rows, ActiveIndex(s))
    decreases |s.rows|
  {
    if s.rows != [] {
      VerdictAt(s);
      TriageOrder(Next(s, Verdict));
      if ActiveIndex(s) < |s.rows| - 1 {
        OrderForward(s.rows, ActiveIndex(s));
      } else if |s.rows| > 1 {
        OrderBackward(s.rows);
        assert s.rows[..|s.rows| - 1] + [] == s.rows[..|s.rows| - 1];
      } else {
        assert s.rows == [s.rows[0]];
      }
    }
  }

  lemma {:induction false} ReversedOnce(rows: seq<Row>)
    ensures multiset(Reversed(rows)) == multiset(rows)
  {
    if rows != [] {
      ReversedOnce(rows[..|rows| - 1]);
      assert rows == rows[..|rows| - 1] + [rows[|rows| - 1]];
    }
  }

  /** Repeated verdicts resolve every row exactly once, wherever they start. */
  lemma TriagedOnce(s: State)
    requires s.cursor >= 0 && Distinct(s.rows)
    ensures multiset(Resolved(s)) == multiset(s.rows)
  {
    TriageOrder(s);
    if s.rows != [] {
      OrderOnce(s.rows, ActiveIndex(s));
    }
  }

  lemma OrderOnce(rows: seq<Row>, a: nat)
    requires a <= |rows|
    ensures multiset(Order(rows, a)) == multiset(rows)
  {
    ReversedOnce(rows[..a]);
    assert rows == rows[..a] + rows[a..];
  }

  // ---- the cursor over runs of presses ----------------------------------------------------

  /** One press leaves the cursor non-negative exactly when it is not a step down
      with nothing loaded. */
  lemma CursorStays(s: State, p: Press)
    requires s.cursor >= 0
    ensures Next(s, p).cursor >= 0 <==> !(p.Down? && s.rows == [])
  {
  }

  /** A non-negative cursor always has an active row while any row is loaded. */
  lemma ActiveIff(s: State)
    ensures HasActive(s) <==> s.rows != [] && s.cursor >= 0
  {
  }

  function Run(s: State, presses: seq<Press>): State
    decreases presses
  {
    if presses == [] then s else Run(Next(s, presses[0]), presses[1..])
  }

  /** Step down is pressed only while rows are loaded. */
  ghost predicate Loaded(s: State, presses: seq<Press>)
    decreases presses
  {
    presses == [] || ((presses[0].Down? ==> s.rows != []) && Loaded(Next(s, presses[0]), presses[1..]))
  }

  lemma {:induction false} RunsKeepActive(s: State, presses: seq<Press>)
    requires s.cursor >= 0 && Loaded(s, presses)
    ensures Run(s, presses).cursor >= 0
    ensures Run(s, presses).rows != [] ==> HasActive(Run(s, presses))
    decreases presses
  {
    if presses == [] {
      ActiveIff(s);
    } else {
      CursorStays(s, presses[0]);
      RunsKeepActive(Next(s, presses[0]), presses[1..]);
    }
  }

  /** Without that condition the pane can stay empty: step down on an empty inbox,
      then load rows. */
  lemma DownOnEmpty(row: Row)
    ensures var s := Run(State([], 0), [Down, Load([row])]); s.rows == [row] && s.cursor == -1 && !HasActive(s)
  {
    var s := Next(State([], 0), Down);
    assert Run(s, [Load([row])]) == Run(Next(s, Load([row])), []);
    assert [Down, Load([row])][1..] == [Load([row])] && [Load([row])][1..] == [];
  }
}
