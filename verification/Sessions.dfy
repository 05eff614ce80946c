/** Login sessions whose expiry slides lazily: a lookup pushes it thirty days out,
    but at most once an hour. Times are milliseconds. */
module Sessions {
  import opened Wrappers

  const HOUR := 60 * 60 * 1000
  const LIFE := 30 * 24 * HOUR

  datatype Session = Session(lastSeen: int, expires: int, impersonationEnds: Option<int>)

  function Created(now: int): Session {
    Session(now, now + LIFE, None)
  }

  predicate Live(s: Session, now: int) {
    s.expires > now
  }

  predicate Slides(s: Session, now: int) {
    now - s.lastSeen > HOUR
  }

  function Slid(s: Session, now: int): Session {
    s.(lastSeen := now, expires := now + LIFE)
  }

  /** One lookup with nothing in between: the session after it, if it was live. */
  function Used(s: Session, now: int): Session {
    if Live(s, now) && Slides(s, now) then Slid(s, now) else s
  }

  predicate Impersonating(s: Session, now: int) {
    s.impersonationEnds.Some? && s.impersonationEnds.value > now
  }

  /** The sessions table, by token. */
  class Store {
    var rows: map<int, Session>

    constructor ()
      ensures rows == map[]
    {
      rows := map[];
    }

    method Create(token: int, now: int)
      requires token !in rows
      modifies this
      ensures rows == old(rows)[token := Created(now)]
    {
      rows := rows[token := Session(now, now + LIFE, None)];
    }

    method Destroy(token: int)
      modifies this
      ensures token !in rows && forall t :: t != token ==> (t in rows <==> t in old(rows)) && (t in rows ==> rows[t] == old(rows[t]))
    {
      rows := rows - {token};
    }

    /** Accept a live session, sliding it when it was last seen over an hour ago. */
    method Identify(token: int, now: int) returns (found: Option<Session>)
      modifies this
      ensures found.Some? <==> token in old(rows) && Live(old(rows)[token], now)
      ensures found.Some? ==> found.value == old(rows)[token] && rows == old(rows)[token := Used(old(rows)[token], now)]
      ensures found.None? ==> rows == old(rows)
    {
      if token !in rows || !(rows[token].expires > now) {
        return None;
      }
      found := Some(rows[token]);
      if now - rows[token].lastSeen > HOUR {
        rows := rows[token := rows[token].(lastSeen := now, expires := now + LIFE)];
      }
    }
  }

  // ---- the sliding bound -----------------------------------------------------------------

  /** Uses at the given times, each in its turn. */
  function After(s: Session, uses: seq<int>): Session {
    if uses == [] then s else Used(After(s, uses[..|uses| - 1]), uses[|uses| - 1])
  }

  predicate Accepted(s: Session, uses: seq<int>, i: nat)
    requires i < |uses|
  {
    Live(After(s, uses[..i]), uses[i])
  }

  /** The moment before use i: creation or the use before it. */
  function Before(created: int, uses: seq<int>, i: nat): int
    requires i <= |uses|
  {
    if i == 0 then created else uses[i - 1]
  }

  ghost predicate InOrder(created: int, uses: seq<int>) {
    forall i :: 0 <= i < |uses| ==> Before(created, uses, i) <= uses[i]
  }

  /** While every use so far was accepted, the expiry is at most thirty days past
      the last of them, and at most an hour short of that. */
  lemma {:induction false} ExpiryTracks(created: int, uses: seq<int>)
    requires InOrder(created, uses) && forall i :: 0 <= i < |uses| ==> Accepted(Created(created), uses, i)
    ensures var s := After(Created(created), uses);
      s.expires == s.lastSeen + LIFE && Before(created, uses, |uses|) - HOUR <= s.lastSeen <= Before(created, uses, |uses|)
  {
    if uses != [] {
      var init := uses[..|uses| - 1];
      forall i | 0 <= i < |init|
        ensures Accepted(Created(created), init, i) && Before(created, init, i) <= init[i]
      {
        assert init[..i] == uses[..i] && init[i] == uses[i];
        assert Accepted(Created(created), uses, i) && Before(created, uses, i) <= uses[i];
      }
      ExpiryTracks(created, init);
      assert Before(created, uses, |uses| - 1) <= uses[|uses| - 1];
      assert Before(created, init, |init|) == Before(created, uses, |uses| - 1);
      assert Accepted(Created(created), uses, |uses| - 1);
    }
  }

  /** The same of the first n uses. */
  lemma PrefixTracks(created: int, uses: seq<int>, n: nat)
    requires InOrder(created, uses) && n < |uses| && forall i :: 0 <= i < n ==> Accepted(Created(created), uses, i)
    ensures var s := After(Created(created), uses[..n]);
      s.expires == s.lastSeen + LIFE && Before(created, uses, n) - HOUR <= s.lastSeen <= Before(created, uses, n)
  {
    var init := uses[..n];
    forall i | 0 <= i < n
      ensures Accepted(Created(created), init, i) && Before(created, init, i) <= init[i]
    {
      assert init[..i] == uses[..i] && init[i] == uses[i];
      assert Accepted(Created(created), uses, i) && Before(created, uses, i) <= uses[i];
    }
    ExpiryTracks(created, init);
    assert Before(created, init, n) == Before(created, uses, n);
  }

  ghost predicate Frequent(created: int, uses: seq<int>) {
    forall i :: 0 <= i < |uses| ==> uses[i] - Before(created, uses, i) < LIFE - HOUR
  }

  /** Used again each time within thirty days less an hour, a session is never
      refused. */
  lemma {:induction false} FrequentUseNeverRefused(created: int, uses: seq<int>, n: nat)
    requires InOrder(created, uses) && Frequent(created, uses) && n <= |uses|
    ensures forall i :: 0 <= i < n ==> Accepted(Created(created), uses, i)
    decreases n
  {
    if n > 0 {
      FrequentUseNeverRefused(created, uses, n - 1);
      PrefixTracks(created, uses, n - 1);
      assert uses[n - 1] - Before(created, uses, n - 1) < LIFE - HOUR;
      assert Accepted(Created(created), uses, n - 1);
    }
  }

  /** The bound is tight: a gap of exactly that length can be refused. */
  lemma BoundIsTight()
    ensures var uses := [HOUR, LIFE];
      InOrder(0, uses) && Accepted(Created(0), uses, 0) && !Accepted(Created(0), uses, 1) && uses[1] - uses[0] == LIFE - HOUR
  {
  }

  /** No use is accepted thirty days or more after the one before it. */
  lemma NoUseAfterLife(created: int, uses: seq<int>, i: nat)
    requires InOrder(created, uses) && i < |uses|
    requires forall j :: 0 <= j < i ==> Accepted(Created(created), uses, j)
    ensures Accepted(Created(created), uses, i) ==> uses[i] - Before(created, uses, i) < LIFE
  {
    PrefixTracks(created, uses, i);
  }

  /** Once refused, refused for good: atomic lookups and a clock that never goes back. */
  lemma {:induction false} RefusedForGood(s: Session, uses: seq<int>, i: nat, j: nat)
    requires i <= j < |uses| && forall a, b :: 0 <= a < b < |uses| ==> uses[a] <= uses[b]
    requires !Accepted(s, uses, i)
    ensures !Accepted(s, uses, j) && After(s, uses[..j]) == After(s, uses[..i])
    decreases j
  {
    if i < j {
      RefusedForGood(s, uses, i, j - 1);
      assert uses[..j][..j - 1] == uses[..j - 1];
      assert uses[i] <= uses[j - 1] <= uses[j];
    }
  }

  // ---- interleaved lookups -----------------------------------------------------------------

  /** A session row, and the lookups that have read it and will still slide it. */
  datatype World = World(row: Option<Session>, pending: nat)

  datatype Step = Select(now: int) | Slide(now: int) | Delete

  function Next(w: World, step: Step): World {
    match step
    case Select(now) =>
      if w.row.Some? && Live(w.row.value, now) && Slides(w.row.value, now) then w.(pending := w.pending + 1) else w
    case Slide(now) =>
      if w.pending == 0 then w
      else World(if w.row.Some? then Some(Slid(w.row.value, now)) else None, w.pending - 1)
    case Delete => w.(row := None)
  }

  function Run(w: World, steps: seq<Step>): World
    decreases steps
  {
    if steps == [] then w else Run(Next(w, steps[0]), steps[1..])
  }

  predicate Accepts(w: World, now: int) {
    w.row.Some? && Live(w.row.value, now)
  }

  lemma {:induction false} StaysNone(w: World, steps: seq<Step>)
    requires w.row.None?
    ensures Run(w, steps).row.None?
    decreases steps
  {
    if steps != [] {
      StaysNone(Next(w, steps[0]), steps[1..]);
    }
  }

  /** A destroyed session stays destroyed, whatever slides were still under way. */
  lemma DestroyedForGood(w: World, steps: seq<Step>, now: int)
    ensures !Accepts(Run(Next(w, Delete), steps), now)
  {
    StaysNone(Next(w, Delete), steps);
  }

  ghost predicate NotBefore(steps: seq<Step>, now: int) {
    forall i :: 0 <= i < |steps| && steps[i].Select? ==> now <= steps[i].now
  }

  /** An expired session can be accepted again only by a slide already under way:
      with none, it is expired for good; with one, that slide revives it. */
  lemma ExpiredForGoodIff(w: World, now: int)
    requires w.row.Some? && !Live(w.row.value, now)
    ensures (forall steps, later :: NotBefore(steps, now) && now <= later ==> !Accepts(Run(w, steps), later)) <==> w.pending == 0
  {
    if w.pending == 0 {
      forall steps, later | NotBefore(steps, now) && now <= later
        ensures !Accepts(Run(w, steps), later)
      {
        StaysExpired(w, steps, now, later);
      }
    } else {
      var steps := [Slide(now)];
      assert steps[1..] == [];
      assert Run(w, steps) == Next(w, Slide(now));
      assert NotBefore(steps, now) && Accepts(Run(w, steps), now);
    }
  }

  /** Such a state is reached from a fresh session: a lookup reads the row just before it
      expires, and writes its slide after; in between the session is expired, and
      afterwards it is accepted. */
  lemma RevivedAfterExpiry()
    ensures var start := World(Some(Created(0)), 0);
      var between := Run(start, [Select(LIFE - 1)]);
      && between.row.Some? && !Live(between.row.value, LIFE) && between.pending > 0
      && Accepts(Run(start, [Select(LIFE - 1), Slide(LIFE)]), LIFE)
  {
    var start, both := World(Some(Created(0)), 0), [Select(LIFE - 1), Slide(LIFE)];
    assert both[1..] == [Slide(LIFE)] && [Slide(LIFE)][1..] == [] && [Select(LIFE - 1)][1..] == [];
    assert Run(start, [Select(LIFE - 1)]) == Next(start, Select(LIFE - 1));
    assert Run(start, both) == Run(Next(start, Select(LIFE - 1)), [Slide(LIFE)]);
  }

  lemma {:induction false} StaysExpired(w: World, steps: seq<Step>, now: int, later: int)
    requires w.pending == 0 && (w.row.Some? ==> !Live(w.row.value, now)) && NotBefore(steps, now) && now <= later
    ensures !Accepts(Run(w, steps), later)
    decreases steps
  {
    if steps != [] {
      assert steps[0].Select? ==> now <= steps[0].now;
      assert forall i :: 0 <= i < |steps[1..]| ==> steps[1..][i] == steps[i + 1];
      StaysExpired(Next(w, steps[0]), steps[1..], now, later);
    }
  }

  /** No lookup moves the end of an impersonation. */
  lemma {:induction false} ImpersonationFixed(w: World, steps: seq<Step>, now: int)
    requires w.row.Some?
    ensures Run(w, steps).row.Some? ==>
      Run(w, steps).row.value.impersonationEnds == w.row.value.impersonationEnds
      && (Impersonating(Run(w, steps).row.value, now) <==> w.row.value.impersonationEnds.Some? && now < w.row.value.impersonationEnds.value)
    decreases steps
  {
    if steps != [] {
      if Next(w, steps[0]).row.Some? {
        ImpersonationFixed(Next(w, steps[0]), steps[1..], now);
      } else {
        StaysNone(Next(w, steps[0]), steps[1..]);
      }
    }
  }
}
