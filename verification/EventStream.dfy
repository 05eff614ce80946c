/** The assistant chat reads a server's event stream in arbitrary chunks, cuts it
    into frames at blank lines and folds each frame into the last turn. */
module EventStream {
  import opened Wrappers
  import opened JsText

  // ---- cutting at blank lines --------------------------------------------------

  /** The first blank line: the index of the first of two adjacent newlines. */
  function Boundary(s: string): (r: Option<nat>)
    ensures r.Some? ==> r.value + 1 < |s|
  {
    if |s| < 2 then None
    else if s[0] == '\n' == s[1] then Some(0)
    else match Boundary(s[1..])
      case None => None
      case Some(i) => Some(i + 1)
  }

  predicate BlankAt(s: string, i: nat) {
    i + 1 < |s| && s[i] == '\n' == s[i + 1]
  }

  /** It is the first, and none is found only where there is none. */
  lemma {:induction false} BoundaryMeaning(s: string)
    ensures Boundary(s).Some? ==> BlankAt(s, Boundary(s).value) && forall i :: 0 <= i < Boundary(s).value ==> !BlankAt(s, i)
    ensures Boundary(s).None? ==> forall i :: 0 <= i ==> !BlankAt(s, i)
  {
    if |s| >= 2 && !(s[0] == '\n' == s[1]) {
      BoundaryMeaning(s[1..]);
      assert forall i :: 0 < i < |s| - 1 ==> (BlankAt(s, i) <==> BlankAt(s[1..], i - 1));
    }
  }

  lemma BoundaryIs(s: string, n: nat)
    requires BlankAt(s, n) && forall i :: 0 <= i < n ==> !BlankAt(s, i)
    ensures Boundary(s) == Some(n)
  {
    BoundaryMeaning(s);
  }

  /** The whole text cut at once: its frames and what follows the last of them. */
  function Frames(text: string): seq<string>
    decreases |text|
  {
    match Boundary(text)
    case None => []
    case Some(i) => [text[..i]] + Frames(text[i + 2..])
  }

  function Residue(text: string): (r: string)
    ensures Boundary(r).None?
    decreases |text|
  {
    match Boundary(text)
    case None => text
    case Some(i) => Residue(text[i + 2..])
  }

  /** More text does not move an earlier boundary. */
  lemma {:induction false} BoundaryExtends(s: string, t: string)
    requires Boundary(s).Some?
    ensures Boundary(s + t) == Boundary(s)
  {
    if !(s[0] == '\n' == s[1]) {
      assert (s + t)[1..] == s[1..] + t;
      BoundaryExtends(s[1..], t);
    }
  }

  /** Reading in two steps: what the first step leaves over is where the second
      starts, even when a boundary straddles the two. */
  lemma {:induction false} FramesAppend(s: string, t: string)
    ensures Frames(s + t) == Frames(s) + Frames(Residue(s) + t)
    ensures Residue(s + t) == Residue(Residue(s) + t)
    decreases |s|
  {
    if Boundary(s).Some? {
      var i := Boundary(s).value;
      CutFirst(s, t);
      FramesAppend(s[i + 2..], t);
      Reassociate([s[..i]], Frames(s[i + 2..]), Frames(Residue(s) + t));
    }
  }

  /** The first frame and what follows it, with or without more text. */
  lemma CutFirst(s: string, t: string)
    requires Boundary(s).Some?
    ensures var i := Boundary(s).value;
      && Frames(s + t) == [s[..i]] + Frames(s[i + 2..] + t)
      && Residue(s + t) == Residue(s[i + 2..] + t)
  {
    var i := Boundary(s).value;
    BoundaryExtends(s, t);
    assert (s + t)[..i] == s[..i];
    assert (s + t)[i + 2..] == s[i + 2..] + t;
  }

  function Concat(chunks: seq<string>): string {
    if chunks == [] then "" else Concat(chunks[..|chunks| - 1]) + chunks[|chunks| - 1]
  }

  /** Every frame with the blank line that ended it, in order. */
  function Joined(frames: seq<string>): string {
    if frames == [] then "" else frames[0] + "\n\n" + Joined(frames[1..])
  }

  /** The frames and the residue are the text, cut at every leftmost blank line: put
      together again they are the text, and none reaches past a blank line. */
  lemma {:induction false} FramesMeaning(text: string)
    ensures Joined(Frames(text)) + Residue(text) == text
    ensures forall k :: 0 <= k < |Frames(text)| ==> Boundary(Frames(text)[k] + "\n\n") == Some(|Frames(text)[k]|)
    decreases |text|
  {
    if Boundary(text).Some? {
      var i := Boundary(text).value;
      var first, rest := text[..i], text[i + 2..];
      FramesMeaning(rest);
      CutApart(text, i);
      Reassociate(first + "\n\n", Joined(Frames(rest)), Residue(rest));
      assert Frames(text) == [first] + Frames(rest) && Frames(text)[1..] == Frames(rest);
      FirstFrame(text, i);
    }
  }

  lemma CutApart(text: string, i: nat)
    requires Boundary(text) == Some(i)
    ensures text == text[..i] + "\n\n" + text[i + 2..]
  {
    BoundaryMeaning(text);
    assert BlankAt(text, i);
  }

  lemma FirstFrame(text: string, i: nat)
    requires Boundary(text) == Some(i)
    ensures Boundary(text[..i] + "\n\n") == Some(i)
  {
    BoundaryMeaning(text);
    var cut := text[..i] + "\n\n";
    assert BlankAt(text, i);
    assert cut == text[..i + 2];
    forall k | 0 <= k < i
      ensures !BlankAt(cut, k)
    {
      assert !BlankAt(text, k) && cut[k] == text[k] && cut[k + 1] == text[k + 1];
    }
    BoundaryIs(cut, i);
  }

  // ---- one frame -----------------------------------------------------------------

  function FindPrefix(lines: seq<string>, prefix: string): (r: Option<string>)
    ensures r.Some? ==> prefix <= r.value
  {
    if lines == [] then None
    else if prefix <= lines[0] then Some(lines[0])
    else FindPrefix(lines[1..], prefix)
  }

  const EVENT := "event: "
  const DATA := "data: "

  /** The line is the first that starts so. */
  ghost predicate FirstWith(lines: seq<string>, prefix: string, line: string) {
    exists k :: 0 <= k < |lines| && lines[k] == line && prefix <= line && forall j :: 0 <= j < k ==> !(prefix <= lines[j])
  }

  lemma {:induction false} FindPrefixMeaning(lines: seq<string>, prefix: string, line: string)
    ensures FindPrefix(lines, prefix) == Some(line) <==> FirstWith(lines, prefix, line)
  {
    if lines != [] && !(prefix <= lines[0]) {
      var rest := lines[1..];
      FindPrefixMeaning(rest, prefix, line);
      if FirstWith(lines, prefix, line) {
        var k :| 0 <= k < |lines| && lines[k] == line && prefix <= line && forall j :: 0 <= j < k ==> !(prefix <= lines[j]);
        assert rest[k - 1] == line && forall j :: 0 <= j < k - 1 ==> rest[j] == lines[j + 1];
      }
      if FirstWith(rest, prefix, line) {
        var k :| 0 <= k < |rest| && rest[k] == line && prefix <= line && forall j :: 0 <= j < k ==> !(prefix <= rest[j]);
        assert lines[k + 1] == line && forall j :: 0 < j < k + 1 ==> lines[j] == rest[j - 1];
      }
    }
  }

  /** The event name and data of a frame, when it has both lines. */
  function Fields(frame: string): Option<(string, string)> {
    var lines := Split(frame, '\n');
    match (FindPrefix(lines, EVENT), FindPrefix(lines, DATA))
    case (Some(e), Some(d)) => Some((e[7..], d[6..]))
    case _ => None
  }

  /** They are what follows the first line of each kind. */
  lemma FieldsMeaning(frame: string, event: string, data: string)
    ensures Fields(frame) == Some((event, data)) <==>
      FirstWith(Split(frame, '\n'), "event: ", "event: " + event) && FirstWith(Split(frame, '\n'), "data: ", "data: " + data)
  {
    var lines := Split(frame, '\n');
    FindPrefixMeaning(lines, EVENT, EVENT + event);
    FindPrefixMeaning(lines, DATA, DATA + data);
    assert (EVENT + event)[7..] == event && (DATA + data)[6..] == data;
    match (FindPrefix(lines, EVENT), FindPrefix(lines, DATA))
    case (Some(e), Some(d)) =>
      assert e == EVENT + e[7..] && d == DATA + d[6..];
    case _ =>
  }

  function Print(event: string, data: string): string {
    EVENT + event + "\n" + DATA + data + "\n\n"
  }

  /** A printed event is one frame, found at once whatever follows it. */
  lemma PrintBoundary(event: string, data: string, tail: string)
    requires '\n' !in event && '\n' !in data
    ensures Boundary(Print(event, data) + tail) == Some(|Print(event, data)| - 2)
  {
    var s, n := Print(event, data) + tail, |Print(event, data)| - 2;
    var head := EVENT + event;
    assert '\n' !in EVENT && '\n' !in DATA;
    assert s[..n] == head + "\n" + DATA + data;
    forall i | 0 <= i < n
      ensures !BlankAt(s, i)
    {
      assert s[i] == s[..n][i];
      if i < |head| {
        assert s[i] == head[i];
      } else if i == |head| {
        assert s[i + 1] == 'd';
      } else {
        assert s[i] == (DATA + data)[i - |head| - 1];
      }
    }
    BoundaryIs(s, n);
  }

  lemma PrintFields(event: string, data: string)
    requires '\n' !in event && '\n' !in data
    ensures Fields(Print(event, data)[..|Print(event, data)| - 2]) == Some((event, data))
  {
    var frame := Print(event, data)[..|Print(event, data)| - 2];
    var e, d := EVENT + event, DATA + data;
    assert '\n' !in EVENT && '\n' !in DATA;
    assert frame == e + ['\n'] + d;
    SplitPart(e, '\n', d);
    SplitPart(d, '\n', "");
    assert Split(frame, '\n') == [e, d];
    assert FindPrefix([e, d], EVENT) == Some(e);
    assert !(DATA <= e) by {
      assert e[0] == 'e';
    }
    assert [e, d][1..] == [d];
    assert FindPrefix([d], DATA) == Some(d);
    assert FindPrefix([e, d], DATA) == Some(d);
    assert e[7..] == event && d[6..] == data;
  }

  function PrintAll(events: seq<Event>): string {
    if events == [] then "" else Print(events[0].0, events[0].1) + PrintAll(events[1..])
  }

  predicate SingleLine(events: seq<Event>) {
    forall i :: 0 <= i < |events| ==> '\n' !in events[i].0 && '\n' !in events[i].1
  }

  lemma PrintStep(event: string, data: string, tail: string) returns (frame: string)
    requires '\n' !in event && '\n' !in data
    ensures Frames(Print(event, data) + tail) == [frame] + Frames(tail)
    ensures Residue(Print(event, data) + tail) == Residue(tail)
    ensures Fields(frame) == Some((event, data))
  {
    PrintBoundary(event, data, tail);
    PrintFields(event, data);
    var first := Print(event, data);
    var text, n := first + tail, |first| - 2;
    frame := first[..n];
    assert text[..n] == frame;
    assert text[n + 2..] == tail;
  }

  /** The frames carry exactly these events, in order. */
  ghost predicate Carry(frames: seq<string>, events: seq<Event>) {
    |frames| == |events| && forall i :: 0 <= i < |events| ==> Fields(frames[i]) == Some(events[i])
  }

  /** Round trip: printed events are recovered exactly, with nothing left over. */
  lemma {:induction false} PrintedFrames(events: seq<Event>)
    requires SingleLine(events)
    ensures Residue(PrintAll(events)) == ""
    ensures Carry(Frames(PrintAll(events)), events)
  {
    if events != [] {
      PrintedFrames(events[1..]);
      var frame := PrintStep(events[0].0, events[0].1, PrintAll(events[1..]));
    }
  }

  // ---- folding frames into the last turn --------------------------------------------

  datatype Role = User | Assistant
  type Citation = string
  type Action = string

  /** What a turn's error line says: the server's words, or one of two fixed texts. */
  datatype Fault = Said(message: string) | Broke | NoAnswer

  datatype Turn = Turn(role: Role, content: string, citations: seq<Citation>, error: Option<Fault>, actions: seq<Action>)

  /** What an event's data holds, seen through the casts the reader makes. */
  datatype Payload = Payload(delta: string, citation: Citation, actions: seq<Action>, message: string)

  /** JSON.parse and the field read that an event of this name makes of the result: a
      payload, or the exception thrown. Data such as `null` may be read under one name
      and not under another. */
  type Parser = (string, string) -> Option<Payload>

  const EMPTY_ANSWER := Turn(Assistant, "", [], None, [])
  datatype Kind = Text | Tool | Actions | Error | Other

  function KindOf(event: string): Kind {
    if event == "text" then Text
    else if event == "tool" then Tool
    else if event == "actions" then Actions
    else if event == "error" then Error
    else Other
  }

  /** One event's effect on a turn; unknown events have none. */
  function Update(turn: Turn, event: string, data: Payload): Turn {
    match KindOf(event)
    case Text => turn.(content := turn.content + data.delta)
    case Tool => turn.(citations := turn.citations + [data.citation])
    case Actions => turn.(actions := turn.actions + data.actions)
    case Error => turn.(error := Some(Said(data.message)))
    case Other => turn
  }

  /** A turn and whether the stream is still being read. */
  datatype Reading = Reading(turn: Turn, broken: bool)

  /** One frame: skipped without both lines, fatal when its data will not parse. */
  function Fold1(r: Reading, frame: string, parse: Parser): Reading {
    if r.broken then r else
      match Fields(frame)
      case None => r
      case Some((event, data)) =>
        match parse(event, data)
        case None => Reading(r.turn.(error := Some(Broke)), true)
        case Some(payload) => Reading(Update(r.turn, event, payload), false)
  }

  type Step = (Reading, string) -> Reading

  function Stepper(parse: Parser): Step {
    (r: Reading, frame: string) => Fold1(r, frame, parse)
  }

  function Fold(r: Reading, frames: seq<string>, step: Step): Reading {
    if frames == [] then r else step(Fold(r, frames[..|frames| - 1], step), frames[|frames| - 1])
  }

  /** Where the frames of a text take a reading. */
  function Outcome(r: Reading, text: string, parse: Parser): Reading {
    Fold(r, Frames(text), Stepper(parse))
  }

  lemma {:induction false} FoldAppend(r: Reading, xs: seq<string>, ys: seq<string>, step: Step)
    ensures Fold(r, xs + ys, step) == Fold(Fold(r, xs, step), ys, step)
    decreases |ys|
  {
    if ys == [] {
      assert xs + ys == xs;
    } else {
      FoldAppend(r, xs, ys[..|ys| - 1], step);
      assert (xs + ys)[..|xs + ys| - 1] == xs + ys[..|ys| - 1];
    }
  }

  ghost predicate StopsOnceBroken(step: Step) {
    forall r: Reading, frame :: r.broken ==> step(r, frame) == r
  }

  lemma {:induction false} FoldBroken(r: Reading, frames: seq<string>, step: Step)
    requires r.broken && StopsOnceBroken(step)
    ensures Fold(r, frames, step) == r
  {
    if frames != [] {
      FoldBroken(r, frames[..|frames| - 1], step);
    }
  }

  // ---- what a whole answer amounts to ---------------------------------------------------

  type Event = (string, string)

  /** The events a stream's frames carry, frames without both lines left out. */
  function Carried(frames: seq<string>): seq<Event> {
    if frames == [] then [] else
      var rest, last := Carried(frames[..|frames| - 1]), Fields(frames[|frames| - 1]);
      if last.Some? then rest + [last.value] else rest
  }

  /** How many events are read before one whose data is not. */
  function Readable(events: seq<Event>, parse: Parser): (n: nat)
    ensures n <= |events|
  {
    if events == [] then 0 else
      var n := Readable(events[..|events| - 1], parse);
      if n == |events| - 1 && parse(events[n].0, events[n].1).Some? then n + 1 else n
  }

  /** That is the first one not read. */
  lemma {:induction false} ReadableMeaning(events: seq<Event>, parse: Parser)
    ensures var n := Readable(events, parse);
      && (forall i :: 0 <= i < n ==> parse(events[i].0, events[i].1).Some?)
      && (n < |events| ==> parse(events[n].0, events[n].1).None?)
  {
    if events != [] {
      ReadableMeaning(events[..|events| - 1], parse);
    }
  }

  /** The payloads of the events of one name, in order. */
  function Named(events: seq<Event>, name: string, parse: Parser): seq<Payload> {
    if events == [] then [] else
      var rest, last := Named(events[..|events| - 1], name, parse), events[|events| - 1];
      if last.0 == name && parse(last.0, last.1).Some? then rest + [parse(last.0, last.1).value] else rest
  }

  function Deltas(ps: seq<Payload>): string {
    if ps == [] then "" else Deltas(ps[..|ps| - 1]) + ps[|ps| - 1].delta
  }

  function Citations(ps: seq<Payload>): seq<Citation> {
    if ps == [] then [] else Citations(ps[..|ps| - 1]) + [ps[|ps| - 1].citation]
  }

  function Proposals(ps: seq<Payload>): seq<Action> {
    if ps == [] then [] else Proposals(ps[..|ps| - 1]) + ps[|ps| - 1].actions
  }

  /** The last message, if there is one. */
  function LastMessage(ps: seq<Payload>, otherwise: Option<Fault>): Option<Fault> {
    if ps == [] then otherwise else Some(Said(ps[|ps| - 1].message))
  }

  /** The turn that takes up these events: the deltas of "text" joined, the citations of
      "tool" and the proposals of "actions" in order, the message of the last "error". */
  ghost predicate Joins(turn: Turn, result: Turn, events: seq<Event>, parse: Parser) {
    && result.role == turn.role
    && result.content == turn.content + Deltas(Named(events, "text", parse))
    && result.citations == turn.citations + Citations(Named(events, "tool", parse))
    && result.actions == turn.actions + Proposals(Named(events, "actions", parse))
    && result.error == LastMessage(Named(events, "error", parse), turn.error)
  }

  lemma NamedSnoc(events: seq<Event>, name: string, last: Event, payload: Payload, parse: Parser)
    requires parse(last.0, last.1) == Some(payload)
    ensures Named(events + [last], name, parse) == if last.0 == name then Named(events, name, parse) + [payload] else Named(events, name, parse)
  {
    assert (events + [last])[..|events|] == events;
  }

  lemma JoinSnoc(ps: seq<Payload>, payload: Payload)
    ensures Deltas(ps + [payload]) == Deltas(ps) + payload.delta
    ensures Citations(ps + [payload]) == Citations(ps) + [payload.citation]
    ensures Proposals(ps + [payload]) == Proposals(ps) + payload.actions
  {
    assert (ps + [payload])[..|ps|] == ps;
  }

  lemma JoinsStep(turn: Turn, result: Turn, events: seq<Event>, last: Event, payload: Payload, parse: Parser)
    requires Joins(turn, result, events, parse) && parse(last.0, last.1) == Some(payload)
    ensures Joins(turn, Update(result, last.0, payload), events + [last], parse)
  {
    UpdateMeaning(result, last.0, payload);
    DeltaStep(turn.content, events, "text", last, payload, parse);
    CitationStep(turn.citations, events, "tool", last, payload, parse);
    ProposalStep(turn.actions, events, "actions", last, payload, parse);
    NamedSnoc(events, "error", last, payload, parse);
  }

  /** Each event touches its own part of the turn and no other. */
  lemma UpdateMeaning(turn: Turn, event: string, data: Payload)
    ensures var next := Update(turn, event, data);
      && next.role == turn.role
      && next.content == (if event == "text" then turn.content + data.delta else turn.content)
      && next.citations == (if event == "tool" then turn.citations + [data.citation] else turn.citations)
      && next.actions == (if event == "actions" then turn.actions + data.actions else turn.actions)
      && next.error == (if event == "error" then Some(Said(data.message)) else turn.error)
  {
    NamesDiffer();
  }

  lemma DeltaStep(start: string, events: seq<Event>, name: string, last: Event, payload: Payload, parse: Parser)
    requires parse(last.0, last.1) == Some(payload)
    ensures start + Deltas(Named(events + [last], name, parse)) ==
      start + Deltas(Named(events, name, parse)) + if last.0 == name then payload.delta else ""
  {
    NamedSnoc(events, name, last, payload, parse);
    JoinSnoc(Named(events, name, parse), payload);
    Reassociate(start, Deltas(Named(events, name, parse)), payload.delta);
  }

  lemma CitationStep(start: seq<Citation>, events: seq<Event>, name: string, last: Event, payload: Payload, parse: Parser)
    requires parse(last.0, last.1) == Some(payload)
    ensures start + Citations(Named(events + [last], name, parse)) ==
      start + Citations(Named(events, name, parse)) + if last.0 == name then [payload.citation] else []
  {
    NamedSnoc(events, name, last, payload, parse);
    JoinSnoc(Named(events, name, parse), payload);
    Reassociate(start, Citations(Named(events, name, parse)), [payload.citation]);
  }

  lemma ProposalStep(start: seq<Action>, events: seq<Event>, name: string, last: Event, payload: Payload, parse: Parser)
    requires parse(last.0, last.1) == Some(payload)
    ensures start + Proposals(Named(events + [last], name, parse)) ==
      start + Proposals(Named(events, name, parse)) + if last.0 == name then payload.actions else []
  {
    NamedSnoc(events, name, last, payload, parse);
    JoinSnoc(Named(events, name, parse), payload);
    Reassociate(start, Proposals(Named(events, name, parse)), payload.actions);
  }

  lemma NamesDiffer()
    ensures "text" != "tool" && "text" != "actions" && "text" != "error" && "tool" != "actions" && "tool" != "error" && "actions" != "error"
  {
    assert |"text"| == 4 && |"actions"| == 7 && |"error"| == 5;
    assert "text"[1] == 'e' && "tool"[1] == 'o';
  }

  /** What a reading of these events amounts to: all of them taken up, or those before the
      first whose data is not read, and then the stream is broken. */
  ghost predicate Amounts(turn: Turn, r: Reading, events: seq<Event>, parse: Parser) {
    var n := Readable(events, parse);
    if n == |events| then !r.broken && Joins(turn, r.turn, events, parse)
    else r.broken && exists before :: Joins(turn, before, events[..n], parse) && r.turn == before.(error := Some(Broke))
  }

  /** For every list of frames. */
  lemma {:induction false} FoldMeaning(turn: Turn, frames: seq<string>, parse: Parser)
    ensures Amounts(turn, Fold(Reading(turn, false), frames, Stepper(parse)), Carried(frames), parse)
  {
    if frames != [] {
      var init, frame := frames[..|frames| - 1], frames[|frames| - 1];
      FoldMeaning(turn, init, parse);
      if Fields(frame).Some? {
        AmountsStep(turn, Fold(Reading(turn, false), init, Stepper(parse)), Carried(init), frame, parse);
      }
    }
  }

  lemma AmountsStep(turn: Turn, r: Reading, events: seq<Event>, frame: string, parse: Parser)
    requires Amounts(turn, r, events, parse) && Fields(frame).Some?
    ensures Amounts(turn, Fold1(r, frame, parse), events + [Fields(frame).value], parse)
  {
    var last := Fields(frame).value;
    var all := events + [last];
    assert all[..|events|] == events && all[|all| - 1] == last;
    var n := Readable(events, parse);
    if n == |events| {
      if parse(last.0, last.1).Some? {
        JoinsStep(turn, r.turn, events, last, parse(last.0, last.1).value, parse);
      } else {
        assert Joins(turn, r.turn, all[..n], parse);
      }
    } else {
      assert all[..n] == events[..n];
    }
  }

  // ---- the reader ---------------------------------------------------------------------------

  datatype Response = Unavailable(detail: Option<string>) | Streamed(chunks: seq<string>, dropped: bool)

  /** The turn an answer ends as: independent of how the stream was chunked. */
  function Answer(response: Response, parse: Parser): Turn {
    match response
    case Unavailable(detail) => EMPTY_ANSWER.(error := Some(if detail.Some? then Said(detail.value) else NoAnswer))
    case Streamed(chunks, dropped) =>
      var r := Fold(Reading(EMPTY_ANSWER, false), Frames(Concat(chunks)), Stepper(parse));
      if dropped && !r.broken then r.turn.(error := Some(Broke)) else r.turn
  }

  class Chat {
    var turns: seq<Turn>
    var busy: bool
    var buffer: string

    constructor ()
      ensures turns == [] && !busy
    {
      turns, busy, buffer := [], false, "";
    }

    /** Only the last turn changes, and only if there is one. */
    method PatchLast(next: Turn)
      modifies this`turns
      ensures turns == if old(turns) == [] then [] else old(turns)[..|old(turns)| - 1] + [next]
    {
      if turns != [] {
        turns := turns[|turns| - 1 := next];
      }
    }

    /** Dispatch one frame; false when its data would not parse. */
    method Dispatch(frame: string, parse: Parser, ghost earlier: seq<Turn>, ghost turn: Turn) returns (ok: bool)
      requires turns == earlier + [turn]
      modifies this`turns
      ensures var r := Fold1(Reading(turn, false), frame, parse); ok == !r.broken && turns == earlier + [r.turn]
    {
      ok := true;
      match Fields(frame)
      case None =>
      case Some((event, data)) =>
        match parse(event, data) {
          case None =>
            PatchLast(turns[|turns| - 1].(error := Some(Broke)));
            ok := false;
          case Some(payload) =>
            PatchLast(Update(turns[|turns| - 1], event, payload));
        }
    }

    /** One chunk: append it, then cut and dispatch while a boundary is found. */
    method Feed(chunk: string, parse: Parser, ghost earlier: seq<Turn>, ghost turn: Turn) returns (ok: bool)
      requires turns == earlier + [turn]
      modifies this`turns, this`buffer
      ensures var r := Outcome(Reading(turn, false), old(buffer) + chunk, parse); ok == !r.broken && turns == earlier + [r.turn]
      ensures ok ==> buffer == Residue(old(buffer) + chunk)
    {
      buffer := buffer + chunk;
      ok := true;
      ghost var text, r := buffer, Reading(turn, false);
      var boundary := Boundary(buffer);
      while boundary.Some?
        invariant ok && !r.broken && boundary == Boundary(buffer) && turns == earlier + [r.turn]
        invariant Outcome(Reading(turn, false), text, parse) == Outcome(r, buffer, parse) && Residue(text) == Residue(buffer)
        decreases |buffer|
      {
        var frame := buffer[..boundary.value];
        CutNext(r, buffer, parse);
        buffer := buffer[boundary.value + 2..];
        boundary := Boundary(buffer);
        ok := Dispatch(frame, parse, earlier, r.turn);
        r := Fold1(r, frame, parse);
        if !ok {
          OutcomeBroken(r, buffer, parse);
          return;
        }
      }
    }

    /** Ask: the question and one answer are appended, the answer being what the
        whole response amounts to; no earlier turn changes. */
    method Ask(question: string, response: Response, parse: Parser)
      modifies this
      ensures Trim(question) == "" || old(busy) ==> unchanged(this)
      ensures Trim(question) != "" && !old(busy) ==>
        !busy && turns == old(turns) + [Turn(User, question, [], None, []), Answer(response, parse)]
    {
      if Trim(question) == "" || busy {
        return;
      }
      busy := true;
      var history := turns + [Turn(User, question, [], None, [])];
      turns := history + [EMPTY_ANSWER];
      Respond(response, parse, history);
      busy := false;
    }

    /** Turn one response into the last turn. */
    method Respond(response: Response, parse: Parser, ghost earlier: seq<Turn>)
      requires turns == earlier + [EMPTY_ANSWER]
      modifies this`turns, this`buffer
      ensures turns == earlier + [Answer(response, parse)]
    {
      match response {
        case Unavailable(detail) =>
          PatchLast(turns[|turns| - 1].(error := Some(if detail.Some? then Said(detail.value) else NoAnswer)));
        case Streamed(chunks, dropped) =>
          var ok := ReadAll(chunks, parse, earlier, EMPTY_ANSWER);
          if ok && dropped {
            PatchLast(turns[|turns| - 1].(error := Some(Broke)));
          }
      }
    }

    /** Read every chunk, stopping at the first frame that breaks the stream. */
    method ReadAll(chunks: seq<string>, parse: Parser, ghost earlier: seq<Turn>, ghost turn: Turn) returns (ok: bool)
      requires turns == earlier + [turn]
      modifies this`turns, this`buffer
      ensures var r := Fold(Reading(turn, false), Frames(Concat(chunks)), Stepper(parse)); ok == !r.broken && turns == earlier + [r.turn]
    {
      buffer := "";
      ok := true;
      ghost var r := Reading(turn, false);
      for i := 0 to |chunks|
        invariant ok && !r.broken && turns == earlier + [r.turn]
        invariant buffer == Residue(Concat(chunks[..i]))
        invariant r == Fold(Reading(turn, false), Frames(Concat(chunks[..i])), Stepper(parse))
      {
        FeedNext(Reading(turn, false), chunks, i, Stepper(parse));
        ok := Feed(chunks[i], parse, earlier, r.turn);
        r := Fold(r, Frames(Residue(Concat(chunks[..i])) + chunks[i]), Stepper(parse));
        if !ok {
          StaysBroken(Reading(turn, false), chunks, i + 1, Stepper(parse));
          return;
        }
      }
      assert chunks[..|chunks|] == chunks;
    }
  }

  /** Cutting one frame off and dispatching it leaves the same outcome. */
  lemma CutNext(r: Reading, buffer: string, parse: Parser)
    requires Boundary(buffer).Some?
    ensures var i := Boundary(buffer).value;
      && Outcome(r, buffer, parse) == Outcome(Fold1(r, buffer[..i], parse), buffer[i + 2..], parse)
      && Residue(buffer) == Residue(buffer[i + 2..])
  {
    var frame := buffer[..Boundary(buffer).value];
    FoldAppend(r, [frame], Frames(buffer[Boundary(buffer).value + 2..]), Stepper(parse));
    assert [frame][..0] == [];
  }

  lemma OutcomeBroken(r: Reading, text: string, parse: Parser)
    requires r.broken
    ensures Outcome(r, text, parse) == r
  {
    FoldBroken(r, Frames(text), Stepper(parse));
  }

  lemma FeedNext(start: Reading, chunks: seq<string>, i: nat, step: Step)
    requires i < |chunks|
    ensures var text := Concat(chunks[..i]);
      && Residue(Concat(chunks[..i + 1])) == Residue(Residue(text) + chunks[i])
      && Fold(start, Frames(Concat(chunks[..i + 1])), step) == Fold(Fold(start, Frames(text), step), Frames(Residue(text) + chunks[i]), step)
  {
    var text := Concat(chunks[..i]);
    assert chunks[..i + 1][..i] == chunks[..i];
    FramesAppend(text, chunks[i]);
    FoldAppend(start, Frames(text), Frames(Residue(text) + chunks[i]), step);
  }

  /** Frames already broken on stay broken whatever the rest of the stream holds. */
  lemma {:induction false} StaysBroken(start: Reading, chunks: seq<string>, i: nat, step: Step)
    requires i <= |chunks| && Fold(start, Frames(Concat(chunks[..i])), step).broken && StopsOnceBroken(step)
    ensures Fold(start, Frames(Concat(chunks)), step) == Fold(start, Frames(Concat(chunks[..i])), step)
    decreases |chunks| - i
  {
    if i == |chunks| {
      assert chunks[..i] == chunks;
    } else {
      FeedNext(start, chunks, i, step);
      FoldBroken(Fold(start, Frames(Concat(chunks[..i])), step), Frames(Residue(Concat(chunks[..i])) + chunks[i]), step);
      StaysBroken(start, chunks, i + 1, step);
    }
  }

  // ---- main results ---------------------------------------------------------------------------

  /** What reading chunk by chunk dispatches, and what it still holds. */
  function Incremental(chunks: seq<string>): (seq<string>, string) {
    if chunks == [] then ([], "") else
      var (frames, buffer) := Incremental(chunks[..|chunks| - 1]);
      var text := buffer + chunks[|chunks| - 1];
      (frames + Frames(text), Residue(text))
  }

  /** Reading chunk by chunk is one leftmost split of the whole text. */
  lemma {:induction false} IncrementalIsBatch(chunks: seq<string>)
    ensures Incremental(chunks) == (Frames(Concat(chunks)), Residue(Concat(chunks)))
  {
    if chunks != [] {
      IncrementalIsBatch(chunks[..|chunks| - 1]);
      FramesAppend(Concat(chunks[..|chunks| - 1]), chunks[|chunks| - 1]);
    }
  }

  /** Chunking independence: any two ways of cutting one text dispatch the same
      frames in the same order and leave the same residue, without a boundary. */
  lemma ChunkingIndependent(chunks: seq<string>, chunks': seq<string>)
    requires Concat(chunks) == Concat(chunks')
    ensures Incremental(chunks) == Incremental(chunks')
    ensures forall i :: 0 <= i ==> !BlankAt(Incremental(chunks).1, i)
  {
    IncrementalIsBatch(chunks);
    IncrementalIsBatch(chunks');
    BoundaryMeaning(Residue(Concat(chunks)));
  }

  /** Any single-line events, printed and cut anywhere, give the turn that takes them up. */
  lemma StreamRoundTrip(events: seq<Event>, chunks: seq<string>, parse: Parser)
    requires SingleLine(events) && Concat(chunks) == PrintAll(events)
    requires forall i :: 0 <= i < |events| ==> parse(events[i].0, events[i].1).Some?
    ensures Joins(Turn(Assistant, "", [], None, []), Answer(Streamed(chunks, false), parse), events, parse)
  {
    PrintedFrames(events);
    CarriedAll(Frames(PrintAll(events)), events);
    ReadableMeaning(events, parse);
    FoldMeaning(EMPTY_ANSWER, Frames(PrintAll(events)), parse);
  }

  lemma {:induction false} CarriedAll(frames: seq<string>, events: seq<Event>)
    requires Carry(frames, events)
    ensures Carried(frames) == events
    decreases |events|
  {
    if events != [] {
      CarriedAll(frames[..|frames| - 1], events[..|events| - 1]);
      assert Fields(frames[|frames| - 1]) == Some(events[|events| - 1]);
      assert events == events[..|events| - 1] + [events[|events| - 1]];
    }
  }

  /** What any answer amounts to. A stream that is dropped, or carries data that is not
      read, ends with that fault after what was read; a refused request says why. */
  lemma AnswerMeaning(response: Response, parse: Parser)
    ensures var answer := Answer(response, parse);
      match response
      case Unavailable(detail) =>
        answer == Turn(Assistant, "", [], Some(if detail.Some? then Said(detail.value) else NoAnswer), [])
      case Streamed(chunks, dropped) =>
        var events := Carried(Frames(Concat(chunks)));
        var n := Readable(events, parse);
        if n == |events| && !dropped then Joins(Turn(Assistant, "", [], None, []), answer, events, parse)
        else exists before :: Joins(Turn(Assistant, "", [], None, []), before, events[..n], parse) && answer == before.(error := Some(Broke))
  {
    if response.Streamed? {
      var frames := Frames(Concat(response.chunks));
      FoldMeaning(EMPTY_ANSWER, frames, parse);
      var r, events := Fold(Reading(EMPTY_ANSWER, false), frames, Stepper(parse)), Carried(frames);
      if Readable(events, parse) == |events| && response.dropped {
        assert events[..|events|] == events;
        assert Joins(EMPTY_ANSWER, r.turn, events[..Readable(events, parse)], parse);
      }
    }
  }
}
