/** The string operations of the web client, on well-formed text. */
module JsText {
  predicate IsSpace(c: char) {
    || c == ' ' || '\t' <= c <= '\r' || c == '\U{a0}' || c == '\U{feff}' || c == '\U{1680}'
    || '\U{2000}' <= c <= '\U{200a}' || c == '\U{2028}' || c == '\U{2029}' || c == '\U{202f}'
    || c == '\U{205f}' || c == '\U{3000}'
  }

  lemma Reassociate<T>(xs: seq<T>, ys: seq<T>, zs: seq<T>)
    ensures xs + (ys + zs) == xs + ys + zs
  {
  }

  /** One UTF-16 code unit: what the length of a text counts and a slice cuts by. */
  type Unit = u: int | 0 <= u < 0x1_0000

  predicate IsSpaceUnit(u: Unit) {
    || u == 0x20 || 9 <= u <= 13 || u == 0xA0 || u == 0xFEFF || u == 0x1680
    || 0x2000 <= u <= 0x200A || u == 0x2028 || u == 0x2029 || u == 0x202F || u == 0x205F || u == 0x3000
  }

  function TrimStart<T>(s: seq<T>, space: T -> bool): seq<T> {
    if s != [] && space(s[0]) then TrimStart(s[1..], space) else s
  }

  function TrimEnd<T>(s: seq<T>, space: T -> bool): seq<T> {
    if s != [] && space(s[|s| - 1]) then TrimEnd(s[..|s| - 1], space) else s
  }

  lemma {:induction false} TrimStartMeaning<T>(s: seq<T>, space: T -> bool)
    ensures var r := TrimStart(s, space);
      |r| <= |s| && r == s[|s| - |r|..] && (r == [] || !space(r[0])) && forall i :: 0 <= i < |s| - |r| ==> space(s[i])
  {
    if s != [] && space(s[0]) {
      TrimStartMeaning(s[1..], space);
      var r := TrimStart(s[1..], space);
      assert s[1..][|s| - 1 - |r|..] == s[|s| - |r|..];
      forall i | 0 <= i < |s| - |r|
        ensures space(s[i])
      {
        assert i > 0 ==> s[i] == s[1..][i - 1];
      }
    }
  }

  lemma {:induction false} TrimEndMeaning<T>(s: seq<T>, space: T -> bool)
    ensures var r := TrimEnd(s, space);
      r <= s && (r == [] || !space(r[|r| - 1])) && forall i :: |r| <= i < |s| ==> space(s[i])
  {
    if s != [] && space(s[|s| - 1]) {
      TrimEndMeaning(s[..|s| - 1], space);
    }
  }

  function TrimBy<T>(s: seq<T>, space: T -> bool): seq<T> {
    TrimEnd(TrimStart(s, space), space)
  }

  function Trim(s: string): string {
    TrimBy(s, IsSpace)
  }

  function TrimUnits(s: seq<Unit>): seq<Unit> {
    TrimBy(s, IsSpaceUnit)
  }

  predicate TidyBy<T>(s: seq<T>, space: T -> bool) {
    s == [] || (!space(s[0]) && !space(s[|s| - 1]))
  }

  predicate Tidy(s: string) {
    TidyBy(s, IsSpace)
  }

  /** Trimming leaves no outer space, and leaves tidy text alone. */
  lemma TrimTidy<T>(s: seq<T>, space: T -> bool)
    ensures TidyBy(TrimBy(s, space), space) && |TrimBy(s, space)| <= |s|
    ensures TidyBy(s, space) ==> TrimBy(s, space) == s
  {
    TrimStartMeaning(s, space);
    TrimEndMeaning(TrimStart(s, space), space);
  }

  /** What trimming cuts off, in front and behind, is space and nothing else. */
  lemma TrimMeaning<T>(s: seq<T>, space: T -> bool) returns (front: seq<T>, behind: seq<T>)
    ensures s == front + TrimBy(s, space) + behind && TidyBy(TrimBy(s, space), space)
    ensures (forall i :: 0 <= i < |front| ==> space(front[i])) && (forall i :: 0 <= i < |behind| ==> space(behind[i]))
  {
    front := CutInFront(s, space);
    behind := CutBehind(TrimStart(s, space), space);
    TrimTidy(s, space);
    Reassociate(front, TrimBy(s, space), behind);
  }

  lemma CutInFront<T>(s: seq<T>, space: T -> bool) returns (front: seq<T>)
    ensures s == front + TrimStart(s, space) && forall i :: 0 <= i < |front| ==> space(front[i])
  {
    TrimStartMeaning(s, space);
    front := s[..|s| - |TrimStart(s, space)|];
  }

  lemma CutBehind<T>(s: seq<T>, space: T -> bool) returns (behind: seq<T>)
    ensures s == TrimEnd(s, space) + behind && forall i :: 0 <= i < |behind| ==> space(behind[i])
  {
    TrimEndMeaning(s, space);
    behind := s[|TrimEnd(s, space)|..];
  }

  /** Parts put together again with the separator between them. */
  function Join(parts: seq<string>, sep: char): string
    requires |parts| > 0
  {
    if |parts| == 1 then parts[0] else parts[0] + [sep] + Join(parts[1..], sep)
  }

  /** Splitting loses nothing, and no part holds the separator. */
  lemma {:induction false} SplitJoin(s: string, sep: char)
    ensures Join(Split(s, sep), sep) == s
  {
    if s != [] {
      var rest := Split(s[1..], sep);
      SplitJoin(s[1..], sep);
      if s[0] == sep {
        assert ([[]] + rest)[1..] == rest;
      } else {
        var first := [[s[0]] + rest[0]];
        assert (first + rest[1..])[1..] == rest[1..];
      }
    }
  }

  /** Dividing at every separator, as split does: one part more than separators. */
  function Split(s: string, sep: char): (parts: seq<string>)
    ensures |parts| > 0
    ensures forall i :: 0 <= i < |parts| ==> sep !in parts[i]
  {
    if s == [] then [[]] else
      var rest := Split(s[1..], sep);
      if s[0] == sep then [[]] + rest else [[s[0]] + rest[0]] + rest[1..]
  }

  /** Splitting text that starts with a part free of separators. */
  lemma {:induction false} SplitPart(part: string, sep: char, tail: string)
    requires sep !in part
    ensures Split(part, sep) == [part]
    ensures Split(part + [sep] + tail, sep) == [part] + Split(tail, sep)
  {
    var s := part + [sep] + tail;
    if part == [] {
      assert s[1..] == tail;
    } else {
      SplitPart(part[1..], sep, tail);
      assert s[1..] == part[1..] + [sep] + tail;
      assert part == [part[0]] + part[1..];
    }
  }
}
