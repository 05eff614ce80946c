/** Percent-encoding of text as UTF-8 bytes, as encodeURIComponent and
    decodeURIComponent define it (section 19.2.6 of ECMA-262). Text is a sequence
    of Unicode scalar values. */
module PercentCode {
  import opened Wrappers
  import JsText

  predicate Unescaped(c: char) {
    'a' <= c <= 'z' || 'A' <= c <= 'Z' || '0' <= c <= '9' || c in "-_.!~*'()"
  }

  type Byte = n: int | 0 <= n < 256

  predicate Scalar(n: int) {
    0 <= n < 0xD800 || 0xE000 <= n < 0x11_0000
  }

  function Utf8(n: int): (bytes: seq<Byte>)
    requires Scalar(n)
    ensures 1 <= |bytes| <= 4
  {
    if n < 0x80 then [n]
    else if n < 0x800 then [0xC0 + n / 64, 0x80 + n % 64]
    else if n < 0x1_0000 then [0xE0 + n / 4096, 0x80 + n / 64 % 64, 0x80 + n % 64]
    else [0xF0 + n / 262144, 0x80 + n / 4096 % 64, 0x80 + n / 64 % 64, 0x80 + n % 64]
  }

  function HexDigit(n: int): char
    requires 0 <= n < 16
  {
    if n < 10 then '0' + n as char else 'A' + (n - 10) as char
  }

  function HexValue(c: char): (r: Option<int>)
    ensures r.Some? ==> 0 <= r.value < 16
  {
    if '0' <= c <= '9' then Some(c as int - '0' as int)
    else if 'A' <= c <= 'F' then Some(c as int - 'A' as int + 10)
    else if 'a' <= c <= 'f' then Some(c as int - 'a' as int + 10)
    else None
  }

  function Escape(b: Byte): string {
    ['%', HexDigit(b / 16), HexDigit(b % 16)]
  }

  function EscapeAll(bytes: seq<Byte>): string {
    if bytes == [] then "" else Escape(bytes[0]) + EscapeAll(bytes[1..])
  }

  function EncodeChar(c: char): string {
    if Unescaped(c) then [c] else EscapeAll(Utf8(c as int))
  }

  function Encode(s: string): string {
    if s == "" then "" else EncodeChar(s[0]) + Encode(s[1..])
  }

  /** One escaped byte at the head of the text. */
  function ReadByte(s: string): (r: Option<Byte>)
    ensures r.Some? ==> |s| >= 3
  {
    if |s| < 3 || s[0] != '%' then None
    else match (HexValue(s[1]), HexValue(s[2]))
      case (Some(h), Some(l)) => Some(16 * h + l)
      case _ => None
  }

  /** The bytes that continue a multi-byte character, each 10xxxxxx. */
  function ReadTail(s: string, count: nat): (r: Option<seq<int>>)
    ensures r.Some? ==> |r.value| == count && |s| >= 3 * count && forall i :: 0 <= i < count ==> 0 <= r.value[i] < 64
    decreases count
  {
    if count == 0 then Some([])
    else match ReadByte(s)
      case None => None
      case Some(b) =>
        if b < 0x80 || b >= 0xC0 then None
        else match ReadTail(s[3..], count - 1)
          case None => None
          case Some(rest) => Some([b - 0x80] + rest)
  }

  /** The character a lead byte and its tail make, if they are valid UTF-8. */
  function Assemble(lead: Byte, tail: seq<int>): (r: Option<char>)
    requires |tail| == Width(lead) - 1 && forall i :: 0 <= i < |tail| ==> 0 <= tail[i] < 64
  {
    var n :=
      if |tail| == 0 then lead
      else if |tail| == 1 then (lead - 0xC0) * 64 + tail[0]
      else if |tail| == 2 then ((lead - 0xE0) * 64 + tail[0]) * 64 + tail[1]
      else (((lead - 0xF0) * 64 + tail[0]) * 64 + tail[1]) * 64 + tail[2];
    var least := if |tail| == 0 then 0 else if |tail| == 1 then 0x80 else if |tail| == 2 then 0x800 else 0x1_0000;
    if least <= n && Scalar(n) then Some(n as char) else None
  }

  /** How many bytes a lead byte announces; 0 for one that may not lead. */
  function Width(lead: Byte): (w: nat)
    ensures w <= 4
  {
    if lead < 0x80 then 1
    else if lead < 0xC0 then 0
    else if lead < 0xE0 then 2
    else if lead < 0xF0 then 3
    else if lead < 0xF8 then 4
    else 0
  }

  /** The text, or nothing where decodeURIComponent throws. */
  function Decode(s: string): (r: Option<string>)
    decreases |s|
  {
    if s == "" then Some("")
    else if s[0] != '%' then Prepend(s[0], Decode(s[1..]))
    else match ReadByte(s)
      case None => None
      case Some(lead) =>
        if Width(lead) == 0 then None
        else match ReadTail(s[3..], Width(lead) - 1)
          case None => None
          case Some(tail) =>
            match Assemble(lead, tail)
            case None => None
            case Some(c) => Prepend(c, Decode(s[3 * Width(lead)..]))
  }

  function Prepend(c: char, r: Option<string>): Option<string> {
    match r
    case None => None
    case Some(s) => Some([c] + s)
  }

  lemma ReadEscape(b: Byte, t: string)
    ensures ReadByte(Escape(b) + t) == Some(b) && (Escape(b) + t)[3..] == t
  {
  }

  function Low(bytes: seq<Byte>): seq<int> {
    if bytes == [] then [] else [bytes[0] - 0x80] + Low(bytes[1..])
  }

  lemma {:induction false} ReadTailEscaped(bytes: seq<Byte>, t: string)
    requires forall i :: 0 <= i < |bytes| ==> 0x80 <= bytes[i] < 0xC0
    ensures |EscapeAll(bytes)| == 3 * |bytes|
    ensures ReadTail(EscapeAll(bytes) + t, |bytes|) == Some(Low(bytes))
  {
    if bytes != [] {
      var first, rest := Escape(bytes[0]), EscapeAll(bytes[1..]);
      ReadTailEscaped(bytes[1..], t);
      ReadTailStep(bytes[0], rest + t, |bytes| - 1);
      assert first + rest + t == first + (rest + t);
    }
  }

  lemma ReadTailStep(b: Byte, rest: string, count: nat)
    requires 0x80 <= b < 0xC0 && ReadTail(rest, count).Some?
    ensures ReadTail(Escape(b) + rest, count + 1) == Some([b - 0x80] + ReadTail(rest, count).value)
  {
  }

  lemma Digits64(n: nat)
    ensures n == n / 64 * 64 + n % 64
    ensures n / 64 == n / 4096 * 64 + n / 64 % 64
    ensures n / 4096 == n / 262144 * 64 + n / 4096 % 64
  {
  }

  /** UTF-8 bytes announce their number and assemble back to their character. */
  ghost predicate Reassembles(bytes: seq<Byte>, n: int)
    requires Scalar(n)
  {
    && bytes != [] && Width(bytes[0]) == |bytes|
    && (forall i :: 0 <= i < |bytes[1..]| ==> 0x80 <= bytes[1..][i] < 0xC0)
    && |Low(bytes[1..])| == |bytes| - 1
    && (forall i :: 0 <= i < |Low(bytes[1..])| ==> 0 <= Low(bytes[1..])[i] < 64)
    && Assemble(bytes[0], Low(bytes[1..])) == Some(n as char)
  }

  lemma AssembleOne(n: int)
    requires 0 <= n < 0x80
    ensures Reassembles([n], n)
  {
  }

  lemma AssembleTwo(n: int)
    requires 0x80 <= n < 0x800
    ensures Reassembles([0xC0 + n / 64, 0x80 + n % 64], n)
  {
    Digits64(n);
    var tail: seq<Byte> := [0x80 + n % 64];
    assert Low(tail) == [n % 64];
    assert [0xC0 + n / 64, 0x80 + n % 64][1..] == tail;
  }

  lemma AssembleThree(n: int)
    requires 0x800 <= n < 0x1_0000 && Scalar(n)
    ensures Reassembles([0xE0 + n / 4096, 0x80 + n / 64 % 64, 0x80 + n % 64], n)
  {
    Digits64(n);
    var tail: seq<Byte> := [0x80 + n / 64 % 64, 0x80 + n % 64];
    assert Low(tail[1..]) == [n % 64];
    assert Low(tail) == [n / 64 % 64, n % 64];
    assert [0xE0 + n / 4096, 0x80 + n / 64 % 64, 0x80 + n % 64][1..] == tail;
  }

  lemma AssembleFour(n: int)
    requires 0x1_0000 <= n < 0x11_0000
    ensures Reassembles([0xF0 + n / 262144, 0x80 + n / 4096 % 64, 0x80 + n / 64 % 64, 0x80 + n % 64], n)
  {
    Digits64(n);
    var tail: seq<Byte> := [0x80 + n / 4096 % 64, 0x80 + n / 64 % 64, 0x80 + n % 64];
    assert Low(tail[2..]) == [n % 64];
    assert Low(tail[1..]) == [n / 64 % 64, n % 64];
    assert Low(tail) == [n / 4096 % 64, n / 64 % 64, n % 64];
    assert [0xF0 + n / 262144, 0x80 + n / 4096 % 64, 0x80 + n / 64 % 64, 0x80 + n % 64][1..] == tail;
  }

  lemma AssembleUtf8(n: int)
    requires Scalar(n)
    ensures Reassembles(Utf8(n), n)
  {
    if n < 0x80 {
      AssembleOne(n);
    } else if n < 0x800 {
      AssembleTwo(n);
    } else if n < 0x1_0000 {
      AssembleThree(n);
    } else {
      AssembleFour(n);
    }
  }

  lemma DecodeChar(c: char, t: string)
    ensures Decode(EncodeChar(c) + t) == Prepend(c, Decode(t))
  {
    if Unescaped(c) {
      assert ([c] + t)[1..] == t;
    } else {
      var bytes := Utf8(c as int);
      AssembleUtf8(c as int);
      var tail := bytes[1..];
      var rest := EscapeAll(tail) + t;
      ReadEscape(bytes[0], rest);
      ReadTailEscaped(tail, t);
      assert EncodeChar(c) + t == Escape(bytes[0]) + rest;
      var s := Escape(bytes[0]) + rest;
      assert s[3 * |bytes|..] == t;
    }
  }

  /** Round trip over all text. */
  lemma {:induction false} DecodeEncode(s: string)
    ensures Decode(Encode(s)) == Some(s)
  {
    if s != "" {
      DecodeEncode(s[1..]);
      DecodeChar(s[0], Encode(s[1..]));
      assert s == [s[0]] + s[1..];
    }
  }

  predicate Safe(s: string) {
    forall i :: 0 <= i < |s| ==> Unescaped(s[i]) || s[i] == '%'
  }

  lemma {:induction false} EscapeAllSafe(bytes: seq<Byte>)
    ensures Safe(EscapeAll(bytes))
  {
    if bytes != [] {
      EscapeAllSafe(bytes[1..]);
    }
  }

  /** Encoded text holds only unreserved characters and percent signs. */
  lemma {:induction false} EncodeSafe(s: string)
    ensures Safe(Encode(s))
  {
    if s != "" {
      EncodeSafe(s[1..]);
      EscapeAllSafe(Utf8(s[0] as int));
    }
  }

  /** Letters, digits and the nine marks stand for themselves. */
  lemma {:induction false} EncodePlain(s: string)
    requires forall i :: 0 <= i < |s| ==> 'a' <= s[i] <= 'z' || 'A' <= s[i] <= 'Z' || '0' <= s[i] <= '9' || s[i] in "-_.!~*'()"
    ensures Encode(s) == s
  {
    if s != "" {
      EncodePlain(s[1..]);
      assert s == [s[0]] + s[1..];
    }
  }

  predicate IsHex(c: char) {
    '0' <= c <= '9' || 'A' <= c <= 'F' || 'a' <= c <= 'f'
  }

  /** A percent sign that no two hexadecimal digits follow makes the whole text unreadable,
      whatever stands before it. */
  lemma {:induction false} StrayPercent(s: string, t: string)
    requires !(|t| >= 2 && IsHex(t[0]) && IsHex(t[1]))
    ensures Decode(Encode(s) + (['%'] + t)) == None
  {
    if s == "" {
      assert Encode(s) + (['%'] + t) == ['%'] + t;
      StrayHead(t);
    } else {
      var tail := ['%'] + t;
      StrayPercent(s[1..], t);
      DecodeChar(s[0], Encode(s[1..]) + tail);
      JsText.Reassociate(EncodeChar(s[0]), Encode(s[1..]), tail);
    }
  }

  lemma StrayHead(t: string)
    requires !(|t| >= 2 && IsHex(t[0]) && IsHex(t[1]))
    ensures Decode(['%'] + t) == None
  {
    assert ReadByte(['%'] + t) == None;
  }

  /** Text without a percent sign stands for itself. */
  lemma {:induction false} DecodePlain(s: string)
    requires '%' !in s
    ensures Decode(s) == Some(s)
  {
    if s != "" {
      DecodePlain(s[1..]);
      assert s == [s[0]] + s[1..];
    }
  }
}
