/** The last dataset a person worked in, per organisation, kept in plain cookies:
    written one at a time, read back by scanning the joined cookie string. */
module LastDataset {
  import opened Wrappers
  import opened JsText
  import opened PercentCode

  datatype Cookie = Cookie(name: string, value: string)

  const PREFIX := "er_last_ds_"

  function CookieName(org: string): string {
    PREFIX + org
  }

  // ---- the scan ------------------------------------------------------------------

  function IndexOf(s: string, c: char): (r: Option<nat>)
    ensures r.Some? ==> r.value < |s| && s[r.value] == c
    ensures r.None? ==> c !in s
  {
    if s == "" then None
    else if s[0] == c then Some(0)
    else match IndexOf(s[1..], c)
      case None => None
      case Some(i) => Some(i + 1)
  }

  /** A stored value: nothing when it is malformed or empty. */
  function Value(raw: string): Option<string> {
    match Decode(raw)
    case None => None
    case Some(value) => if value == "" then None else Some(value)
  }

  /** What one part of the cookie string says of a name, if it names it. */
  function ReadPart(part: string, name: string): Option<Option<string>> {
    match IndexOf(part, '=')
    case None => None
    case Some(eq) => if Trim(part[..eq]) == name then Some(Value(Trim(part[eq + 1..]))) else None
  }

  /** The first part that names the cookie decides. */
  function ReadParts(parts: seq<string>, name: string): Option<string> {
    if parts == [] then None
    else match ReadPart(parts[0], name)
      case Some(r) => r
      case None => ReadParts(parts[1..], name)
  }

  function Read(header: string, org: string): Option<string> {
    ReadParts(Split(header, ';'), CookieName(org))
  }

  method ReadLastDataset(header: string, org: string) returns (r: Option<string>)
    ensures r == Read(header, org)
  {
    var name, parts := CookieName(org), Split(header, ';');
    for i := 0 to |parts|
      invariant ReadParts(parts, name) == ReadParts(parts[i..], name)
    {
      var found := ReadNamed(parts[i], name);
      assert parts[i..][1..] == parts[i + 1..];
      if found.Some? {
        return found.value;
      }
    }
    return None;
  }

  method ReadNamed(part: string, name: string) returns (r: Option<Option<string>>)
    ensures r == ReadPart(part, name)
  {
    var eq := IndexOf(part, '=');
    if eq.None? || Trim(part[..eq.value]) != name {
      return None;
    }
    var value := Decode(Trim(part[eq.value + 1..]));
    return Some(if value.None? || value.value == "" then None else value);
  }

  // ---- the jar ---------------------------------------------------------------------

  /** A cookie that survives the cookie string: no separator in the name or value,
      no outer space, no equals sign in the name. */
  predicate WellFormed(c: Cookie) {
    && ';' !in c.name && '=' !in c.name && Tidy(c.name)
    && ';' !in c.value && Tidy(c.value)
  }

  predicate WellFormedAll(cookies: seq<Cookie>) {
    forall i :: 0 <= i < |cookies| ==> WellFormed(cookies[i])
  }

  predicate Slug(org: string) {
    forall i :: 0 <= i < |org| ==> 'a' <= org[i] <= 'z' || '0' <= org[i] <= '9' || org[i] in "-_"
  }

  /** document.cookie: the pairs joined by a semicolon and a space. */
  function Render(cookies: seq<Cookie>): string {
    if cookies == [] then ""
    else if |cookies| == 1 then cookies[0].name + (['='] + cookies[0].value)
    else cookies[0].name + (['='] + cookies[0].value) + ([';'] + ([' '] + Render(cookies[1..])))
  }

  /** Assigning document.cookie: replace in place or append. */
  function Store(cookies: seq<Cookie>, c: Cookie): seq<Cookie> {
    if cookies == [] then [c]
    else if cookies[0].name == c.name then [c] + cookies[1..]
    else [cookies[0]] + Store(cookies[1..], c)
  }

  function Remembering(org: string, ds: string): Cookie {
    Cookie(CookieName(org), Encode(ds))
  }

  lemma SafeTidy(s: string)
    requires Safe(s)
    ensures Tidy(s) && ';' !in s
  {
  }

  lemma RememberingWellFormed(org: string, ds: string)
    requires Slug(org)
    ensures WellFormed(Remembering(org, ds))
  {
    EncodeSafe(ds);
    SafeTidy(Encode(ds));
    var name := CookieName(org);
    forall i | 0 <= i < |name|
      ensures name[i] != ';' && name[i] != '=' && !IsSpace(name[i])
    {
      if i >= |PREFIX| {
        assert name[i] == org[i - |PREFIX|];
      }
    }
  }

  // ---- reading what was rendered --------------------------------------------------------

  /** The value of a name in the jar, as the scan reports it. */
  function Lookup(cookies: seq<Cookie>, name: string): Option<string> {
    if cookies == [] then None
    else if cookies[0].name == name then Value(cookies[0].value)
    else Lookup(cookies[1..], name)
  }

  lemma {:induction false} IndexOfFirst(s: string, c: char, t: string)
    requires c !in s
    ensures IndexOf(s + [c] + t, c) == Some(|s|)
  {
    var u := s + [c] + t;
    if s != "" {
      IndexOfFirst(s[1..], c, t);
      assert u[1..] == s[1..] + [c] + t;
    }
  }

  lemma PadTrim(name: string)
    requires Tidy(name)
    ensures Trim(name) == name && Trim([' '] + name) == name
  {
  }

  /** One part, with or without the space the join puts before it. */
  lemma ReadPartOf(c: Cookie, pad: string, name: string)
    requires WellFormed(c) && (pad == [] || pad == [' '])
    ensures ReadPart(Part(c, pad), name) == if c.name == name then Some(Value(c.value)) else None
  {
    var key := pad + c.name;
    KeyOf(c, pad);
    IndexOfFirst(key, '=', c.value);
    Reassociate(key, ['='], c.value);
    Halves(key, '=', c.value);
    TrimTidy(c.value, IsSpace);
  }

  lemma KeyOf(c: Cookie, pad: string)
    requires WellFormed(c) && (pad == [] || pad == [' '])
    ensures '=' !in pad + c.name && Trim(pad + c.name) == c.name
  {
    PadTrim(c.name);
    assert pad == [] ==> pad + c.name == c.name;
  }

  lemma Halves(key: string, sep: char, tail: string)
    ensures var s := key + ([sep] + tail); s[..|key|] == key && s[|key| + 1..] == tail
  {
  }

  function Part(c: Cookie, pad: string): string {
    pad + c.name + (['='] + c.value)
  }

  lemma PartPlain(c: Cookie, pad: string)
    requires WellFormed(c) && (pad == [] || pad == [' '])
    ensures ';' !in Part(c, pad)
  {
  }

  /** The rendered jar, cut at its first separator. */
  lemma RenderCut(cookies: seq<Cookie>, pad: string)
    requires cookies != []
    ensures |cookies| == 1 ==> pad + Render(cookies) == Part(cookies[0], pad)
    ensures |cookies| > 1 ==> pad + Render(cookies) == Part(cookies[0], pad) + [';'] + ([' '] + Render(cookies[1..]))
  {
    var c := cookies[0];
    Reassociate(pad, c.name, ['='] + c.value);
    if |cookies| > 1 {
      var tail := [' '] + Render(cookies[1..]);
      Reassociate(pad, c.name + (['='] + c.value), [';'] + tail);
      Reassociate(Part(c, pad), [';'], tail);
    }
  }

  /** Scanning the rendered jar is a lookup in the jar. */
  lemma {:induction false} ReadRendered(cookies: seq<Cookie>, pad: string, name: string)
    requires forall i :: 0 <= i < |cookies| ==> WellFormed(cookies[i])
    requires pad == [] || pad == [' ']
    ensures ReadParts(Split(pad + Render(cookies), ';'), name) == Lookup(cookies, name)
  {
    if cookies == [] {
      SplitPart(pad, ';', "");
      assert pad + Render(cookies) == pad;
      assert Split(pad, ';')[1..] == [];
    } else {
      var part := Part(cookies[0], pad);
      PartPlain(cookies[0], pad);
      ReadPartOf(cookies[0], pad, name);
      RenderCut(cookies, pad);
      if |cookies| == 1 {
        SplitPart(part, ';', "");
        assert [part][1..] == [];
        assert cookies[1..] == [];
      } else {
        var tail := [' '] + Render(cookies[1..]);
        SplitPart(part, ';', tail);
        ReadRendered(cookies[1..], [' '], name);
        assert ([part] + Split(tail, ';'))[1..] == Split(tail, ';');
      }
    }
  }

  lemma {:induction false} StoreLookup(cookies: seq<Cookie>, c: Cookie, name: string)
    ensures Lookup(Store(cookies, c), name) == if c.name == name then Value(c.value) else Lookup(cookies, name)
  {
    if cookies != [] {
      if cookies[0].name == c.name {
        assert ([c] + cookies[1..])[1..] == cookies[1..];
      } else {
        StoreLookup(cookies[1..], c, name);
        assert Store(cookies, c)[1..] == Store(cookies[1..], c);
      }
    }
  }

  lemma {:induction false} StoreWellFormed(cookies: seq<Cookie>, c: Cookie)
    requires WellFormed(c) && forall i :: 0 <= i < |cookies| ==> WellFormed(cookies[i])
    ensures forall i :: 0 <= i < |Store(cookies, c)| ==> WellFormed(Store(cookies, c)[i])
  {
    if cookies != [] && cookies[0].name != c.name {
      StoreWellFormed(cookies[1..], c);
    }
  }

  // ---- the cookie string refines a map ------------------------------------------------------

  /** Everything that may be written to the jar. */
  datatype Write = Remember(org: string, ds: string) | Other(cookie: Cookie)

  /** Organisations are slugs; other cookies are well formed, whatever their name. */
  predicate Allowed(w: Write) {
    match w
    case Remember(org, _) => Slug(org)
    case Other(c) => WellFormed(c)
  }

  function Written(w: Write): Cookie {
    match w
    case Remember(org, ds) => Remembering(org, ds)
    case Other(c) => c
  }

  function StoreAll(writes: seq<Write>): seq<Cookie> {
    if writes == [] then [] else Store(StoreAll(writes[..|writes| - 1]), Written(writes[|writes| - 1]))
  }

  /** The map: what each organisation was last set to. */
  function Memory(writes: seq<Write>): map<string, string> {
    if writes == [] then map[] else
      var rest := Memory(writes[..|writes| - 1]);
      match writes[|writes| - 1]
      case Remember(org, ds) => rest[org := ds]
      case Other(_) => rest
  }

  lemma WrittenWellFormed(w: Write)
    requires Allowed(w)
    ensures WellFormed(Written(w))
  {
    if w.Remember? {
      RememberingWellFormed(w.org, w.ds);
    }
  }

  lemma NamesDistinct(org: string, other: string)
    ensures CookieName(org) == CookieName(other) <==> org == other
    ensures PREFIX <= CookieName(org)
  {
    assert CookieName(org)[|PREFIX|..] == org && CookieName(other)[|PREFIX|..] == other;
  }

  /** What the last write under an organisation's cookie name left there. */
  function Recalled(writes: seq<Write>, org: string): Option<string> {
    if writes == [] then None else
      match writes[|writes| - 1]
      case Remember(o, ds) =>
        if o != org then Recalled(writes[..|writes| - 1], org) else if ds == "" then None else Some(ds)
      case Other(c) =>
        if c.name != CookieName(org) then Recalled(writes[..|writes| - 1], org) else Value(c.value)
  }

  /** After any writes, reading an organisation's memory from the rendered string
      gives what was last written under its name and nothing else's. */
  lemma ReadsLastWritten(writes: seq<Write>, org: string)
    requires forall i :: 0 <= i < |writes| ==> Allowed(writes[i])
    ensures Read(Render(StoreAll(writes)), org) == Recalled(writes, org)
  {
    JarLookup(writes, org);
    ReadRendered(StoreAll(writes), "", CookieName(org));
    assert "" + Render(StoreAll(writes)) == Render(StoreAll(writes));
  }

  lemma {:induction false} JarLookup(writes: seq<Write>, org: string)
    requires forall i :: 0 <= i < |writes| ==> Allowed(writes[i])
    ensures forall i :: 0 <= i < |StoreAll(writes)| ==> WellFormed(StoreAll(writes)[i])
    ensures Lookup(StoreAll(writes), CookieName(org)) == Recalled(writes, org)
  {
    if writes != [] {
      var init, w := writes[..|writes| - 1], writes[|writes| - 1];
      JarLookup(init, org);
      WrittenWellFormed(w);
      StoreWellFormed(StoreAll(init), Written(w));
      StoreLookup(StoreAll(init), Written(w), CookieName(org));
      if w.Remember? {
        NamesDistinct(w.org, org);
        DecodeEncode(w.ds);
      }
    }
  }

  /** No other cookie takes the organisation's own name. */
  predicate Unclaimed(writes: seq<Write>, org: string) {
    forall i :: 0 <= i < |writes| && writes[i].Other? ==> writes[i].cookie.name != CookieName(org)
  }

  /** The cookie string is the map: reading gives the last dataset remembered for the
      organisation, nothing if none was or if it was the empty name. */
  lemma ReadsLastRemembered(writes: seq<Write>, org: string)
    requires forall i :: 0 <= i < |writes| ==> Allowed(writes[i])
    requires Unclaimed(writes, org)
    ensures Read(Render(StoreAll(writes)), org) ==
      if org in Memory(writes) && Memory(writes)[org] != "" then Some(Memory(writes)[org]) else None
  {
    ReadsLastWritten(writes, org);
    RecalledMemory(writes, org);
  }

  lemma {:induction false} RecalledMemory(writes: seq<Write>, org: string)
    requires Unclaimed(writes, org)
    ensures Recalled(writes, org) ==
      if org in Memory(writes) && Memory(writes)[org] != "" then Some(Memory(writes)[org]) else None
  {
    if writes != [] {
      RecalledMemory(writes[..|writes| - 1], org);
    }
  }

  /** The browser's jar. */
  class Jar {
    var cookies: seq<Cookie>

    constructor ()
      ensures cookies == []
    {
      cookies := [];
    }

    method RememberDataset(org: string, ds: string)
      modifies this
      ensures Lookup(cookies, CookieName(org)) == if ds == "" then None else Some(ds)
      ensures forall name :: name != CookieName(org) ==> Lookup(cookies, name) == Lookup(old(cookies), name)
      ensures Slug(org) && WellFormedAll(old(cookies)) ==> WellFormedAll(cookies)
    {
      var c := Cookie(CookieName(org), Encode(ds));
      DecodeEncode(ds);
      forall name
        ensures Lookup(Store(cookies, c), name) == if c.name == name then Value(c.value) else Lookup(cookies, name)
      {
        StoreLookup(cookies, c, name);
      }
      if Slug(org) && WellFormedAll(cookies) {
        RememberingWellFormed(org, ds);
        StoreWellFormed(cookies, c);
      }
      cookies := Store(cookies, c);
    }
  }

  // ---- where an organisation's front page goes -------------------------------------------------

  datatype State = Active | Suspended | Purging
  datatype Dataset = Dataset(name: string, state: State)
  datatype Destination = Create | Dashboard(name: string) | Manage

  function Reachable(datasets: seq<Dataset>): (r: seq<Dataset>)
    ensures forall d :: d in r <==> d in datasets && d.state != Purging
  {
    if datasets == [] then [] else
      var rest := Reachable(datasets[1..]);
      if datasets[0].state != Purging then [datasets[0]] + rest else rest
  }

  function DestinationFor(datasets: seq<Dataset>, header: string, org: string): Destination {
    var reachable := Reachable(datasets);
    if reachable == [] then Create
    else
      var remembered := Read(header, org);
      if remembered.Some? && exists d :: d in reachable && d.name == remembered.value then Dashboard(remembered.value)
      else if |reachable| == 1 then Dashboard(reachable[0].name)
      else Manage
  }

  predicate Open(datasets: seq<Dataset>, name: string) {
    exists d :: d in datasets && d.name == name && d.state != Purging
  }

  /** Exactly one dataset is left that is not on its way out, and this is it. */
  ghost predicate OnlyOpen(datasets: seq<Dataset>, d: Dataset) {
    exists i :: 0 <= i < |datasets| && datasets[i] == d && d.state != Purging && forall j :: 0 <= j < |datasets| && j != i ==> datasets[j].state == Purging
  }

  lemma {:induction false} ReachableOne(datasets: seq<Dataset>, d: Dataset)
    ensures Reachable(datasets) == [d] <==> OnlyOpen(datasets, d)
  {
    if datasets != [] {
      var rest := datasets[1..];
      ReachableOne(rest, d);
      if datasets[0].state == Purging {
        if OnlyOpen(datasets, d) {
          var i :| 0 <= i < |datasets| && datasets[i] == d && d.state != Purging && forall j :: 0 <= j < |datasets| && j != i ==> datasets[j].state == Purging;
          assert rest[i - 1] == d && forall j :: 0 <= j < |rest| ==> rest[j] == datasets[j + 1];
        }
        if OnlyOpen(rest, d) {
          var i :| 0 <= i < |rest| && rest[i] == d && d.state != Purging && forall j :: 0 <= j < |rest| && j != i ==> rest[j].state == Purging;
          assert datasets[i + 1] == d && forall j :: 0 < j < |datasets| ==> datasets[j] == rest[j - 1];
        }
      } else {
        OpenFirst(datasets, d);
      }
    }
  }

  lemma OpenFirst(datasets: seq<Dataset>, d: Dataset)
    requires datasets != [] && datasets[0].state != Purging
    ensures Reachable(datasets) == [d] <==> OnlyOpen(datasets, d)
  {
    var rest := datasets[1..];
    var later := Reachable(rest);
    assert later != [] ==> later[0] in later;
    assert forall j :: 0 <= j < |rest| ==> rest[j] == datasets[j + 1] && rest[j] in rest;
    if Reachable(datasets) == [d] {
      assert later == [];
      forall j | 0 <= j < |datasets| && j != 0
        ensures datasets[j].state == Purging
      {
        assert datasets[j] == rest[j - 1] && rest[j - 1] in rest && rest[j - 1] !in later;
      }
      assert datasets[0] == d;
    }
    if OnlyOpen(datasets, d) {
      assert forall e :: e in later ==> e in rest && e.state != Purging;
    }
  }

  /** Where the front page goes, exactly: to creation when nothing is left; to the dataset
      remembered while it is open; else to the only open one; else to the list. */
  lemma DestinationExactly(datasets: seq<Dataset>, header: string, org: string)
    ensures var dest, remembered := DestinationFor(datasets, header, org), Read(header, org);
      && (dest == Create <==> forall d :: d in datasets ==> d.state == Purging)
      && (remembered.Some? && Open(datasets, remembered.value) ==> dest == Dashboard(remembered.value))
      && (!(remembered.Some? && Open(datasets, remembered.value)) ==>
        (forall d :: OnlyOpen(datasets, d) ==> dest == Dashboard(d.name))
        && (dest.Dashboard? ==> exists d :: OnlyOpen(datasets, d) && d.name == dest.name))
  {
    var reachable, remembered := Reachable(datasets), Read(header, org);
    assert reachable != [] ==> reachable[0] in reachable;
    if remembered.Some? && Open(datasets, remembered.value) {
      var d :| d in datasets && d.name == remembered.value && d.state != Purging;
      assert d in reachable;
    }
    forall d
      ensures reachable == [d] <==> OnlyOpen(datasets, d)
    {
      ReachableOne(datasets, d);
    }
    if |reachable| == 1 {
      assert reachable == [reachable[0]];
    }
  }

  /** After any writes the front page lands on the remembered dataset while it is
      open, and never on a dataset that is purging or not listed. */
  lemma LandsWhereRemembered(writes: seq<Write>, datasets: seq<Dataset>, org: string)
    requires forall i :: 0 <= i < |writes| ==> Allowed(writes[i])
    ensures var dest := DestinationFor(datasets, Render(StoreAll(writes)), org);
      && (Recalled(writes, org).Some? && Open(datasets, Recalled(writes, org).value) ==> dest == Dashboard(Recalled(writes, org).value))
      && (dest.Dashboard? ==> Open(datasets, dest.name))
      && (dest.Create? <==> forall d :: d in datasets ==> d.state == Purging)
  {
    ReadsLastWritten(writes, org);
    var reachable := Reachable(datasets);
    assert reachable != [] ==> reachable[0] in reachable;
    if d :| d in datasets && d.state != Purging {
      assert d in reachable;
    }
  }
}
