/** The camera grant's record: one line a field, written and read back. */
module CameraRecord {
  import opened Decimal
  import opened Text
  import opened Wrappers

  datatype Grant = Grant(zone: string, node: string, name: string, device: string, seqnum: nat)

  predicate IsLower(c: char) {
    'a' <= c <= 'z'
  }

  predicate IsGraphic(c: char) {
    '!' <= c <= '~'
  }

  predicate IsZoneName(s: string) {
    1 <= |s| <= 12 && forall i :: 0 <= i < |s| ==> IsLower(s[i]) || IsDigit(s[i]) || s[i] == '-'
  }

  predicate IsNode(s: string) {
    |s| >= 5 && s[..5] == "video" && var n := s[5..]; 1 <= |n| <= 4 && AllDigits(n)
  }

  /** Under /devices, one component at a time. */
  predicate IsDevpath(s: string) {
    && "/devices/" <= s && |s| <= 512
    && (forall i :: 0 <= i < |s| ==> IsGraphic(s[i]))
    && ".." !in Split(s, '/')
  }

  // ---- Lines ----

  /** Without the carriage return a line may end in. */
  function Chop(s: string): (r: string)
    ensures r <= s && |s| <= |r| + 1
  {
    if s != [] && s[|s| - 1] == '\r' then s[..|s| - 1] else s
  }

  function Chopped(pieces: seq<string>): seq<string>
    requires |pieces| >= 1
  {
    if |pieces| == 1 then (if pieces[0] == [] then [] else pieces)
    else [Chop(pieces[0])] + Chopped(pieces[1..])
  }

  /** `str::lines`: what newlines end, and what is left after the last. */
  function Lines(text: string): seq<string> {
    Chopped(Split(text, '\n'))
  }

  function Ended(lines: seq<string>): string {
    if lines == [] then [] else lines[0] + ['\n'] + Ended(lines[1..])
  }

  function ChopAll(lines: seq<string>): (r: seq<string>)
    ensures |r| == |lines| && forall i :: 0 <= i < |r| ==> r[i] == Chop(lines[i])
  {
    if lines == [] then [] else [Chop(lines[0])] + ChopAll(lines[1..])
  }

  lemma {:induction false} EndedLines(lines: seq<string>)
    requires forall i :: 0 <= i < |lines| ==> '\n' !in lines[i]
    ensures Lines(Ended(lines)) == ChopAll(lines)
  {
    hide Chop;
    if lines != [] {
      var rest := Ended(lines[1..]);
      EndedLines(lines[1..]);
      SplitAfterPiece(lines[0], '\n', rest);
      assert ([lines[0]] + Split(rest, '\n'))[1..] == Split(rest, '\n');
    }
  }

  lemma {:induction false} ChoppedHoldNone(pieces: seq<string>, i: nat)
    requires |pieces| >= 1 && i < |Chopped(pieces)| && forall j :: 0 <= j < |pieces| ==> '\n' !in pieces[j]
    ensures '\n' !in Chopped(pieces)[i]
  {
    if |pieces| > 1 && i > 0 { ChoppedHoldNone(pieces[1..], i - 1); }
  }

  lemma LinesHoldNone(text: string)
    ensures forall i :: 0 <= i < |Lines(text)| ==> '\n' !in Lines(text)[i]
  {
    var p := Split(text, '\n');
    forall j | 0 <= j < |p| ensures '\n' !in p[j] { PiecesHoldNone(text, '\n', j); }
    forall i | 0 <= i < |Lines(text)| ensures '\n' !in Lines(text)[i] { ChoppedHoldNone(p, i); }
  }

  // ---- The record ----

  function Field(key: string, v: string): string {
    key + [' '] + v
  }

  function Fields(g: Grant): seq<string> {
    [Field("zone", g.zone), Field("node", g.node), Field("name", g.name), Field("device", g.device),
     Field("seqnum", Show(g.seqnum))]
  }

  function Render(g: Grant): string {
    Ended(Fields(g))
  }

  /** The fields seen so far. */
  datatype Seen = Seen(zone: Option<string>, node: Option<string>, name: Option<string>,
                       device: Option<string>, seqnum: Option<nat>)

  const NOTHING := Seen(None, None, None, None, None)

  function Take(f: Seen, line: string): Option<Seen> {
    match SplitOnce(line)
    case None => None
    case Some((key, v)) =>
      if key == "zone" && IsZoneName(v) then Some(f.(zone := Some(v)))
      else if key == "node" && IsNode(v) then Some(f.(node := Some(v)))
      else if key == "name" then Some(f.(name := Some(v)))
      else if key == "device" && IsDevpath(v) then Some(f.(device := Some(v)))
      else if key == "seqnum" && ParseU64(v).Some? then Some(f.(seqnum := ParseU64(v)))
      else None
  }

  function TakeAll(f: Seen, lines: seq<string>): Option<Seen>
    decreases lines
  {
    if lines == [] then Some(f)
    else
      match Take(f, lines[0])
      case None => None
      case Some(f') => TakeAll(f', lines[1..])
  }

  function Complete(f: Seen): Option<Grant> {
    if f.zone.Some? && f.node.Some? && f.name.Some? && f.device.Some? && f.seqnum.Some? then
      Some(Grant(f.zone.value, f.node.value, f.name.value, f.device.value, f.seqnum.value))
    else None
  }

  function ParseGrant(text: string): Option<Grant> {
    match TakeAll(NOTHING, Lines(text))
    case None => None
    case Some(f) => Complete(f)
  }

  method Parse(text: string) returns (g: Option<Grant>)
    ensures g == ParseGrant(text)
  {
    hide Take, Complete, Lines;
    var lines := Lines(text);
    var f, i := NOTHING, 0;
    assert lines[0..] == lines;
    while i < |lines|
      invariant i <= |lines| && TakeAll(f, lines[i..]) == TakeAll(NOTHING, lines)
    {
      var next := Take(f, lines[i]);
      ghost var rest := lines[i..];
      assert rest[1..] == lines[i + 1..];
      if next.None? {
        return None;
      }
      f := next.value;
      i := i + 1;
    }
    g := Complete(f);
  }

  // ---- Round trip ----

  predicate Recordable(g: Grant) {
    && IsZoneName(g.zone) && IsNode(g.node) && IsDevpath(g.device) && g.seqnum <= U64_MAX
    && Plain(g.name)
  }

  /** What any record that parses holds. */
  ghost predicate Sane(f: Seen) {
    && (f.zone.Some? ==> IsZoneName(f.zone.value)) && (f.node.Some? ==> IsNode(f.node.value))
    && (f.device.Some? ==> IsDevpath(f.device.value)) && (f.seqnum.Some? ==> f.seqnum.value <= U64_MAX)
    && (f.name.Some? ==> '\n' !in f.name.value)
  }

  lemma TakeIsSane(f: Seen, line: string)
    requires Sane(f) && '\n' !in line
    ensures Take(f, line).Some? ==> Sane(Take(f, line).value)
  {
    hide IsZoneName, IsNode, IsDevpath, SplitOnce, Value;
    SplitOnceHolds(line, '\n');
  }

  lemma {:induction false} TakeAllIsSane(f: Seen, lines: seq<string>)
    requires Sane(f) && forall i :: 0 <= i < |lines| ==> '\n' !in lines[i]
    ensures TakeAll(f, lines).Some? ==> Sane(TakeAll(f, lines).value)
    decreases lines
  {
    hide Take, Sane;
    if lines != [] {
      TakeIsSane(f, lines[0]);
      if Take(f, lines[0]).Some? { TakeAllIsSane(Take(f, lines[0]).value, lines[1..]); }
    }
  }

  lemma ParsedIsSane(text: string)
    ensures var g := ParseGrant(text);
            g.Some? ==> IsZoneName(g.value.zone) && IsNode(g.value.node) && IsDevpath(g.value.device)
                        && g.value.seqnum <= U64_MAX && '\n' !in g.value.name
  {
    hide IsZoneName, IsNode, IsDevpath, TakeAll, Lines;
    LinesHoldNone(text);
    TakeAllIsSane(NOTHING, Lines(text));
  }

  /** Nothing a line turns on. */
  predicate Plain(v: string) {
    '\n' !in v && Chop(v) == v
  }

  lemma GraphicIsPlain(v: string)
    requires forall i :: 0 <= i < |v| ==> IsGraphic(v[i])
    ensures Plain(v)
  {}

  lemma ZoneIsPlain(v: string)
    requires IsZoneName(v)
    ensures Plain(v)
  {}

  lemma NodeIsPlain(v: string)
    requires IsNode(v)
    ensures Plain(v)
  {
    assert forall i :: 0 <= i < |v| ==> v[i] == if i < 5 then v[..5][i] else v[5..][i - 5];
    GraphicIsPlain(v);
  }

  lemma NumberIsPlain(v: string)
    requires AllDigits(v)
    ensures Plain(v)
  {}

  lemma FieldEnds(key: string, v: string)
    requires key != [] && '\n' !in key && key[|key| - 1] != '\r'
    ensures Chop(Field(key, v)) == Field(key, Chop(v)) && ('\n' !in v ==> '\n' !in Field(key, v))
  {}

  /** A grant as its lines are read: what a name and a path lose is a last carriage return. */
  function Chops(g: Grant): Grant {
    g.(name := Chop(g.name), device := Chop(g.device))
  }

  predicate OneLineEach(g: Grant) {
    IsZoneName(g.zone) && IsNode(g.node) && '\n' !in g.name && '\n' !in g.device && g.seqnum <= U64_MAX
  }

  lemma FieldsEnd(g: Grant)
    requires OneLineEach(g)
    ensures forall i :: 0 <= i < 5 ==> '\n' !in Fields(g)[i]
    ensures ChopAll(Fields(g)) == Fields(Chops(g))
  {
    hide Show, Split, IsZoneName, IsNode, Field, Chop, ChopAll, AllDigits;
    ZoneIsPlain(g.zone);
    NodeIsPlain(g.node);
    NumberIsPlain(Show(g.seqnum));
    FieldEnds("zone", g.zone);
    FieldEnds("node", g.node);
    FieldEnds("name", g.name);
    FieldEnds("device", g.device);
    FieldEnds("seqnum", Show(g.seqnum));
  }

  lemma SplitOnceField(key: string, v: string)
    requires ' ' !in key
    ensures SplitOnce(Field(key, v)) == Some((key, v))
  {
    SplitOnceAt(key, v);
  }

  /** How a record reads back, its device path checked or not. */
  lemma RecordReads(g: Grant)
    requires OneLineEach(g)
    ensures ParseGrant(Render(g)) == if IsDevpath(Chop(g.device)) then Some(Chops(g)) else None
  {
    hide IsZoneName, IsNode, IsDevpath, Chop, Lines, ParseU64, Show, SplitOnce, Ended, ChopAll, Field;
    FieldsEnd(g);
    EndedLines(Fields(g));
    var h := Chops(g);
    SplitOnceField("zone", h.zone);
    SplitOnceField("node", h.node);
    SplitOnceField("name", h.name);
    SplitOnceField("device", h.device);
    SplitOnceField("seqnum", Show(h.seqnum));
    ParsesShown(h.seqnum);
    var f1 := NOTHING.(zone := Some(h.zone));
    var f2 := f1.(node := Some(h.node));
    var f3 := f2.(name := Some(h.name));
    var f4 := f3.(device := Some(h.device));
    var f5 := f4.(seqnum := Some(h.seqnum));
    FiveTaken(Fields(h), NOTHING, f1, f2, f3, f4, f5);
  }

  lemma FiveTaken(l: seq<string>, f0: Seen, f1: Seen, f2: Seen, f3: Seen, f4: Seen, f5: Seen)
    requires |l| == 5
    requires Take(f0, l[0]) == Some(f1) && Take(f1, l[1]) == Some(f2) && Take(f2, l[2]) == Some(f3)
    requires Take(f3, l[3]).Some? ==> Take(f3, l[3]) == Some(f4) && Take(f4, l[4]) == Some(f5)
    ensures TakeAll(f0, l) == if Take(f3, l[3]).Some? then Some(f5) else None
  {
    hide Take;
    assert TakeAll(f5, l[1..][1..][1..][1..][1..]) == Some(f5);
    assert Take(f3, l[3]).Some? ==> TakeAll(f4, l[1..][1..][1..][1..]) == Some(f5);
    assert TakeAll(f3, l[1..][1..][1..]) == if Take(f3, l[3]).Some? then Some(f5) else None;
    assert TakeAll(f2, l[1..][1..]) == TakeAll(f3, l[1..][1..][1..]);
  }

  /** A record reads back as it was exactly when each field passes the check its reader makes and
      the name holds no line end. */
  lemma ReadsBackExactlyWhenRecordable(g: Grant)
    ensures ParseGrant(Render(g)) == Some(g) <==> Recordable(g)
  {
    hide IsZoneName, IsNode, ParseGrant, Render, Split, Chop;
    ParsedIsSane(Render(g));
    if IsDevpath(g.device) { GraphicIsPlain(g.device); }
    if OneLineEach(g) { RecordReads(g); }
  }

  /** A path with a space, which nothing checks before it is written, makes the record no grant. */
  lemma SpacedPathIsNoGrant(zone: string, node: string)
    requires IsZoneName(zone) && IsNode(node)
    ensures ParseGrant(Render(Grant(zone, node, "a camera", "/devices/a b", 1))) == None
  {
    hide IsZoneName, IsNode, ParseGrant, Render, Split;
    var d := "/devices/a b";
    assert !IsGraphic(d[10]) && Chop(d) == d;
    RecordReads(Grant(zone, node, "a camera", d, 1));
  }
}
