/** The image list as a whole, line by line. */
module ImageList {
  import opened Bytes
  import opened Images
  import opened Text
  import opened Wrappers
  import Policy

  type Names = map<string, u32>

  /** Byte order, which the lists' names keep. */
  predicate Less(a: string, b: string) {
    if b == [] then false
    else if a == [] then true
    else a[0] < b[0] || (a[0] == b[0] && Less(a[1..], b[1..]))
  }

  lemma {:induction false} LessTransitive(a: string, b: string, c: string)
    requires Less(a, b) && Less(b, c)
    ensures Less(a, c) && a != c
  {
    if a != [] && a[0] == b[0] == c[0] { LessTransitive(a[1..], b[1..], c[1..]); }
  }

  lemma {:induction false} LessIsStrict(a: string)
    ensures !Less(a, a)
  {
    if a != [] { LessIsStrict(a[1..]); }
  }

  /** Where the image is, or past the end. */
  function Position(images: seq<Image>, name: string): (i: nat)
    ensures i <= |images| && (i < |images| ==> images[i].name == name)
    ensures forall j :: 0 <= j < i ==> images[j].name != name
  {
    if images == [] || images[0].name == name then 0 else 1 + Position(images[1..], name)
  }

  predicate Listed(images: seq<Image>, name: string) {
    Position(images, name) < |images|
  }

  /** Another image of the list each, none twice. */
  predicate RequiresOk(images: seq<Image>, name: string, reqs: seq<string>) {
    && reqs != []
    && forall k :: 0 <= k < |reqs| ==> reqs[k] != name && Listed(images, reqs[k]) && reqs[k] !in reqs[..k]
  }

  predicate NeedOk(what: string, names: Names) {
    Policy.ParseText(what, names).Ok?
  }

  /** What the lines so far hold. */
  datatype Acc = Acc(images: seq<Image>, requirements: seq<(string, seq<string>)>, needs: seq<(string, string)>)

  function LastRequires(a: Acc): int {
    if a.requirements == [] then -1 else Position(a.images, a.requirements[|a.requirements| - 1].0)
  }

  function LastNeeds(a: Acc): int {
    if a.needs == [] then -1 else Position(a.images, a.needs[|a.needs| - 1].0)
  }

  function TakeImage(a: Acc, rest: string): Option<Acc> {
    if a.requirements != [] || a.needs != [] then None
    else
      var i := ImageLine(rest);
      if i.None? then None
      else if a.images != [] && !Less(a.images[|a.images| - 1].name, i.value.name) then None
      else Some(a.(images := a.images + [i.value]))
  }

  function TakeRequires(a: Acc, rest: string): Option<Acc> {
    var words := Split(rest, ' ');
    var name, reqs := words[0], words[1..];
    if a.needs != [] || !Listed(a.images, name) || !RequiresOk(a.images, name, reqs)
       || LastRequires(a) >= Position(a.images, name) then None
    else Some(a.(requirements := a.requirements + [(name, reqs)]))
  }

  function TakeNeeds(a: Acc, rest: string, names: Names): Option<Acc> {
    var parts := SplitOnce(rest);
    if parts.None? || !Listed(a.images, parts.value.0) || LastNeeds(a) > Position(a.images, parts.value.0)
       || !NeedOk(parts.value.1, names) then None
    else Some(a.(needs := a.needs + [parts.value]))
  }

  function TakeLine(a: Acc, line: string, names: Names): Option<Acc> {
    if Strip(line, "image: ").Some? then TakeImage(a, Strip(line, "image: ").value)
    else if Strip(line, "requires: ").Some? then TakeRequires(a, Strip(line, "requires: ").value)
    else if Strip(line, "needs: ").Some? then TakeNeeds(a, Strip(line, "needs: ").value, names)
    else None
  }

  function TakeLines(a: Acc, lines: seq<string>, names: Names): Option<Acc> {
    if lines == [] then Some(a)
    else
      var before := TakeLines(a, lines[..|lines| - 1], names);
      if before.None? then None else TakeLine(before.value, lines[|lines| - 1], names)
  }

  const NONE := Acc([], [], [])

  function FromLines(lines: seq<string>, names: Names): Option<Manifest> {
    if |lines| < 3 || lines[0] != MAGIC then None
    else
      var release, base := Strip(lines[1], "release: "), Strip(lines[2], "base: ");
      if release.None? || !VersionOk(release.value) || base.None? || !Hex64(base.value) then None
      else
        var a := TakeLines(NONE, lines[3..], names);
        if a.None? || a.value.images == [] then None
        else Some(Manifest(release.value, base.value, a.value.images, a.value.requirements, a.value.needs))
  }

  function ParseList(text: string, names: Names): Option<Manifest> {
    if text == [] || text[|text| - 1] != '\n' then None
    else FromLines(Split(text[..|text| - 1], '\n'), names)
  }

  method Parse(text: string, names: Names) returns (m: Option<Manifest>)
    ensures m == ParseList(text, names)
  {
    hide TakeLine, VersionOk, Hex64, Split;
    m := None;
    if text == [] || text[|text| - 1] != '\n' { return; }
    var lines := Split(text[..|text| - 1], '\n');
    if |lines| < 3 || lines[0] != MAGIC { return; }
    var release, base := Strip(lines[1], "release: "), Strip(lines[2], "base: ");
    if release.None? || !VersionOk(release.value) || base.None? || !Hex64(base.value) { return; }
    var rest := lines[3..];
    var a, i := NONE, 0;
    while i < |rest|
      invariant i <= |rest| && TakeLines(NONE, rest[..i], names) == Some(a)
    {
      assert rest[..i + 1][..i] == rest[..i];
      var next := TakeLine(a, rest[i], names);
      if next.None? {
        Stuck(NONE, rest, i + 1, names);
        return;
      }
      a := next.value;
      i := i + 1;
    }
    assert rest[..i] == rest;
    if a.images == [] { return; }
    m := Some(Manifest(release.value, base.value, a.images, a.requirements, a.needs));
  }

  /** A line refused refuses the list. */
  lemma {:induction false} Stuck(a: Acc, lines: seq<string>, k: nat, names: Names)
    requires k <= |lines| && TakeLines(a, lines[..k], names).None?
    ensures TakeLines(a, lines, names).None?
  {
    hide TakeLine;
    if k < |lines| {
      assert lines[..|lines| - 1][..k] == lines[..k];
      Stuck(a, lines[..|lines| - 1], k, names);
    } else {
      assert lines[..k] == lines;
    }
  }

  // ---- Well-formed lists ----

  ghost predicate ImagesOk(images: seq<Image>) {
    && (forall i :: 0 <= i < |images| ==> ImageOk(images[i]))
    && (forall i :: 0 < i < |images| ==> Less(images[i - 1].name, images[i].name))
  }

  ghost predicate RequirementsOk(images: seq<Image>, rs: seq<(string, seq<string>)>) {
    && (forall i :: 0 <= i < |rs| ==> Listed(images, rs[i].0) && RequiresOk(images, rs[i].0, rs[i].1))
    && (forall i :: 0 < i < |rs| ==> Position(images, rs[i - 1].0) < Position(images, rs[i].0))
  }

  ghost predicate NeedsOk(images: seq<Image>, ns: seq<(string, string)>, names: Names) {
    && (forall i :: 0 <= i < |ns| ==> Listed(images, ns[i].0) && '\n' !in ns[i].1 && NeedOk(ns[i].1, names))
    && (forall i :: 0 < i < |ns| ==> Position(images, ns[i - 1].0) <= Position(images, ns[i].0))
  }

  ghost predicate AccOk(a: Acc, names: Names) {
    ImagesOk(a.images) && RequirementsOk(a.images, a.requirements) && NeedsOk(a.images, a.needs, names)
  }

  ghost predicate WellFormed(m: Manifest, names: Names) {
    && VersionOk(m.release) && Hex64(m.base) && m.images != []
    && AccOk(Acc(m.images, m.requirements, m.needs), names)
  }

  // ---- Rendering ----

  function ImageLineOf(i: Image): string {
    "image: " + ImageText(i)
  }

  function RequiresLine(r: (string, seq<string>)): string {
    "requires: " + Join([r.0] + r.1, ' ')
  }

  function NeedsLine(n: (string, string)): string {
    "needs: " + (n.0 + [' '] + n.1)
  }

  function ImageLines(s: seq<Image>): seq<string> {
    if s == [] then [] else ImageLines(s[..|s| - 1]) + [ImageLineOf(s[|s| - 1])]
  }

  function RequiresLines(s: seq<(string, seq<string>)>): seq<string> {
    if s == [] then [] else RequiresLines(s[..|s| - 1]) + [RequiresLine(s[|s| - 1])]
  }

  function NeedsLines(s: seq<(string, string)>): seq<string> {
    if s == [] then [] else NeedsLines(s[..|s| - 1]) + [NeedsLine(s[|s| - 1])]
  }

  function AccLines(a: Acc): seq<string> {
    ImageLines(a.images) + RequiresLines(a.requirements) + NeedsLines(a.needs)
  }

  function RenderLines(m: Manifest): seq<string> {
    [MAGIC, "release: " + m.release, "base: " + m.base] + AccLines(Acc(m.images, m.requirements, m.needs))
  }

  function Render(m: Manifest): string {
    Join(RenderLines(m), '\n') + ['\n']
  }

  // ---- Every accepted text is a rendering ----

  lemma Snoc<T>(s: seq<T>, x: T)
    ensures (s + [x])[..|s + [x]| - 1] == s
  {}

  lemma TakeImageRenders(a: Acc, rest: string, names: Names)
    requires AccOk(a, names)
    ensures var r := TakeImage(a, rest);
            r.Some? ==> AccLines(r.value) == AccLines(a) + ["image: " + rest] && AccOk(r.value, names)
  {
    hide ImageLine, ImageText, ImageOk, NeedOk, RequiresOk, Less;
    ImageLineRenders(rest);
    if TakeImage(a, rest).Some? { Snoc(a.images, ImageLine(rest).value); }
  }

  lemma RequirementsGrow(images: seq<Image>, rs: seq<(string, seq<string>)>, r: (string, seq<string>))
    requires RequirementsOk(images, rs) && Listed(images, r.0) && RequiresOk(images, r.0, r.1)
    requires rs != [] ==> Position(images, rs[|rs| - 1].0) < Position(images, r.0)
    ensures RequirementsOk(images, rs + [r])
  {
    hide RequiresOk, Position;
    var s := rs + [r];
    forall i | 0 <= i < |s| ensures Listed(images, s[i].0) && RequiresOk(images, s[i].0, s[i].1) {
      if i < |rs| { assert s[i] == rs[i]; } else { assert s[i] == r; }
    }
  }

  lemma RequiresLinesGrow(rs: seq<(string, seq<string>)>, r: (string, seq<string>))
    ensures RequiresLines(rs + [r]) == RequiresLines(rs) + [RequiresLine(r)]
  {
    hide RequiresLine;
    Snoc(rs, r);
  }

  lemma TakeRequiresRenders(a: Acc, rest: string, names: Names)
    requires AccOk(a, names)
    ensures var r := TakeRequires(a, rest);
            r.Some? ==> AccLines(r.value) == AccLines(a) + ["requires: " + rest] && AccOk(r.value, names)
  {
    hide ImageLines, RequiresLines, NeedsOk, RequirementsOk, RequiresOk, ImagesOk, Split, Join, Position;
    JoinSplit(rest, ' ');
    var words := Split(rest, ' ');
    var r := (words[0], words[1..]);
    assert words == [r.0] + r.1;
    assert RequiresLine(r) == "requires: " + rest;
    RequiresLinesGrow(a.requirements, r);
    if TakeRequires(a, rest).Some? { RequirementsGrow(a.images, a.requirements, r); }
  }

  lemma TakeNeedsRenders(a: Acc, rest: string, names: Names)
    requires AccOk(a, names) && '\n' !in rest
    ensures var r := TakeNeeds(a, rest, names);
            r.Some? ==> AccLines(r.value) == AccLines(a) + ["needs: " + rest] && AccOk(r.value, names)
  {
    hide ImageLines, RequiresLines, NeedOk, RequirementsOk, ImagesOk, SplitOnce, Position;
    SplitOnceParts(rest);
    SplitOnceHolds(rest, '\n');
    if SplitOnce(rest).Some? { Snoc(a.needs, SplitOnce(rest).value); }
  }

  lemma TakeLineRenders(a: Acc, line: string, names: Names)
    requires AccOk(a, names) && '\n' !in line
    ensures var r := TakeLine(a, line, names);
            r.Some? ==> AccLines(r.value) == AccLines(a) + [line] && AccOk(r.value, names)
  {
    hide TakeImage, TakeRequires, TakeNeeds, AccLines, AccOk;
    if Strip(line, "image: ").Some? {
      TakeImageRenders(a, Strip(line, "image: ").value, names);
    } else if Strip(line, "requires: ").Some? {
      TakeRequiresRenders(a, Strip(line, "requires: ").value, names);
    } else if Strip(line, "needs: ").Some? {
      TakeNeedsRenders(a, Strip(line, "needs: ").value, names);
    }
  }

  lemma {:induction false} TakeLinesRenders(lines: seq<string>, names: Names)
    requires forall i :: 0 <= i < |lines| ==> '\n' !in lines[i]
    ensures var r := TakeLines(NONE, lines, names); r.Some? ==> AccLines(r.value) == lines && AccOk(r.value, names)
  {
    hide TakeLine, NeedOk, ImageOk, Position;
    if lines != [] {
      var k := |lines| - 1;
      TakeLinesRenders(lines[..k], names);
      var before := TakeLines(NONE, lines[..k], names);
      if before.Some? {
        TakeLineRenders(before.value, lines[k], names);
        assert lines == lines[..k] + [lines[k]];
      }
    }
  }

  lemma FromLinesRenders(lines: seq<string>, names: Names)
    requires forall i :: 0 <= i < |lines| ==> '\n' !in lines[i]
    ensures var m := FromLines(lines, names); m.Some? ==> RenderLines(m.value) == lines && WellFormed(m.value, names)
  {
    hide TakeLines, AccLines, AccOk, VersionOk, Hex64;
    if |lines| >= 3 {
      TakeLinesRenders(lines[3..], names);
      assert lines == [lines[0], lines[1], lines[2]] + lines[3..];
    }
  }

  /** A text that is accepted is the rendering of what it parses to, which is well-formed. */
  lemma AcceptedIsCanonical(text: string, names: Names)
    ensures var m := ParseList(text, names); m.Some? ==> Render(m.value) == text && WellFormed(m.value, names)
  {
    hide FromLines, RenderLines, WellFormed, Split, Join;
    if text != [] && text[|text| - 1] == '\n' {
      var body := text[..|text| - 1];
      var lines := Split(body, '\n');
      forall i | 0 <= i < |lines| ensures '\n' !in lines[i] { PiecesHoldNone(body, '\n', i); }
      FromLinesRenders(lines, names);
      JoinSplit(body, '\n');
      assert text == body + ['\n'];
    }
  }

  /** No two texts parse to the same list. */
  lemma ListsHaveOneText(s: string, t: string, names: Names)
    requires ParseList(s, names).Some? && ParseList(s, names) == ParseList(t, names)
    ensures s == t
  {
    hide ParseList, Render, WellFormed;
    AcceptedIsCanonical(s, names);
    AcceptedIsCanonical(t, names);
  }

  // ---- Every rendering is accepted ----

  lemma {:induction false} PositionGrows(images: seq<Image>, i: Image, name: string)
    requires Listed(images, name)
    ensures Position(images + [i], name) == Position(images, name)
  {
    if images[0].name != name {
      assert (images + [i])[1..] == images[1..] + [i];
      PositionGrows(images[1..], i, name);
    }
  }

  lemma ListedIsSpaceless(images: seq<Image>, name: string)
    requires ImagesOk(images) && Listed(images, name)
    ensures ' ' !in name && '\n' !in name
  {
    var i := images[Position(images, name)];
    assert ImageOk(i);
  }

  lemma ReadsImage(a: Acc, i: Image, names: Names)
    requires a.requirements == [] && a.needs == [] && ImagesOk(a.images + [i])
    ensures TakeLine(a, ImageLineOf(i), names) == Some(a.(images := a.images + [i])) && ImagesOk(a.images)
  {
    hide ImageLine, ImageText, ImageOk, Less, TakeRequires, TakeNeeds;
    var s := a.images + [i];
    assert s[|a.images|] == i && (a.images != [] ==> s[|a.images| - 1] == a.images[|a.images| - 1]);
    ImageLineReads(i);
    StripsItsOwn("image: ", ImageText(i));
    assert forall k :: 0 <= k < |a.images| ==> a.images[k] == s[k];
  }

  lemma ReadsRequires(a: Acc, r: (string, seq<string>), names: Names)
    requires a.needs == [] && ImagesOk(a.images) && RequirementsOk(a.images, a.requirements + [r])
    ensures TakeLine(a, RequiresLine(r), names) == Some(a.(requirements := a.requirements + [r]))
    ensures RequirementsOk(a.images, a.requirements)
  {
    hide TakeImage, TakeNeeds, ImagesOk, Position, Split, Join;
    var s, n := a.requirements + [r], |a.requirements|;
    assert s[n] == r && (n > 0 ==> s[n - 1] == a.requirements[n - 1]);
    assert forall k :: 0 <= k < n ==> a.requirements[k] == s[k];
    var words := [r.0] + r.1;
    forall k | 0 <= k < |words| ensures ' ' !in words[k] {
      ListedIsSpaceless(a.images, words[k]) by { assert k > 0 ==> words[k] == r.1[k - 1]; }
    }
    SplitJoin(words, ' ');
    var rest := Join(words, ' ');
    StripsItsOwn("requires: ", rest);
    NotPrefixed("image: ", "requires: ", rest);
    assert words[1..] == r.1;
  }

  lemma ReadsNeeds(a: Acc, n: (string, string), names: Names)
    requires ImagesOk(a.images) && NeedsOk(a.images, a.needs + [n], names)
    ensures TakeLine(a, NeedsLine(n), names) == Some(a.(needs := a.needs + [n]))
    ensures NeedsOk(a.images, a.needs, names)
  {
    hide TakeImage, TakeRequires, ImagesOk, Position, SplitOnce, NeedOk;
    var s, k := a.needs + [n], |a.needs|;
    assert s[k] == n && (k > 0 ==> s[k - 1] == a.needs[k - 1]);
    assert forall i :: 0 <= i < k ==> a.needs[i] == s[i];
    ListedIsSpaceless(a.images, n.0);
    SplitOnceAt(n.0, n.1);
    var rest := n.0 + [' '] + n.1;
    StripsItsOwn("needs: ", rest);
    NotPrefixed("image: ", "needs: ", rest);
    NotPrefixed("requires: ", "needs: ", rest);
  }

  lemma NotPrefixed(p: string, q: string, rest: string)
    requires p != [] && q != [] && p[0] != q[0]
    ensures Strip(q + rest, p) == None
  {}

  lemma OneLineMore(lines: seq<string>, line: string, b: Acc, a: Acc, names: Names)
    requires TakeLines(NONE, lines, names) == Some(b) && TakeLine(b, line, names) == Some(a)
    ensures TakeLines(NONE, lines + [line], names) == Some(a)
  {
    hide TakeLine;
    Snoc(lines, line);
  }

  lemma LastNeedsLine(a: Acc, n: (string, string))
    ensures AccLines(a.(needs := a.needs + [n])) == AccLines(a) + [NeedsLine(n)]
  {
    hide NeedsLine, ImageLines, RequiresLines;
    Snoc(a.needs, n);
  }

  lemma LastRequiresLine(a: Acc, r: (string, seq<string>))
    requires a.needs == []
    ensures AccLines(a.(requirements := a.requirements + [r])) == AccLines(a) + [RequiresLine(r)]
  {
    hide RequiresLine, ImageLines;
    Snoc(a.requirements, r);
  }

  lemma LastImageLine(a: Acc, i: Image)
    requires a.needs == [] && a.requirements == []
    ensures AccLines(a.(images := a.images + [i])) == AccLines(a) + [ImageLineOf(i)]
  {
    hide ImageLineOf;
    Snoc(a.images, i);
  }

  /** The lines of a well-formed list, read one by one, are that list. */
  lemma {:induction false} LinesReadBack(a: Acc, names: Names)
    requires AccOk(a, names)
    ensures TakeLines(NONE, AccLines(a), names) == Some(a)
    decreases |a.images| + |a.requirements| + |a.needs|
  {
    hide TakeLine, TakeLines, AccLines, ImagesOk, RequirementsOk, NeedsOk, ImageLineOf, RequiresLine, NeedsLine;
    if a.needs != [] {
      var k := |a.needs| - 1;
      var b, n := a.(needs := a.needs[..k]), a.needs[k];
      assert a.needs == b.needs + [n];
      ReadsNeeds(b, n, names);
      LinesReadBack(b, names);
      LastNeedsLine(b, n);
      OneLineMore(AccLines(b), NeedsLine(n), b, a, names);
    } else if a.requirements != [] {
      var k := |a.requirements| - 1;
      var b, r := a.(requirements := a.requirements[..k]), a.requirements[k];
      assert a.requirements == b.requirements + [r];
      ReadsRequires(b, r, names);
      LinesReadBack(b, names);
      LastRequiresLine(b, r);
      OneLineMore(AccLines(b), RequiresLine(r), b, a, names);
    } else if a.images != [] {
      var k := |a.images| - 1;
      var b, i := a.(images := a.images[..k]), a.images[k];
      assert a.images == b.images + [i];
      ReadsImage(b, i, names);
      NothingRequired(b.images, names);
      LinesReadBack(b, names);
      LastImageLine(b, i);
      OneLineMore(AccLines(b), ImageLineOf(i), b, a, names);
    } else {
      NoLines(names);
    }
  }

  lemma NoLines(names: Names)
    ensures TakeLines(NONE, AccLines(NONE), names) == Some(NONE)
  {}

  lemma NothingRequired(images: seq<Image>, names: Names)
    ensures RequirementsOk(images, []) && NeedsOk(images, [], names)
  {}

  lemma {:induction false} JoinHoldsNone(parts: seq<string>, c: char, x: char)
    requires |parts| >= 1 && c != x && forall i :: 0 <= i < |parts| ==> x !in parts[i]
    ensures x !in Join(parts, c)
  {
    if |parts| > 1 { JoinHoldsNone(parts[1..], c, x); }
  }

  ghost predicate Unbroken(lines: seq<string>) {
    forall i :: 0 <= i < |lines| ==> '\n' !in lines[i]
  }

  lemma {:induction false} ImageLinesUnbroken(images: seq<Image>)
    requires forall i :: 0 <= i < |images| ==> ImageOk(images[i])
    ensures Unbroken(ImageLines(images))
  {
    hide ImageOk, Words7;
    if images != [] {
      var i := images[|images| - 1];
      ImageLinesUnbroken(images[..|images| - 1]);
      SpacelessWords(i);
      JoinHoldsNone(Words7(i), ' ', '\n') by { assert |Words7(i)| == 7 by { SevenWords(i); } }
    }
  }

  lemma SevenWords(i: Image)
    ensures |Words7(i)| == 7
  {}

  lemma {:induction false} RequiresLinesUnbroken(images: seq<Image>, rs: seq<(string, seq<string>)>)
    requires ImagesOk(images)
    requires forall i :: 0 <= i < |rs| ==> Listed(images, rs[i].0) && RequiresOk(images, rs[i].0, rs[i].1)
    ensures Unbroken(RequiresLines(rs))
  {
    hide ImagesOk, Position, Join;
    if rs != [] {
      var r := rs[|rs| - 1];
      RequiresLinesUnbroken(images, rs[..|rs| - 1]);
      var words := [r.0] + r.1;
      forall k | 0 <= k < |words| ensures '\n' !in words[k] {
        ListedIsSpaceless(images, words[k]) by { assert k > 0 ==> words[k] == r.1[k - 1]; }
      }
      JoinHoldsNone(words, ' ', '\n');
    }
  }

  lemma {:induction false} NeedsLinesUnbroken(images: seq<Image>, ns: seq<(string, string)>)
    requires ImagesOk(images) && forall i :: 0 <= i < |ns| ==> Listed(images, ns[i].0) && '\n' !in ns[i].1
    ensures Unbroken(NeedsLines(ns))
  {
    hide ImagesOk, Position;
    if ns != [] {
      NeedsLinesUnbroken(images, ns[..|ns| - 1]);
      ListedIsSpaceless(images, ns[|ns| - 1].0);
    }
  }

  lemma RenderLinesUnbroken(m: Manifest, names: Names)
    requires WellFormed(m, names)
    ensures Unbroken(RenderLines(m))
  {
    hide ImageOk, NeedOk, RequiresOk, Position, ImageLines, RequiresLines, NeedsLines;
    ImageLinesUnbroken(m.images);
    RequiresLinesUnbroken(m.images, m.requirements);
    NeedsLinesUnbroken(m.images, m.needs);
  }

  lemma FromLinesReads(m: Manifest, names: Names)
    requires WellFormed(m, names)
    ensures FromLines(RenderLines(m), names) == Some(m)
  {
    hide AccLines, TakeLines, VersionOk, Hex64, AccOk;
    var a := Acc(m.images, m.requirements, m.needs);
    LinesReadBack(a, names);
    StripsItsOwn("release: ", m.release);
    StripsItsOwn("base: ", m.base);
    assert RenderLines(m)[3..] == AccLines(a);
  }

  /** The rendering of a well-formed list parses to it. */
  lemma RenderingIsAccepted(m: Manifest, names: Names)
    requires WellFormed(m, names)
    ensures ParseList(Render(m), names) == Some(m)
  {
    hide WellFormed, FromLines, RenderLines, Split, Join;
    RenderLinesUnbroken(m, names);
    assert |RenderLines(m)| >= 1 by { SomeLines(m); }
    SplitJoin(RenderLines(m), '\n');
    FromLinesReads(m, names);
    Snoc(Join(RenderLines(m), '\n'), '\n');
  }

  lemma SomeLines(m: Manifest)
    ensures |RenderLines(m)| >= 3
  {}

  // ---- What a list promises ----

  /** Strictly sorted, so no image is listed twice. */
  lemma {:induction false} ImagesAreDistinct(images: seq<Image>, i: nat, j: nat)
    requires ImagesOk(images) && i < j < |images|
    ensures Less(images[i].name, images[j].name) && images[i].name != images[j].name
    decreases j
  {
    hide Less, ImageOk;
    if i + 1 < j {
      ImagesAreDistinct(images, i, j - 1);
      LessTransitive(images[i].name, images[j - 1].name, images[j].name);
    } else {
      LessIsStrict(images[i].name);
    }
  }

  /** Whether a zone that names `named` also names what each of them is built over. */
  predicate RequiresMet(m: Manifest, named: seq<string>) {
    forall i :: 0 <= i < |m.requirements| && m.requirements[i].0 in named ==>
      forall r :: r in m.requirements[i].1 ==> r in named
  }

  method CheckRequires(m: Manifest, named: seq<string>) returns (ok: bool)
    ensures ok == RequiresMet(m, named)
  {
    var i := 0;
    while i < |m.requirements|
      invariant i <= |m.requirements|
      invariant forall k :: 0 <= k < i && m.requirements[k].0 in named ==>
                  forall r :: r in m.requirements[k].1 ==> r in named
    {
      var reqs, j := m.requirements[i].1, 0;
      if m.requirements[i].0 in named {
        while j < |reqs|
          invariant j <= |reqs| && forall r :: r in reqs[..j] ==> r in named
        {
          if reqs[j] !in named {
            assert reqs[j] in m.requirements[i].1;
            return false;
          }
          j := j + 1;
        }
        assert reqs[..j] == reqs;
      }
      i := i + 1;
    }
    ok := true;
  }

  /** `path` goes from an image to one it is built over, step by step. */
  ghost predicate BuiltOver(m: Manifest, path: seq<string>) {
    forall k :: 0 <= k < |path| - 1 ==>
      exists i :: 0 <= i < |m.requirements| && m.requirements[i].0 == path[k] && path[k + 1] in m.requirements[i].1
  }

  /** A zone whose images pass names everything they are built over, however deep. */
  lemma {:induction false} NamedIsClosed(m: Manifest, named: seq<string>, path: seq<string>, k: nat)
    requires RequiresMet(m, named) && BuiltOver(m, path) && k < |path| && path[0] in named
    ensures path[k] in named
  {
    hide RequiresMet, BuiltOver;
    if k > 0 {
      NamedIsClosed(m, named, path, k - 1);
      StepIsNamed(m, named, path, k - 1);
    }
  }

  lemma StepIsNamed(m: Manifest, named: seq<string>, path: seq<string>, k: nat)
    requires RequiresMet(m, named) && BuiltOver(m, path) && k + 1 < |path| && path[k] in named
    ensures path[k + 1] in named
  {
    var i :| 0 <= i < |m.requirements| && m.requirements[i].0 == path[k] && path[k + 1] in m.requirements[i].1;
    assert m.requirements[i].0 in named;
  }
}
