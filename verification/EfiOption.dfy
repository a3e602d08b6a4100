/** EFI_LOAD_OPTION (section 3.1.3 of the UEFI specification, device path nodes in section
    10.3.5): the bytes the tool writes for an entry, and the text it reads from one. */
module EfiOption {
  import opened Bytes
  import opened Wrappers

  const ACTIVE := 1

  /** The partition an entry boots from; `uuid` is its 16 bytes as firmware holds them. */
  datatype Part = Part(number: u32, start: u64, size: u64, uuid: seq<u8>)

  function Le64(v: u64): (r: seq<u8>)
    ensures |r| == 8
  {
    Le32(v % 0x1_0000_0000) + Le32(v / 0x1_0000_0000)
  }

  /** ASCII text as UCS-2, with its terminator. */
  function Ucs2(s: seq<u8>): (r: seq<u8>)
    ensures |r| == 2 * |s| + 2
  {
    if s == [] then [0, 0] else [s[0], 0] + Ucs2(s[1..])
  }

  function HardDriveNode(p: Part): seq<u8> {
    [4, 1] + Le16(42) + Le32(p.number) + Le64(p.start) + Le64(p.size) + p.uuid + [2, 2]
  }

  function FileNode(file: seq<u8>): seq<u8>
    requires |file| <= 230
  {
    [4, 4] + Le16(4 + 2 * (|file| + 1)) + Ucs2(file)
  }

  /** The device path: the partition, the file on it, and the end. */
  function DevicePath(p: Part, file: seq<u8>): seq<u8>
    requires |file| <= 230
  {
    HardDriveNode(p) + FileNode(file) + [0x7f, 0xff, 4, 0]
  }

  /** What the buffers of `build_load_option` and its caller hold. */
  predicate FitsBuffers(p: Part, desc: seq<u8>, file: seq<u8>) {
    |p.uuid| == 16 && |file| <= 230 && 6 + 2 * (|desc| + 1) + 52 + 2 * |file| <= 1024
  }

  function LoadOption(p: Part, desc: seq<u8>, file: seq<u8>): (r: seq<u8>)
    requires FitsBuffers(p, desc, file)
    ensures |r| == 6 + 2 * (|desc| + 1) + 52 + 2 * |file|
  {
    Le32(ACTIVE) + Le16(|DevicePath(p, file)|) + Ucs2(desc) + DevicePath(p, file)
  }

  // ---- Filling the buffers ----

  method Put(p: array<u8>, at: nat, b: seq<u8>) returns (next: nat)
    requires at + |b| <= p.Length
    modifies p
    ensures next == at + |b| && p[..next] == old(p[..at]) + b
  {
    for i := 0 to |b|
      invariant p[..at + i] == old(p[..at]) + b[..i]
    {
      p[at + i] := b[i];
      assert p[..at + i + 1] == p[..at + i] + [b[i]];
      assert b[..i + 1] == b[..i] + [b[i]];
    }
    assert b[..|b|] == b;
    next := at + |b|;
  }

  method PutUcs2(p: array<u8>, at: nat, s: seq<u8>) returns (next: nat)
    requires at + 2 * |s| + 2 <= p.Length
    modifies p
    ensures next == at + 2 * |s| + 2 && p[..next] == old(p[..at]) + Ucs2(s)
  {
    next := at;
    assert s[0..] == s;
    for i := 0 to |s|
      invariant next == at + 2 * i
      invariant p[..next] + Ucs2(s[i..]) == old(p[..at]) + Ucs2(s)
    {
      ghost var was := p[..next];
      assert s[i..][0] == s[i] && s[i..][1..] == s[i + 1..];
      next := Put(p, next, [s[i], 0]);
      assert was + [s[i], 0] + Ucs2(s[i + 1..]) == was + ([s[i], 0] + Ucs2(s[i + 1..]));
    }
    next := Put(p, next, [0, 0]);
  }

  method PutHardDrive(dp: array<u8>, part: Part) returns (d: nat)
    requires dp.Length >= 42 && |part.uuid| == 16
    modifies dp
    ensures d == 42 && dp[..d] == HardDriveNode(part)
  {
    hide Le16, Le32, Le64;
    d := Put(dp, 0, [4, 1] + Le16(42));
    d := Put(dp, d, Le32(part.number));
    d := Put(dp, d, Le64(part.start));
    d := Put(dp, d, Le64(part.size));
    d := Put(dp, d, part.uuid);
    d := Put(dp, d, [2, 2]);
  }

  /** The device path in its own buffer. */
  method PutDevicePath(dp: array<u8>, part: Part, file: seq<u8>) returns (d: nat)
    requires dp.Length == 512 && |file| <= 230 && |part.uuid| == 16
    modifies dp
    ensures d == 52 + 2 * |file| && dp[..d] == DevicePath(part, file)
  {
    hide Le16, Ucs2, HardDriveNode;
    d := PutHardDrive(dp, part);
    d := Put(dp, d, [4, 4] + Le16(4 + 2 * (|file| + 1)));
    d := PutUcs2(dp, d, file);
    assert dp[..d] == HardDriveNode(part) + FileNode(file);
    d := Put(dp, d, [0x7f, 0xff, 4, 0]);
  }

  method BuildLoadOption(buf: array<u8>, part: Part, desc: seq<u8>, file: seq<u8>) returns (n: nat)
    requires buf.Length == 1024 && FitsBuffers(part, desc, file)
    modifies buf
    ensures n <= buf.Length && buf[..n] == LoadOption(part, desc, file)
  {
    hide Le16, Le32, Ucs2, DevicePath;
    var dp := new u8[512](_ => 0);
    var d := PutDevicePath(dp, part, file);
    n := Put(buf, 0, Le32(ACTIVE));
    n := Put(buf, n, Le16(d));
    n := PutUcs2(buf, n, desc);
    n := Put(buf, n, dp[..d]);
  }

  // ---- Reading an entry's text ----

  const DESC_CAP := 128
  const FILE_CAP := 256

  datatype Text = Text(desc: seq<u8>, file: seq<u8>, active: bool)

  predicate Printable(c: int) {
    32 <= c < 127
  }

  /** A unit as ASCII, '?' for the rest. */
  function Shown(c: u16): u8 {
    if Printable(c) then c else 63
  }

  /** Units from `i` up to a zero or `stop`, after `text`, of which `cap` less one are kept; and
      where they end. */
  function TextFrom(buf: seq<u8>, i: nat, stop: nat, cap: nat, text: seq<u8>): (seq<u8>, nat)
    requires stop <= |buf|
    decreases stop - i
  {
    if i + 1 >= stop then (text, i)
    else if U16(buf, i) == 0 then (text, i + 2)
    else TextFrom(buf, i + 2, stop, cap, if |text| + 1 < cap then text + [Shown(U16(buf, i))] else text)
  }

  function Min(a: nat, b: nat): nat {
    if a < b then a else b
  }

  /** The device path's nodes from `i`: the first file node with a name gives the file. */
  function FileFrom(buf: seq<u8>, i: nat, end: nat, file: seq<u8>): seq<u8>
    decreases |buf| - i
  {
    if i + 4 > end || i + 4 > |buf| then file
    else
      var l := U16(buf, i + 2);
      if l < 4 then file
      else
        var f := if buf[i] == 4 && buf[i + 1] == 4 && file == []
                 then TextFrom(buf, i + 4, Min(i + l, |buf|), FILE_CAP, []).0 else file;
        if buf[i] == 0x7f then f else FileFrom(buf, i + l, end, f)
  }

  function OptionText(buf: seq<u8>): Option<Text> {
    if |buf| < 6 then None
    else
      var (desc, i) := TextFrom(buf, 6, |buf|, DESC_CAP, []);
      Some(Text(desc, FileFrom(buf, i, i + U16(buf, 4), []), buf[0] % 2 == 1))
  }

  method ReadText(buf: seq<u8>, from_: nat, stop: nat, cap: nat) returns (text: seq<u8>, i: nat)
    requires stop <= |buf|
    ensures (text, i) == TextFrom(buf, from_, stop, cap, [])
  {
    text, i := [], from_;
    while i + 1 < stop
      invariant TextFrom(buf, i, stop, cap, text) == TextFrom(buf, from_, stop, cap, [])
      decreases stop - i
    {
      var c := U16(buf, i);
      i := i + 2;
      if c == 0 {
        return;
      }
      if |text| + 1 < cap {
        text := text + [Shown(c)];
      }
    }
  }

  /** The entry's description and file read from its bytes, node by node. */
  method ReadOption(buf: seq<u8>) returns (r: Option<Text>)
    ensures r == OptionText(buf)
  {
    if |buf| < 6 {
      return None;
    }
    var desc, start := ReadText(buf, 6, |buf|, DESC_CAP);
    var end := start + U16(buf, 4);
    var file, i := [], start;
    while i + 4 <= end && i + 4 <= |buf|
      invariant FileFrom(buf, i, end, file) == FileFrom(buf, start, end, [])
      decreases |buf| - i
    {
      var l := U16(buf, i + 2);
      if l < 4 {
        break;
      }
      if buf[i] == 4 && buf[i + 1] == 4 && file == [] {
        var past;
        file, past := ReadText(buf, i + 4, Min(i + l, |buf|), FILE_CAP);
      }
      if buf[i] == 0x7f {
        i := |buf|;
        break;
      }
      i := i + l;
    }
    r := Some(Text(desc, file, buf[0] % 2 == 1));
  }

  // ---- The round trip ----

  ghost predicate AllPrintable(s: seq<u8>) {
    forall i | 0 <= i < |s| :: Printable(s[i])
  }

  ghost predicate At(buf: seq<u8>, i: nat, b: seq<u8>) {
    i + |b| <= |buf| && buf[i..i + |b|] == b
  }

  lemma AtParts(buf: seq<u8>, i: nat, a: seq<u8>, b: seq<u8>)
    requires At(buf, i, a + b)
    ensures At(buf, i, a) && At(buf, i + |a|, b)
  {
    assert buf[i..i + |a|] == buf[i..i + |a| + |b|][..|a|];
    assert buf[i + |a|..i + |a| + |b|] == buf[i..i + |a| + |b|][|a|..];
  }

  lemma AtIndex(buf: seq<u8>, i: nat, b: seq<u8>, k: nat)
    requires At(buf, i, b) && k < |b|
    ensures i + k < |buf| && buf[i + k] == b[k]
  {
    assert buf[i..i + |b|][k] == buf[i + k];
  }

  lemma {:induction false} TextReadsBack(buf: seq<u8>, i: nat, stop: nat, cap: nat, text: seq<u8>, s: seq<u8>)
    requires At(buf, i, Ucs2(s)) && i + |Ucs2(s)| <= stop <= |buf| && AllPrintable(s) && |text| + |s| < cap
    ensures TextFrom(buf, i, stop, cap, text) == (text + s, i + |Ucs2(s)|)
    decreases |s|
  {
    hide At;
    AtIndex(buf, i, Ucs2(s), 0);
    AtIndex(buf, i, Ucs2(s), 1);
    if s == [] {
      assert text + s == text;
    } else {
      AtParts(buf, i, [s[0], 0], Ucs2(s[1..]));
      TextReadsBack(buf, i + 2, stop, cap, text + [s[0]], s[1..]);
      assert text + [s[0]] + s[1..] == text + s;
    }
  }

  /** From a file node on: its text, then the end. */
  lemma FileNodeReadsBack(buf: seq<u8>, i: nat, file: seq<u8>)
    requires |file| <= 230 && AllPrintable(file) && At(buf, i, FileNode(file))
    requires At(buf, i + |FileNode(file)|, [0x7f, 0xff, 4, 0])
    ensures FileFrom(buf, i, i + |FileNode(file)| + 4, []) == file
  {
    hide At, Ucs2, TextFrom, AllPrintable;
    var fn, last := FileNode(file), [0x7f, 0xff, 4, 0];
    var head, e := [4, 4] + Le16(4 + 2 * (|file| + 1)), i + |fn|;
    NodeHead(buf, i, fn);
    NodeHead(buf, e, last);
    AtParts(buf, i, head, Ucs2(file));
    TextReadsBack(buf, i + 4, e, FILE_CAP, [], file);
    assert [] + file == file;
    assert FileFrom(buf, e, e + 4, file) == file;
  }

  lemma FileReadsBack(buf: seq<u8>, i: nat, part: Part, file: seq<u8>)
    requires |part.uuid| == 16 && |file| <= 230 && AllPrintable(file) && At(buf, i, DevicePath(part, file))
    ensures FileFrom(buf, i, i + |DevicePath(part, file)|, []) == file
  {
    hide At, FileNode, AllPrintable, TextFrom;
    var hd, fn, last := HardDriveNode(part), FileNode(file), [0x7f, 0xff, 4, 0];
    AtParts(buf, i, hd + fn, last);
    AtParts(buf, i, hd, fn);
    NodeHead(buf, i, hd);
    FileNodeReadsBack(buf, i + 42, file);
    assert FileFrom(buf, i, i + |DevicePath(part, file)|, []) == FileFrom(buf, i + 42, i + 42 + |fn| + 4, []);
  }

  /** A node's type, subtype and length, read where it stands. */
  lemma NodeHead(buf: seq<u8>, i: nat, node: seq<u8>)
    requires At(buf, i, node) && |node| >= 4
    ensures i + 4 <= |buf| && buf[i] == node[0] && buf[i + 1] == node[1] && U16(buf, i + 2) == U16(node, 2)
  {
    hide At;
    AtIndex(buf, i, node, 0);
    AtIndex(buf, i, node, 1);
    AtIndex(buf, i, node, 2);
    AtIndex(buf, i, node, 3);
  }

  /** What is written for printable text is read back: description, file and the active flag. */
  lemma OptionReadsBack(part: Part, desc: seq<u8>, file: seq<u8>)
    requires FitsBuffers(part, desc, file) && AllPrintable(desc) && AllPrintable(file) && |desc| < DESC_CAP
    ensures OptionText(LoadOption(part, desc, file)) == Some(Text(desc, file, true))
  {
    hide At, Ucs2, TextFrom, DevicePath, FileFrom, Le16, Le32;
    var buf, dp := LoadOption(part, desc, file), DevicePath(part, file);
    var head := Le32(ACTIVE) + Le16(|dp|);
    AtWhole(buf);
    AtParts(buf, 0, head + Ucs2(desc), dp);
    AtParts(buf, 0, head, Ucs2(desc));
    HeadReadsBack(buf, |dp|);
    TextReadsBack(buf, 6, |buf|, DESC_CAP, [], desc);
    assert [] + desc == desc;
    FileReadsBack(buf, 6 + |Ucs2(desc)|, part, file);
  }

  lemma AtWhole(buf: seq<u8>)
    ensures At(buf, 0, buf)
  {
    assert buf[0..|buf|] == buf;
  }

  lemma HeadReadsBack(buf: seq<u8>, n: u16)
    requires At(buf, 0, Le32(ACTIVE) + Le16(n))
    ensures |buf| >= 6 && buf[0] == 1 && U16(buf, 4) == n
  {
    hide At;
    var head := Le32(ACTIVE) + Le16(n);
    AtIndex(buf, 0, head, 0);
    AtIndex(buf, 0, head, 4);
    AtIndex(buf, 0, head, 5);
  }
}
