/** exFAT directory entry sets: the bytes of one (sections 6.3.3, 7.4, 7.6 and 7.7 of the exFAT
    specification), and what reading a directory's bytes back gives. */
module ExFatEntries {
  import opened Bytes

  /** A set as a reader has it: the name's UTF-16 units, whether it is a directory, its first cluster,
      and its length, which the tool writes and has no use for itself. */
  datatype Entry = Entry(units: seq<u16>, directory: bool, first: u32, length: u64)

  /** The up-case table: one unit for each. */
  type UpCase = t: seq<u16> | |t| == 65536 witness seq(65536, _ => 0)

  // ---- The two folds ----

  /** Rotate right by one bit in 16, and add a byte. */
  function Rotate(h: u16, b: u8): u16 {
    ((if h % 2 == 1 then 0x8000 else 0) + h / 2 + b) % 0x1_0000
  }

  function NameHash(up: UpCase, units: seq<u16>): u16 {
    if units == [] then 0
    else
      var u := up[units[|units| - 1]];
      Rotate(Rotate(NameHash(up, units[..|units| - 1]), u % 256), u / 256)
  }

  /** The sum over the first `n` bytes of a set, its own two bytes left out. */
  function SetSum(s: seq<u8>, n: nat): u16
    requires n <= |s|
  {
    if n == 0 then 0
    else if n - 1 == 2 || n - 1 == 3 then SetSum(s, n - 1)
    else Rotate(SetSum(s, n - 1), s[n - 1])
  }

  function UpName(up: UpCase, units: seq<u16>): seq<u16> {
    seq(|units|, i requires 0 <= i < |units| => up[units[i]])
  }

  /** Names that differ only in case have the same hash: what a lookup by hash relies on. */
  lemma {:induction false} HashIgnoresCase(up: UpCase, a: seq<u16>, b: seq<u16>)
    requires UpName(up, a) == UpName(up, b)
    ensures NameHash(up, a) == NameHash(up, b)
    decreases |a|
  {
    assert |UpName(up, a)| == |a| && |UpName(up, b)| == |b|;
    if a != [] {
      var n := |a| - 1;
      assert UpName(up, a[..n]) == UpName(up, a)[..n] && UpName(up, b[..n]) == UpName(up, b)[..n];
      assert up[a[n]] == UpName(up, a)[n] && up[b[n]] == UpName(up, b)[n];
      HashIgnoresCase(up, a[..n], b[..n]);
    }
  }

  // ---- The bytes of a set ----

  function NameEntries(n: nat): nat {
    (n + 14) / 15
  }

  const STAMP := 1545666560   // 2026-01-01 as an exFAT timestamp

  /** Byte `k` of `v`, little-endian. */
  function ByteOf(v: nat, k: nat): u8 {
    if k == 0 then v % 256 else ByteOf(v / 256, k - 1)
  }

  /** Byte `i` of a set, its checksum's two bytes zero. */
  function SetByte(up: UpCase, e: Entry, i: nat): u8
    requires |e.units| <= 255
  {
    if i == 0 then 0x85
    else if i == 1 then 1 + NameEntries(|e.units|)
    else if i == 4 then (if e.directory then 0x10 else 0x20)
    else if 8 <= i < 20 then ByteOf(STAMP, (i - 8) % 4)
    else if i == 32 then 0xC0
    else if i == 33 then (if e.length != 0 then 1 else 0)
    else if i == 35 then |e.units|
    else if 36 <= i < 38 then ByteOf(NameHash(up, e.units), i - 36)
    else if 40 <= i < 48 then ByteOf(e.length, i - 40)
    else if 52 <= i < 56 then ByteOf(e.first, i - 52)
    else if 56 <= i < 64 then ByteOf(e.length, i - 56)
    else if i >= 64 then NameByte(e.units, (i - 64) / 32, (i - 64) % 32)
    else 0
  }

  /** Byte `j` of name entry `k`: its type, a flag byte, then fifteen units. */
  function NameByte(units: seq<u16>, k: nat, j: nat): u8 {
    if j == 0 then 0xC1
    else if j == 1 || j >= 32 || 15 * k + (j - 2) / 2 >= |units| then 0
    else ByteOf(units[15 * k + (j - 2) / 2], j % 2)
  }

  function Unsummed(up: UpCase, e: Entry): (s: seq<u8>)
    requires |e.units| <= 255
  {
    seq(32 * (2 + NameEntries(|e.units|)), i requires 0 <= i => SetByte(up, e, i))
  }

  function EntrySet(up: UpCase, e: Entry): (s: seq<u8>)
    requires |e.units| <= 255
    ensures |s| == 32 * (2 + NameEntries(|e.units|))
  {
    var s := Unsummed(up, e);
    var sum := SetSum(s, |s|);
    s[2 := sum % 256][3 := sum / 256]
  }

  /** The checksum a set carries is the one a reader computes from it. */
  lemma ChecksumHolds(up: UpCase, e: Entry)
    requires |e.units| <= 255
    ensures var s := EntrySet(up, e); U16(s, 2) == SetSum(s, |s|)
  {
    var s, t := Unsummed(up, e), EntrySet(up, e);
    SumSkipsItself(s, t, |s|);
  }

  lemma {:induction false} SumSkipsItself(s: seq<u8>, t: seq<u8>, n: nat)
    requires n <= |s| == |t| && forall i | 0 <= i < |s| && i != 2 && i != 3 :: t[i] == s[i]
    ensures SetSum(s, n) == SetSum(t, n)
  {
    if n > 0 { SumSkipsItself(s, t, n - 1); }
  }

  // ---- Reading a directory ----

  /** A set at `at` that ends inside the data and holds the whole of its name. */
  predicate Contained(data: seq<u8>, at: nat) {
    && at + 64 <= |data|
    && at + 32 * (1 + data[at + 1] as int) <= |data|
    && 2 + NameEntries(data[at + 35]) <= 1 + data[at + 1] as int
  }

  function UnitAt(data: seq<u8>, at: nat, k: nat): u16
    requires Contained(data, at) && k < data[at + 35] as int
  {
    U16(data, at + 64 + 32 * (k / 15) + 2 + 2 * (k % 15))
  }

  function ReadEntry(data: seq<u8>, at: nat): Entry
    requires Contained(data, at)
  {
    Entry(seq(data[at + 35], k requires 0 <= k < data[at + 35] as int => UnitAt(data, at, k)),
          U16(data, at + 4) / 16 % 2 == 1,
          U32(data, at + 52),
          U64(data, at + 56))
  }

  function SizeAt(data: seq<u8>, at: nat): (n: nat)
    requires at < |data|
    requires data[at] == 0x85 ==> Contained(data, at)
    ensures n >= 32
  {
    if data[at] == 0x85 then 32 * (1 + data[at + 1] as int) else 32
  }

  /** From `at` on, every set up to the end marker is contained. */
  predicate DirOk(data: seq<u8>, at: nat)
    decreases |data| - at
  {
    at < |data| && data[at] != 0 ==>
      (data[at] == 0x85 ==> Contained(data, at)) && DirOk(data, at + SizeAt(data, at))
  }

  /** The sets from `at` on, and where the end marker is. */
  function Listing(data: seq<u8>, at: nat): (seq<Entry>, nat)
    requires DirOk(data, at)
    decreases |data| - at
  {
    if at >= |data| || data[at] == 0 then ([], at)
    else
      var (rest, end) := Listing(data, at + SizeAt(data, at));
      ((if data[at] == 0x85 then [ReadEntry(data, at)] else []) + rest, end)
  }

  method Entries(data: seq<u8>) returns (found: seq<Entry>, at: nat)
    requires DirOk(data, 0)
    ensures (found, at) == Listing(data, 0)
  {
    found, at := [], 0;
    while at < |data| && data[at] != 0
      invariant DirOk(data, at)
      invariant found + Listing(data, at).0 == Listing(data, 0).0 && Listing(data, at).1 == Listing(data, 0).1
      decreases |data| - at
    {
      ghost var rest := Listing(data, at + SizeAt(data, at)).0;
      if data[at] == 0x85 {
        ghost var was := found;
        var units, k := [], 0;
        while k < data[at + 35] as int
          invariant 0 <= k <= data[at + 35] as int && |units| == k
          invariant forall j | 0 <= j < k :: units[j] == UnitAt(data, at, j)
        {
          units := units + [UnitAt(data, at, k)];
          k := k + 1;
        }
        found := found + [Entry(units, U16(data, at + 4) / 16 % 2 == 1, U32(data, at + 52), U64(data, at + 56))];
        assert units == ReadEntry(data, at).units;
        assert was + ([ReadEntry(data, at)] + rest) == found + rest;
        at := at + 32 * (1 + data[at + 1] as int);
      } else {
        assert found + ([] + rest) == found + rest;
        at := at + 32;
      }
    }
    assert found + [] == found;
  }

  // ---- A set written at the end marker reads back ----

  /** `set` stands in `data` at `at`. */
  ghost predicate Stands(data: seq<u8>, at: nat, set_: seq<u8>) {
    at + |set_| <= |data| && forall i | 0 <= i < |set_| :: data[at + i] == set_[i]
  }

  lemma TwoBytes(v: nat)
    ensures ByteOf(v, 0) == v % 256 && ByteOf(v, 1) == v / 256 % 256
    ensures ByteOf(v, 2) == v / 256 / 256 % 256 && ByteOf(v, 3) == v / 256 / 256 / 256 % 256
  {
    assert ByteOf(v / 256, 0) == v / 256 % 256;
    assert ByteOf(v / 256, 1) == ByteOf(v / 256 / 256, 0);
    assert ByteOf(v / 256, 2) == ByteOf(v / 256 / 256, 1) == ByteOf(v / 256 / 256 / 256, 0);
  }

  lemma By32(q: nat, r: nat)
    requires r < 32
    ensures (32 * q + r) / 32 == q && (32 * q + r) % 32 == r
  {}

  lemma By15(k: nat)
    ensures k == 15 * (k / 15) + k % 15 && k % 15 < 15
  {}

  /** The `k`-th unit's entry is one of those the name has. */
  lemma InNameEntry(k: nat, n: nat)
    requires k < n
    ensures k / 15 + 1 <= NameEntries(n)
  {}

  /** The two bytes of the unit `15 * q + r`, in name entry `q`. */
  lemma UnitBytes(units: seq<u16>, q: nat, r: nat)
    requires r < 15 && 15 * q + r < |units|
    ensures NameByte(units, q, 2 + 2 * r) == units[15 * q + r] % 256
    ensures NameByte(units, q, 3 + 2 * r) == units[15 * q + r] / 256
  {
    assert (2 + 2 * r - 2) / 2 == r && (3 + 2 * r - 2) / 2 == r && (2 + 2 * r) % 2 == 0 && (3 + 2 * r) % 2 == 1;
    TwoBytes(units[15 * q + r]);
  }

  lemma NameBytes(up: UpCase, e: Entry, i: nat)
    requires |e.units| <= 255 && i >= 64
    ensures SetByte(up, e, i) == NameByte(e.units, (i - 64) / 32, (i - 64) % 32)
  {}

  lemma UnitReadsBack(up: UpCase, e: Entry, k: nat)
    requires |e.units| <= 255 && k < |e.units|
    ensures var i := 64 + 32 * (k / 15) + 2 + 2 * (k % 15);
            && i + 1 < 32 * (2 + NameEntries(|e.units|))
            && SetByte(up, e, i) == e.units[k] % 256 && SetByte(up, e, i + 1) == e.units[k] / 256
  {
    hide SetByte, NameByte, NameEntries;
    var q, r := k / 15, k % 15;
    var i := 64 + 32 * q + 2 + 2 * r;
    By15(k);
    InNameEntry(k, |e.units|);
    By32(q, 2 + 2 * r);
    By32(q, 3 + 2 * r);
    NameBytes(up, e, i);
    NameBytes(up, e, i + 1);
    assert i - 64 == 32 * q + (2 + 2 * r) && i + 1 - 64 == 32 * q + (3 + 2 * r);
    UnitBytes(e.units, q, r);
  }

  lemma HighBytes(v: nat, k: nat)
    requires k < 4
    ensures ByteOf(v, 4 + k) == ByteOf(v / 0x1_0000_0000, k)
  {
    var w := v / 256 / 256 / 256 / 256;
    assert w == v / 0x1_0000_0000;
    assert ByteOf(v, 4 + k) == ByteOf(v / 256, 3 + k) == ByteOf(v / 256 / 256, 2 + k);
    assert ByteOf(v / 256 / 256, 2 + k) == ByteOf(v / 256 / 256 / 256, 1 + k) == ByteOf(w, k);
  }

  /** Four bytes of a number, read as a word. */
  lemma WordOf(b: seq<u8>, at: nat, v: nat)
    requires at + 4 <= |b| && forall k | 0 <= k < 4 :: b[at + k] == ByteOf(v, k)
    ensures U32(b, at) == v % 0x1_0000_0000
  {
    TwoBytes(v);
    var a, c, d := v / 256, v / 256 / 256, v / 256 / 256 / 256;
    assert b[at] == b[at + 0] && b[at + 1] == a % 256 && b[at + 2] == c % 256 && b[at + 3] == d % 256;
    FourDigits(v);
  }

  lemma FourDigits(v: nat)
    ensures v % 0x1_0000_0000 ==
            v % 256 + 256 * (v / 256 % 256) + 0x1_0000 * (v / 256 / 256 % 256)
            + 0x100_0000 * (v / 256 / 256 / 256 % 256)
  {
    var a, c, d := v / 256, v / 256 / 256, v / 256 / 256 / 256;
    Digits(v);
    Digits(a);
    Digits(c);
    Digits(d);
    LowWord(v, v % 256 + 256 * (a % 256) + 0x1_0000 * (c % 256) + 0x100_0000 * (d % 256), d / 256);
  }

  lemma Digits(v: nat)
    ensures v == v % 256 + 256 * (v / 256) && 0 <= v % 256 <= 255
  {}

  lemma LowWord(v: nat, low: nat, high: nat)
    requires v == low + 0x1_0000_0000 * high && low < 0x1_0000_0000
    ensures v % 0x1_0000_0000 == low
  {}

  lemma LengthReadsBack(b: seq<u8>, at: nat, v: u64)
    requires at + 8 <= |b| && forall k | 0 <= k < 8 :: b[at + k] == ByteOf(v, k)
    ensures U64(b, at) == v
  {
    hide ByteOf, U32;
    WordOf(b, at, v);
    forall k | 0 <= k < 4 ensures b[at + 4 + k] == ByteOf(v / 0x1_0000_0000, k) {
      assert b[at + (4 + k)] == ByteOf(v, 4 + k);
      HighBytes(v, k);
    }
    WordOf(b, at + 4, v / 0x1_0000_0000);
  }

  lemma SetReadsBack(up: UpCase, e: Entry, data: seq<u8>, at: nat)
    requires |e.units| <= 255 && Stands(data, at, EntrySet(up, e))
    ensures data[at] == 0x85 && Contained(data, at) && SizeAt(data, at) == |EntrySet(up, e)|
    ensures ReadEntry(data, at) == e
  {
    hide SetByte, U32, U64, EntrySet, ByteOf, UnitAt;
    HeadReadsBack(up, e, data, at);
    FirstReadsBack(up, e, data, at);
    NameReadsBack(up, e, data, at);
  }

  lemma HeadReadsBack(up: UpCase, e: Entry, data: seq<u8>, at: nat)
    requires |e.units| <= 255 && Stands(data, at, EntrySet(up, e))
    ensures at + 64 <= |data| && data[at] == 0x85 && data[at + 35] == |e.units| && Contained(data, at)
    ensures SizeAt(data, at) == |EntrySet(up, e)| && (U16(data, at + 4) / 16 % 2 == 1) == e.directory
  {
    hide SetByte, EntrySet;
    ByteStands(up, e, data, at, 0);
    ByteStands(up, e, data, at, 1);
    ByteStands(up, e, data, at, 4);
    ByteStands(up, e, data, at, 5);
    ByteStands(up, e, data, at, 35);
    FixedBytes(up, e);
  }

  lemma FirstReadsBack(up: UpCase, e: Entry, data: seq<u8>, at: nat)
    requires |e.units| <= 255 && Stands(data, at, EntrySet(up, e))
    ensures at + 64 <= |data| && U32(data, at + 52) == e.first && U64(data, at + 56) == e.length
  {
    hide SetByte, EntrySet, U32, U64, ByteOf;
    FixedBytes(up, e);
    forall k | 0 <= k < 4 ensures data[at + 52 + k] == ByteOf(e.first, k) {
      ByteStands(up, e, data, at, 52 + k);
      assert data[at + (52 + k)] == SetByte(up, e, 52 + k);
    }
    forall k | 0 <= k < 8 ensures data[at + 56 + k] == ByteOf(e.length, k) {
      ByteStands(up, e, data, at, 56 + k);
      assert data[at + (56 + k)] == SetByte(up, e, 56 + k);
    }
    WordOf(data, at + 52, e.first);
    LengthReadsBack(data, at + 56, e.length);
  }

  lemma NameReadsBack(up: UpCase, e: Entry, data: seq<u8>, at: nat)
    requires |e.units| <= 255 && Stands(data, at, EntrySet(up, e)) && Contained(data, at) && data[at + 35] == |e.units|
    ensures ReadEntry(data, at).units == e.units
  {
    hide SetByte, EntrySet, U32, U64;
    forall k | 0 <= k < |e.units| ensures UnitAt(data, at, k) == e.units[k] {
      UnitReadsBack(up, e, k);
      ByteStands(up, e, data, at, 64 + 32 * (k / 15) + 2 + 2 * (k % 15));
      ByteStands(up, e, data, at, 64 + 32 * (k / 15) + 2 + 2 * (k % 15) + 1);
    }
  }

  lemma ByteStands(up: UpCase, e: Entry, data: seq<u8>, at: nat, i: nat)
    requires |e.units| <= 255 && Stands(data, at, EntrySet(up, e)) && i != 2 && i != 3
    requires i < |EntrySet(up, e)|
    ensures at + i < |data| && data[at + i] == SetByte(up, e, i)
  {
    assert EntrySet(up, e)[i] == SetByte(up, e, i);
  }

  lemma FixedBytes(up: UpCase, e: Entry)
    requires |e.units| <= 255
    ensures SetByte(up, e, 0) == 0x85 && SetByte(up, e, 1) == 1 + NameEntries(|e.units|)
    ensures SetByte(up, e, 4) == (if e.directory then 0x10 else 0x20) && SetByte(up, e, 5) == 0
    ensures SetByte(up, e, 35) == |e.units|
    ensures forall k: nat | k < 4 :: SetByte(up, e, 52 + k) == ByteOf(e.first, k)
    ensures forall k: nat | k < 8 :: SetByte(up, e, 56 + k) == ByteOf(e.length, k)
  {}

  /** Zero from `end` on: what follows a directory's end marker. */
  ghost predicate ZeroFrom(data: seq<u8>, end: nat) {
    forall i | end <= i < |data| :: data[i] == 0
  }

  lemma {:induction false} ListingEnds(data: seq<u8>, at: nat)
    requires DirOk(data, at)
    ensures Listing(data, at).1 >= at
    decreases |data| - at
  {
    if at < |data| && data[at] != 0 { ListingEnds(data, at + SizeAt(data, at)); }
  }

  /** A directory as read after `e` was written at the end marker of what was read before. */
  ghost predicate Appended(data: seq<u8>, at: nat, e: Entry, s: seq<u8>, now: seq<u8>)
    requires DirOk(data, at)
  {
    var (found, end) := Listing(data, at);
    DirOk(now, at) && Listing(now, at) == (found + [e], end + |s|) && ZeroFrom(now, end + |s|)
  }

  lemma AppendsAtEnd(up: UpCase, e: Entry, now: seq<u8>, at: nat)
    requires |e.units| <= 255 && Stands(now, at, EntrySet(up, e))
    requires ZeroFrom(now, at + |EntrySet(up, e)|)
    ensures DirOk(now, at) && Listing(now, at) == ([e], at + |EntrySet(up, e)|)
  {
    hide EntrySet, ReadEntry, SetByte;
    SetReadsBack(up, e, now, at);
    var next := at + |EntrySet(up, e)|;
    assert DirOk(now, next) && Listing(now, next) == ([], next);
    assert [e] + [] == [e];
  }

  /** Reading after the write gives what was there, and then the new set. */
  lemma {:induction false} ListingAppends(up: UpCase, e: Entry, data: seq<u8>, at: nat, now: seq<u8>)
    requires |e.units| <= 255 && DirOk(data, at)
    requires var (end, s) := (Listing(data, at).1, EntrySet(up, e));
             && ZeroFrom(data, end) && end + |s| <= |data| == |now| && Stands(now, end, s)
             && (forall i | 0 <= i < end :: now[i] == data[i])
             && (forall i | end + |s| <= i < |data| :: now[i] == data[i])
    ensures Appended(data, at, e, EntrySet(up, e), now)
    decreases |data| - at
  {
    hide EntrySet, ReadEntry, Stands;
    var (found, end) := Listing(data, at);
    if at >= |data| || data[at] == 0 {
      AppendsAtEnd(up, e, now, at);
      assert [] + [e] == [e];
    } else {
      var next := at + SizeAt(data, at);
      ListingEnds(data, next);
      ListingAppends(up, e, data, next, now);
      var first := if data[at] == 0x85 then [ReadEntry(data, at)] else [];
      assert first + (Listing(data, next).0 + [e]) == found + [e];
      if data[at] == 0x85 { SameSet(data, now, at, end); }
    }
  }

  /** A contained set is read from its own bytes alone. */
  lemma SameSet(data: seq<u8>, now: seq<u8>, at: nat, end: nat)
    requires |now| == |data| && Contained(data, at) && at + 32 * (1 + data[at + 1] as int) <= end <= |data|
    requires forall i | 0 <= i < end :: now[i] == data[i]
    ensures Contained(now, at) && ReadEntry(now, at) == ReadEntry(data, at)
  {
    assert now[at + 1] == data[at + 1] && now[at + 35] == data[at + 35];
    forall k | 0 <= k < data[at + 35] as int ensures UnitAt(now, at, k) == UnitAt(data, at, k) {
      assert k / 15 < NameEntries(data[at + 35]);
    }
    assert ReadEntry(now, at).units == ReadEntry(data, at).units;
  }

  // ---- The set as the tool builds it, in a buffer ----

  /** The low `n` bytes of `v` at `at`, little-endian. */
  method Pack(s: array<u8>, at: nat, v: nat, n: nat)
    requires at + n <= s.Length
    modifies s
    ensures forall i | 0 <= i < s.Length :: s[i] == if at <= i < at + n then ByteOf(v, i - at) else old(s[i])
  {
    for k := 0 to n
      invariant forall i | 0 <= i < s.Length :: s[i] == if at <= i < at + k then ByteOf(v, i - at) else old(s[i])
    {
      s[at + k] := ByteOf(v, k);
    }
  }

  method HashOf(up: UpCase, units: seq<u16>) returns (h: u16)
    ensures h == NameHash(up, units)
  {
    h := 0;
    for i := 0 to |units|
      invariant h == NameHash(up, units[..i])
    {
      assert units[..i + 1][..i] == units[..i];
      var u := up[units[i]];
      h := Rotate(Rotate(h, u % 256), u / 256);
    }
    assert units[..|units|] == units;
  }

  method SumOf(s: array<u8>) returns (sum: u16)
    ensures sum == SetSum(s[..], s.Length)
  {
    sum := 0;
    for i := 0 to s.Length
      invariant sum == SetSum(s[..], i)
    {
      if i != 2 && i != 3 {
        sum := Rotate(sum, s[i]);
      }
    }
  }

  /** The name entries' bytes, a unit at a time. */
  /** Which byte of which name entry `i` is. */
  lemma NameEntryOf(i: nat, k: nat)
    requires 64 + 32 * k <= i < 64 + 32 * (k + 1)
    ensures (i - 64) / 32 == k && (i - 64) % 32 == i - 64 - 32 * k
  {
    By32(k, i - 64 - 32 * k);
  }

  method PutName(s: array<u8>, units: seq<u16>)
    requires s.Length == 64 + 32 * NameEntries(|units|)
    requires forall i | 64 <= i < s.Length :: s[i] == 0
    modifies s
    ensures forall i | 0 <= i < 64 :: s[i] == old(s[i])
    ensures forall i | 64 <= i < s.Length :: s[i] == NameByte(units, (i - 64) / 32, (i - 64) % 32)
  {
    hide NameByte, NameEntries;
    for k := 0 to NameEntries(|units|)
      invariant forall i | 0 <= i < 64 :: s[i] == old(s[i])
      invariant forall i | 64 <= i < 64 + 32 * k :: s[i] == NameByte(units, (i - 64) / 32, (i - 64) % 32)
      invariant forall i | 64 + 32 * k <= i < s.Length :: s[i] == 0
    {
      ghost var was := s[..];
      PutNameEntry(s, units, k);
      forall i | 64 <= i < 64 + 32 * (k + 1) ensures s[i] == NameByte(units, (i - 64) / 32, (i - 64) % 32) {
        if i < 64 + 32 * k { assert s[i] == was[i]; } else { NameEntryOf(i, k); }
      }
    }
  }

  method PutNameEntry(s: array<u8>, units: seq<u16>, k: nat)
    requires 64 + 32 * (k + 1) <= s.Length
    requires forall i | 64 + 32 * k <= i < 64 + 32 * (k + 1) :: s[i] == 0
    modifies s
    ensures forall i | 0 <= i < s.Length && !(64 + 32 * k <= i < 64 + 32 * (k + 1)) :: s[i] == old(s[i])
    ensures forall i | 64 + 32 * k <= i < 64 + 32 * (k + 1) :: s[i] == NameByte(units, k, i - 64 - 32 * k)
  {
    hide NameByte, ByteOf;
    var at := 64 + 32 * k;
    s[at] := 0xC1;
    NameEntryHead(units, k);
    for j := 0 to 15
      invariant forall i | 0 <= i < s.Length && !(at <= i < at + 32) :: s[i] == old(s[i])
      invariant forall i | at <= i < at + 2 + 2 * j :: s[i] == NameByte(units, k, i - at)
      invariant forall i | at + 2 + 2 * j <= i < at + 32 :: s[i] == 0
    {
      if 15 * k + j < |units| {
        s[at + 2 + 2 * j] := ByteOf(units[15 * k + j], 0);
        s[at + 2 + 2 * j + 1] := ByteOf(units[15 * k + j], 1);
      }
      NameEntryUnit(units, k, j);
    }
  }

  lemma NameEntryHead(units: seq<u16>, k: nat)
    ensures NameByte(units, k, 0) == 0xC1 && NameByte(units, k, 1) == 0
  {}

  lemma NameEntryUnit(units: seq<u16>, k: nat, j: nat)
    requires j < 15
    ensures NameByte(units, k, 2 + 2 * j) == if 15 * k + j < |units| then ByteOf(units[15 * k + j], 0) else 0
    ensures NameByte(units, k, 3 + 2 * j) == if 15 * k + j < |units| then ByteOf(units[15 * k + j], 1) else 0
  {
    assert (2 + 2 * j - 2) / 2 == j && (3 + 2 * j - 2) / 2 == j && (2 + 2 * j) % 2 == 0 && (3 + 2 * j) % 2 == 1;
  }

  /** The file entry: type, count, attributes and three timestamps; the checksum comes last. */
  method PutFileEntry(s: array<u8>, up: UpCase, e: Entry)
    requires s.Length >= 64 && |e.units| <= 255 && forall i | 0 <= i < s.Length :: s[i] == 0
    modifies s
    ensures forall i | 0 <= i < 32 :: s[i] == SetByte(up, e, i)
    ensures forall i | 32 <= i < s.Length :: s[i] == 0
  {
    hide SetByte, ByteOf;
    s[0], s[1] := 0x85, 1 + NameEntries(|e.units|);
    var attributes := if e.directory then 0x10 else 0x20;
    Pack(s, 4, attributes, 2);
    Pack(s, 8, STAMP, 4);
    Pack(s, 12, STAMP, 4);
    Pack(s, 16, STAMP, 4);
    forall i | 0 <= i < 32 ensures s[i] == SetByte(up, e, i) { FileBytes(up, e, i); }
  }

  lemma FileBytes(up: UpCase, e: Entry, i: nat)
    requires |e.units| <= 255 && i < 32
    ensures SetByte(up, e, i) ==
            if i == 0 then 0x85
            else if i == 1 then 1 + NameEntries(|e.units|)
            else if 4 <= i < 6 then ByteOf(if e.directory then 0x10 else 0x20, i - 4)
            else if 8 <= i < 12 then ByteOf(STAMP, i - 8)
            else if 12 <= i < 16 then ByteOf(STAMP, i - 12)
            else if 16 <= i < 20 then ByteOf(STAMP, i - 16)
            else 0
  {
    TwoBytes(if e.directory then 0x10 else 0x20);
    assert 8 <= i < 20 ==> (i - 8) % 4 == if i < 12 then i - 8 else if i < 16 then i - 12 else i - 16;
  }

  /** The stream entry: the name's length and hash, the first cluster and the length twice. */
  method PutStreamEntry(s: array<u8>, up: UpCase, e: Entry)
    requires s.Length >= 64 && |e.units| <= 255 && forall i | 32 <= i < s.Length :: s[i] == 0
    modifies s
    ensures forall i | 0 <= i < 32 :: s[i] == old(s[i])
    ensures forall i | 32 <= i < 64 :: s[i] == SetByte(up, e, i)
    ensures forall i | 64 <= i < s.Length :: s[i] == 0
  {
    s[32], s[33], s[35] := 0xC0, if e.length != 0 then 1 else 0, |e.units|;
    var h := HashOf(up, e.units);
    Pack(s, 36, h, 2);
    Pack(s, 40, e.length, 8);
    Pack(s, 52, e.first, 4);
    Pack(s, 56, e.length, 8);
  }

  lemma UnsummedIs(up: UpCase, e: Entry, s: seq<u8>)
    requires |e.units| <= 255 && |s| == 32 * (2 + NameEntries(|e.units|))
    requires forall i | 0 <= i < 64 :: s[i] == SetByte(up, e, i)
    requires forall i | 64 <= i < |s| :: s[i] == NameByte(e.units, (i - 64) / 32, (i - 64) % 32)
    ensures s == Unsummed(up, e)
  {}

  method BuildEntrySet(up: UpCase, e: Entry) returns (s: array<u8>)
    requires |e.units| <= 255
    ensures fresh(s) && s[..] == EntrySet(up, e)
  {
    hide SetByte, NameByte, Unsummed, SetSum;
    s := new u8[32 * (2 + NameEntries(|e.units|))](_ => 0);
    PutFileEntry(s, up, e);
    PutStreamEntry(s, up, e);
    PutName(s, e.units);
    UnsummedIs(up, e, s[..]);
    var sum := SumOf(s);
    TwoBytes(sum);
    ghost var was: seq<u8>, low: u8, high: u8 := s[..], sum % 256, sum / 256;
    Pack(s, 2, sum, 2);
    assert s[..] == was[2 := low][3 := high];
  }
}
