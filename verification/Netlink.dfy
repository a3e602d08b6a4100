/** Netlink messages (sections 2.2 and 2.3.2 of RFC 3549): nested, padded attributes as the client
    builds them, and as it reads them back. */
module Netlink {
  import opened Bytes

  const NLA_F_NESTED := 0x8000

  function Align4(n: nat): (r: nat)
    ensures n <= r < n + 4 && r % 4 == 0
  {
    (n + 3) / 4 * 4
  }

  function Zeros(n: nat): (r: seq<u8>)
    ensures |r| == n
  {
    seq(n, _ => 0)
  }

  /** An attribute: bytes, or a nest of attributes after a fixed struct (often empty). */
  datatype Attr =
    | Leaf(kind: u16, data: seq<u8>)
    | Nest(kind: u16, head: seq<u8>, children: seq<Attr>)

  /** `kind & NLA_TYPE_MASK`, which drops the two flag bits. */
  function TypeOf(kind: u16): u16 {
    kind % 0x4000
  }

  /** `kind | NLA_F_NESTED` */
  function Nested(kind: u16): u16 {
    if kind < NLA_F_NESTED then kind + NLA_F_NESTED else kind
  }

  predicate Aligned(b: seq<u8>) {
    |b| % 4 == 0
  }

  lemma Joined(a: seq<u8>, b: seq<u8>)
    requires Aligned(a) && Aligned(b)
    ensures Aligned(a + b)
  {}

  function Padded(b: seq<u8>): (r: seq<u8>)
    ensures Aligned(r) && b <= r
  {
    b + Zeros(Align4(|b|) - |b|)
  }

  lemma PaddedLength(b: seq<u8>)
    ensures |Padded(b)| == Align4(|b|)
  {}

  /** Four bytes of header: a length past 16 bits is cut to its low ones, as `as u16` cuts it. */
  function Headed(len: nat, kind: u16, body: seq<u8>): (r: seq<u8>)
    requires Aligned(body)
    ensures |r| == 4 + |body| && Aligned(r)
  {
    Le16((4 + len) % 0x1_0000) + Le16(kind) + body
  }

  function Encode(a: Attr): (r: seq<u8>)
    ensures Aligned(r) && |r| >= 4
    decreases a
  {
    match a
    case Leaf(kind, data) => Headed(|data|, kind, Padded(data))
    case Nest(kind, head, children) =>
      var body := Padded(head) + EncodeAll(children);
      Joined(Padded(head), EncodeAll(children));
      Headed(|body|, Nested(kind), body)
  }

  function EncodeAll(attrs: seq<Attr>): (r: seq<u8>)
    ensures Aligned(r)
    decreases attrs
  {
    if attrs == [] then []
    else
      var first, rest := Encode(attrs[0]), EncodeAll(attrs[1..]);
      Joined(first, rest);
      first + rest
  }

  /** What follows an attribute's own four bytes, without the padding after it. */
  function Payload(a: Attr): seq<u8> {
    match a
    case Leaf(_, data) => data
    case Nest(_, head, children) => Padded(head) + EncodeAll(children)
  }

  /** Every length of the tree is within 16 bits. */
  predicate Fits(a: Attr)
    decreases a
  {
    4 + |Payload(a)| <= 0xFFFF && (a.Nest? ==> AllFit(a.children))
  }

  predicate AllFit(attrs: seq<Attr>)
    decreases attrs
  {
    attrs == [] || (Fits(attrs[0]) && AllFit(attrs[1..]))
  }

  // ---- Reading ----

  /** The (type, data) attributes in `buf` from `off`; reading stops at a length that is not one. */
  function Attrs(buf: seq<u8>, off: nat): seq<(u16, seq<u8>)>
    decreases |buf| - off
  {
    if off + 4 > |buf| then []
    else
      var len := U16(buf, off);
      if len < 4 || off + len > |buf| then []
      else [(TypeOf(U16(buf, off + 2)), buf[off + 4..off + len])] + Attrs(buf, off + Align4(len))
  }

  lemma AttrsStep(buf: seq<u8>, off: nat)
    ensures off + 4 > |buf| ==> Attrs(buf, off) == []
    ensures off + 4 <= |buf| ==>
            var len := U16(buf, off);
            if len < 4 || off + len > |buf| then Attrs(buf, off) == []
            else Attrs(buf, off) ==
                 [(TypeOf(U16(buf, off + 2)), buf[off + 4..off + len])] + Attrs(buf, off + Align4(len))
  {}

  method ReadAttrs(buf: seq<u8>, start: nat) returns (out: seq<(u16, seq<u8>)>)
    ensures out == Attrs(buf, start)
  {
    hide Attrs, TypeOf;
    out := [];
    var off := start;
    while off + 4 <= |buf|
      invariant out + Attrs(buf, off) == Attrs(buf, start)
      decreases |buf| - off
    {
      AttrsStep(buf, off);
      var len := U16(buf, off);
      var kind := TypeOf(U16(buf, off + 2));
      if len < 4 || off + len > |buf| {
        break;
      }
      ghost var rest := Attrs(buf, off + Align4(len));
      assert out + ([(kind, buf[off + 4..off + len])] + rest) == out + [(kind, buf[off + 4..off + len])] + rest;
      out := out + [(kind, buf[off + 4..off + len])];
      off := off + Align4(len);
    }
    AttrsStep(buf, off);
  }

  /** `got` is the tree `a`, at every level: its kind without the two flag bits, its data, and for
      a nest its struct and, read again, its children. */
  ghost predicate Reads(got: (u16, seq<u8>), a: Attr)
    decreases a
  {
    && got.0 == TypeOf(a.kind)
    && match a
       case Leaf(_, data) => got.1 == data
       case Nest(_, head, children) => Padded(head) <= got.1 && ReadsAll(Attrs(got.1, |Padded(head)|), children)
  }

  ghost predicate ReadsAll(got: seq<(u16, seq<u8>)>, attrs: seq<Attr>)
    decreases attrs
  {
    |got| == |attrs| && (attrs != [] ==> Reads(got[0], attrs[0]) && ReadsAll(got[1..], attrs[1..]))
  }

  /** Reading starts again past the bytes before it. */
  lemma {:induction false} AttrsShift(pre: seq<u8>, buf: seq<u8>, off: nat)
    ensures Attrs(pre + buf, |pre| + off) == Attrs(buf, off)
    decreases |buf| - off
  {
    hide Attrs, TypeOf;
    AttrsStep(buf, off);
    AttrsStep(pre + buf, |pre| + off);
    if off + 4 <= |buf| {
      var all := pre + buf;
      assert U16(all, |pre| + off) == U16(buf, off) && U16(all, |pre| + off + 2) == U16(buf, off + 2);
      var len := U16(buf, off);
      if len >= 4 && off + len <= |buf| {
        assert all[|pre| + off + 4..|pre| + off + len] == buf[off + 4..off + len];
        AttrsShift(pre, buf, off + Align4(len));
      }
    }
  }

  lemma KindsSurvive(kind: u16)
    ensures TypeOf(Nested(kind)) == TypeOf(kind)
  {}

  /** The first attribute read, and where the next one starts. */
  lemma FirstAttr(a: Attr, rest: seq<u8>)
    requires 4 + |Payload(a)| <= 0xFFFF
    ensures Attrs(Encode(a) + rest, 0) == [(TypeOf(a.kind), Payload(a))] + Attrs(rest, 0)
  {
    hide Encode, Payload, Align4, TypeOf, Attrs;
    var e, len := Encode(a), 4 + |Payload(a)|;
    KindsSurvive(a.kind);
    EncodeParts(a);
    var all := e + rest;
    assert U16(all, 0) == U16(e, 0) && U16(all, 2) == U16(e, 2);
    assert all[4..len] == e[4..len];
    AttrsShift(e, rest, 0);
    AttrsStep(all, 0);
    assert Attrs(all, 0) == [(TypeOf(U16(all, 2)), all[4..len])] + Attrs(all, |e|);
  }

  lemma HeadOf(len: u16, kind: u16, rest: seq<u8>)
    ensures var e := Le16(len) + Le16(kind) + rest;
            |e| == 4 + |rest| && U16(e, 0) == len && U16(e, 2) == kind && e[4..] == rest
  {}

  lemma AlignedHead(n: nat)
    ensures 4 + Align4(n) == Align4(4 + n)
  {}

  lemma AlignedAlready(n: nat)
    ensures n % 4 == 0 ==> Align4(n) == n
  {}

  lemma EncodeParts(a: Attr)
    ensures |Encode(a)| == Align4(4 + |Payload(a)|) && Encode(a)[4..4 + |Payload(a)|] == Payload(a)
    ensures U16(Encode(a), 0) == (4 + |Payload(a)|) % 0x1_0000
    ensures U16(Encode(a), 2) == if a.Leaf? then a.kind else Nested(a.kind)
  {
    hide EncodeAll, Padded, Le16, U16, Nested, Align4;
    var p := Payload(a);
    AlignedHead(|p|);
    AlignedAlready(|p|);
    if a.Nest? { Joined(Padded(a.head), EncodeAll(a.children)); } else { PaddedLength(p); }
    var kind := if a.Leaf? then a.kind else Nested(a.kind);
    var body := if a.Leaf? then Padded(p) else p;
    HeadOf((4 + |p|) % 0x1_0000, kind, body);
    assert Encode(a) == Le16((4 + |p|) % 0x1_0000) + Le16(kind) + body;
    assert p == body[..|p|] == Encode(a)[4..][..|p|];
  }

  /** A tree reads back, whatever stands before it, exactly when its lengths fit 16 bits. */
  lemma {:induction false} ReadsBackExactlyWhenItFits(pre: seq<u8>, attrs: seq<Attr>)
    ensures ReadsAll(Attrs(pre + EncodeAll(attrs), |pre|), attrs) <==> AllFit(attrs)
    decreases attrs, 1
  {
    AttrsShift(pre, EncodeAll(attrs), 0);
    AllReadBack(attrs);
  }

  lemma {:induction false} AllReadBack(attrs: seq<Attr>)
    ensures ReadsAll(Attrs(EncodeAll(attrs), 0), attrs) <==> AllFit(attrs)
    decreases attrs, 0
  {
    hide Encode, Payload;
    if attrs != [] {
      var a, rest := attrs[0], EncodeAll(attrs[1..]);
      if 4 + |Payload(a)| <= 0xFFFF {
        FirstAttr(a, rest);
        AllReadBack(attrs[1..]);
        PayloadReadsBack(a);
        assert ([(TypeOf(a.kind), Payload(a))] + Attrs(rest, 0))[1..] == Attrs(rest, 0);
      } else {
        CutLengthMisreads(a, rest);
      }
    }
  }

  lemma {:induction false} PayloadReadsBack(a: Attr)
    ensures Reads((TypeOf(a.kind), Payload(a)), a) <==> (a.Nest? ==> AllFit(a.children))
    decreases a
  {
    if a.Nest? { ReadsBackExactlyWhenItFits(Padded(a.head), a.children); }
  }

  /** What reads as `a` is as long as `a`, but for the padding at its end. */
  lemma {:induction false} ReadNeedsRoom(got: (u16, seq<u8>), a: Attr)
    ensures Reads(got, a) ==> |Encode(a)| <= Align4(4 + |got.1|)
    decreases a, 1
  {
    hide Attrs;
    if a.Nest? && Reads(got, a) {
      AllNeedRoom(got.1, |Padded(a.head)|, a.children);
    }
  }

  lemma {:induction false} AllNeedRoom(buf: seq<u8>, off: nat, attrs: seq<Attr>)
    requires off % 4 == 0 && ReadsAll(Attrs(buf, off), attrs)
    ensures attrs != [] ==> off + |EncodeAll(attrs)| <= Align4(|buf|)
    decreases attrs, 0
  {
    hide Encode, Attrs, Reads, U16, TypeOf, Align4;
    if attrs != [] {
      AttrsStep(buf, off);
      var len := U16(buf, off);
      var got, next := Attrs(buf, off), off + Align4(len);
      assert got[1..] == Attrs(buf, next);
      ReadNeedsRoom(got[0], attrs[0]);
      AllNeedRoom(buf, next, attrs[1..]);
    }
  }

  /** A length cut to 16 bits is not the attribute's: what is read is not its data. */
  lemma CutLengthMisreads(a: Attr, rest: seq<u8>)
    requires 4 + |Payload(a)| > 0xFFFF
    ensures var got := Attrs(Encode(a) + rest, 0);
            got == [] || (|got[0].1| < |Payload(a)| && !Reads(got[0], a))
  {
    hide Encode, Payload;
    var e := Encode(a);
    EncodeParts(a);
    assert U16(e + rest, 0) == U16(e, 0);
    var got := Attrs(e + rest, 0);
    if got != [] {
      assert |got[0].1| == U16(e, 0) - 4;
      ReadNeedsRoom(got[0], a);
    }
  }

  // ---- Building ----

  lemma PadsItsOwn(buf: seq<u8>, b: seq<u8>)
    requires Aligned(buf)
    ensures Padded(buf + b) == buf + Padded(b)
  {}

  /** `NLM_F_REQUEST | NLM_F_ACK | flags`: bits 0 and 2 set. */
  function WithAck(flags: u16): u16 {
    flags - flags % 8 + 5 + 2 * (flags / 2 % 2)
  }

  function Header(ty: u16, flags: u16, seqno: u32, len: u32): (r: seq<u8>)
    ensures |r| == 16
  {
    Le32(len) + Le16(ty) + Le16(WithAck(flags)) + Le32(seqno) + Le32(0)
  }

  class Msg {
    var buf: seq<u8>

    constructor (ty: u16, flags: u16, seqno: u32)
      ensures buf == Header(ty, flags, seqno, 0)
    {
      buf := Le32(0) + Le16(ty) + Le16(WithAck(flags)) + Le32(seqno) + Le32(0);
    }

    method Raw(bytes: seq<u8>)
      modifies this
      ensures buf == Padded(old(buf) + bytes)
    {
      buf := buf + bytes;
      ghost var b := buf;
      assert b + Zeros(0) == b;
      while |buf| % 4 != 0
        invariant |b| <= |buf| <= Align4(|b|) && buf == b + Zeros(|buf| - |b|)
        decreases Align4(|b|) - |buf|
      {
        buf := buf + [0];
      }
    }

    method Attribute(kind: u16, data: seq<u8>)
      requires Aligned(buf)
      modifies this
      ensures buf == old(buf) + Encode(Leaf(kind, data))
    {
      ghost var was := buf;
      buf := buf + Le16((4 + |data|) % 0x1_0000);
      buf := buf + Le16(kind);
      PadsItsOwn(buf, data);
      Raw(data);
      assert buf == was + (Le16((4 + |data|) % 0x1_0000) + Le16(kind) + Padded(data));
    }

    method BeginNested(kind: u16) returns (start: nat)
      modifies this
      ensures start == old(|buf|) && buf == old(buf) + [0, 0] + Le16(Nested(kind))
    {
      start := |buf|;
      buf := buf + [0, 0] + Le16(Nested(kind));
    }

    /** The nest's length put where it starts: a reader finds it there, and no other byte changes. */
    method EndNested(start: nat)
      requires start + 2 <= |buf|
      modifies this
      ensures |buf| == old(|buf|) && U16(buf, start) == (|buf| - start) % 0x1_0000
      ensures forall i :: 0 <= i < |buf| && i != start && i != start + 1 ==> buf[i] == old(buf)[i]
    {
      var len := (|buf| - start) % 0x1_0000;
      buf := buf[..start] + Le16(len) + buf[start + 2..];
    }

    method Finish() returns (r: seq<u8>)
      requires |buf| >= 4
      ensures r == Le32(|buf| % 0x1_0000_0000) + buf[4..]
    {
      r := Le32(|buf| % 0x1_0000_0000) + buf[4..];
    }
  }

  /** The two bytes of a length, and the rest as it was. */
  lemma LengthPut(was: seq<u8>, now: seq<u8>, start: nat, len: u16)
    requires start + 2 <= |was| == |now| && U16(now, start) == len
    requires forall i :: 0 <= i < |now| && i != start && i != start + 1 ==> now[i] == was[i]
    ensures now == was[..start] + Le16(len) + was[start + 2..]
  {
    PairIs(now, start);
  }

  lemma PairIs(b: seq<u8>, at: nat)
    requires at + 2 <= |b|
    ensures Le16(U16(b, at)) == b[at..at + 2]
  {}

  /** A tree given to the builder, a nest between its begin and its end. */
  method Emit(m: Msg, a: Attr)
    requires Aligned(m.buf)
    modifies m
    ensures m.buf == old(m.buf) + Encode(a)
    decreases a
  {
    hide Headed, Padded, EncodeAll, Aligned, Le16, U16, Nested;
    match a
    case Leaf(kind, data) => m.Attribute(kind, data);
    case Nest(kind, head, children) =>
      ghost var was, body := m.buf, Padded(head) + EncodeAll(children);
      var start := m.BeginNested(kind);
      FourMore(was, Nested(kind));
      PadsItsOwn(m.buf, head);
      m.Raw(head);
      Joined(was + [0, 0] + Le16(Nested(kind)), Padded(head));
      EmitAll(m, children);
      Joined(Padded(head), EncodeAll(children));
      assert m.buf == was + [0, 0] + Le16(Nested(kind)) + body;
      ghost var open := m.buf;
      m.EndNested(start);
      NestClosed(was, kind, body, open, m.buf);
  }

  lemma FourMore(b: seq<u8>, kind: u16)
    requires Aligned(b)
    ensures Aligned(b + [0, 0] + Le16(kind))
  {}

  /** A nest whose length is put in is the nest's encoding. */
  lemma NestClosed(was: seq<u8>, kind: u16, body: seq<u8>, open: seq<u8>, now: seq<u8>)
    requires Aligned(body) && open == was + [0, 0] + Le16(Nested(kind)) + body && |now| == |open|
    requires U16(now, |was|) == (|now| - |was|) % 0x1_0000
    requires forall i :: 0 <= i < |now| && i != |was| && i != |was| + 1 ==> now[i] == open[i]
    ensures now == was + Headed(|body|, Nested(kind), body)
  {
    hide Le16, U16, Nested;
    LengthPut(open, now, |was|, (4 + |body|) % 0x1_0000);
    assert open[|was| + 2..] == Le16(Nested(kind)) + body && open[..|was|] == was;
  }

  method EmitAll(m: Msg, attrs: seq<Attr>)
    requires Aligned(m.buf)
    modifies m
    ensures m.buf == old(m.buf) + EncodeAll(attrs)
    decreases attrs
  {
    hide Encode;
    ghost var was := m.buf;
    if attrs == [] {
      assert was + [] == was;
    } else {
      Emit(m, attrs[0]);
      Joined(was, Encode(attrs[0]));
      EmitAll(m, attrs[1..]);
      assert was + Encode(attrs[0]) + EncodeAll(attrs[1..]) == was + (Encode(attrs[0]) + EncodeAll(attrs[1..]));
    }
  }

  /** A whole request: header, fixed struct, attributes. */
  function Message(ty: u16, flags: u16, seqno: u32, fixed: seq<u8>, attrs: seq<Attr>): seq<u8> {
    var rest := Padded(fixed) + EncodeAll(attrs);
    Header(ty, flags, seqno, (16 + |rest|) % 0x1_0000_0000) + rest
  }

  method BuildMessage(ty: u16, flags: u16, seqno: u32, fixed: seq<u8>, attrs: seq<Attr>) returns (r: seq<u8>)
    ensures r == Message(ty, flags, seqno, fixed, attrs)
  {
    hide Le16, Le32, Padded, EncodeAll, Align4;
    var m := new Msg(ty, flags, seqno);
    PadsItsOwn(m.buf, fixed);
    m.Raw(fixed);
    EmitAll(m, attrs);
    ghost var rest := Padded(fixed) + EncodeAll(attrs);
    assert m.buf == Header(ty, flags, seqno, 0) + rest;
    r := m.Finish();
    assert m.buf[4..] == Le16(ty) + Le16(WithAck(flags)) + Le32(seqno) + Le32(0) + rest;
    assert r == Le32((16 + |rest|) % 0x1_0000_0000) + Le16(ty) + Le16(WithAck(flags)) + Le32(seqno) + Le32(0) + rest;
  }

  lemma HeaderLength(ty: u16, flags: u16, seqno: u32, len: u32, rest: seq<u8>)
    ensures U32(Header(ty, flags, seqno, len) + rest, 0) == len
  {
    hide Le32, Le16, U32, WithAck;
    var tail := Le16(ty) + Le16(WithAck(flags)) + Le32(seqno) + Le32(0);
    assert Header(ty, flags, seqno, len) == Le32(len) + tail;
    assert Header(ty, flags, seqno, len) + rest == Le32(len) + (tail + rest);
    WordReadsBack(len, tail + rest);
  }

  /** A request says its own length, and its attributes read back at every level exactly when
      every length in it fits. */
  lemma MessageReadsBack(ty: u16, flags: u16, seqno: u32, fixed: seq<u8>, attrs: seq<Attr>)
    requires |Message(ty, flags, seqno, fixed, attrs)| <= 0xFFFF_FFFF
    ensures var m := Message(ty, flags, seqno, fixed, attrs);
            && U32(m, 0) == |m| && Aligned(m)
            && (ReadsAll(Attrs(m, 16 + |Padded(fixed)|), attrs) <==> AllFit(attrs))
  {
    hide Header, Padded, EncodeAll, ReadsAll, AllFit, Attrs, Align4, U32;
    var rest := Padded(fixed) + EncodeAll(attrs);
    var h := Header(ty, flags, seqno, 16 + |rest|);
    assert h + rest == h + Padded(fixed) + EncodeAll(attrs);
    ReadsBackExactlyWhenItFits(h + Padded(fixed), attrs);
    HeaderLength(ty, flags, seqno, 16 + |rest|, rest);
  }
}
