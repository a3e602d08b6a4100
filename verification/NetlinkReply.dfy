/** What one netlink request gathers: the messages of each datagram the kernel sends back. */
module NetlinkReply {
  import opened Bytes
  import opened Netlink

  const MAX_REPLY := 128 * 1024
  const NLMSG_ERROR := 2
  const NLMSG_DONE := 3

  datatype Outcome =
    | More(replies: seq<u8>)  // no end yet: the next datagram is read
    | Acked(replies: seq<u8>)
    | Failed(code: int)
    | Truncated
    | NoCode
    | TooLarge

  /** An i32 of the same bits. */
  function Signed(v: u32): int {
    if v < 0x8000_0000 then v else v - 0x1_0000_0000
  }

  /** The payloads so far, and the outcome, only grow and stay within the cap. */
  ghost predicate Gathered(before: seq<u8>, o: Outcome) {
    o.More? || o.Acked? ==> before <= o.replies && (|before| <= MAX_REPLY ==> |o.replies| <= MAX_REPLY)
  }

  /** The messages of the datagram `buf` from `off`, after `replies`. */
  function Frames(buf: seq<u8>, off: nat, replies: seq<u8>): (o: Outcome)
    ensures Gathered(replies, o)
    decreases |buf| - off
  {
    if off + 16 > |buf| then More(replies)
    else
      var len, ty := U32(buf, off), U16(buf, off + 4);
      if len < 16 || off + len > |buf| then Truncated
      else if ty == NLMSG_ERROR then
        if len < 20 then NoCode
        else if Signed(U32(buf, off + 16)) == 0 then Acked(replies)
        else Failed(Signed(U32(buf, off + 16)))
      else if ty == NLMSG_DONE then Acked(replies)
      else if |replies| + len > MAX_REPLY then TooLarge
      else Frames(buf, off + Align4(len), replies + buf[off + 16..off + len])
  }

  method ReadDatagram(buf: seq<u8>, before: seq<u8>) returns (o: Outcome)
    ensures o == Frames(buf, 0, before)
  {
    hide Frames, U32, U16, Signed, Align4;
    var replies, off := before, 0;
    while off + 16 <= |buf|
      invariant Frames(buf, off, replies) == Frames(buf, 0, before)
      decreases |buf| - off
    {
      FramesStep(buf, off, replies);
      var len := U32(buf, off);
      var ty := U16(buf, off + 4);
      if len < 16 || off + len > |buf| {
        return Truncated;
      }
      if ty == NLMSG_ERROR {
        if len < 20 {
          return NoCode;
        }
        var code := Signed(U32(buf, off + 16));
        return if code == 0 then Acked(replies) else Failed(code);
      } else if ty == NLMSG_DONE {
        return Acked(replies);
      } else if |replies| + len > MAX_REPLY {
        return TooLarge;
      }
      replies := replies + buf[off + 16..off + len];
      off := off + Align4(len);
    }
    FramesStep(buf, off, replies);
    o := More(replies);
  }

  /** Datagram after datagram until one ends the exchange. `More` at the end: still waiting. */
  function Transact(datagrams: seq<seq<u8>>, replies: seq<u8>): (o: Outcome)
    ensures Gathered(replies, o)
  {
    if datagrams == [] then More(replies)
    else if |datagrams[0]| > MAX_REPLY then TooLarge
    else
      var o := Frames(datagrams[0], 0, replies);
      if o.More? then Transact(datagrams[1..], o.replies) else o
  }

  method Exchange(datagrams: seq<seq<u8>>) returns (o: Outcome)
    ensures o == Transact(datagrams, [])
    ensures o.Acked? ==> |o.replies| <= MAX_REPLY
  {
    hide Frames;
    o := More([]);
    var i := 0;
    assert datagrams[0..] == datagrams;
    while i < |datagrams|
      invariant 0 <= i <= |datagrams|
      invariant o.More? && Transact(datagrams[i..], o.replies) == Transact(datagrams, [])
    {
      ghost var rest := datagrams[i..];
      assert rest[1..] == datagrams[i + 1..];
      if |datagrams[i]| > MAX_REPLY {
        return TooLarge;
      }
      o := ReadDatagram(datagrams[i], o.replies);
      if !o.More? {
        return;
      }
      i := i + 1;
    }
    assert datagrams[i..] == [];
  }

  // ---- What the kernel says ----

  datatype Note =
    | Part(ty: u16, body: seq<u8>)
    | Status(code: u32, rest: seq<u8>)  // NLMSG_ERROR: the code's bits, then the request quoted
    | Done(body: seq<u8>)

  function Kind(n: Note): u16 {
    match n
    case Part(ty, _) => ty
    case Status(_, _) => NLMSG_ERROR
    case Done(_) => NLMSG_DONE
  }

  function Body(n: Note): seq<u8> {
    match n
    case Part(_, body) => body
    case Status(code, rest) => Le32(code) + rest
    case Done(body) => body
  }

  predicate IsNote(n: Note) {
    16 + |Body(n)| < 0x1_0000_0000 && (n.Part? ==> n.ty != NLMSG_ERROR && n.ty != NLMSG_DONE)
  }

  /** A message: length, type, then flags, sequence number and port as they come. */
  function Framed(n: Note, head: seq<u8>): seq<u8>
    requires IsNote(n) && |head| == 10
  {
    Le32(16 + |Body(n)|) + Le16(Kind(n)) + head + Padded(Body(n))
  }

  datatype Sent = Sent(note: Note, head: seq<u8>)

  ghost predicate IsSent(s: Sent) {
    IsNote(s.note) && |s.head| == 10
  }

  ghost predicate EachSent(sent: seq<Sent>) {
    forall i :: 0 <= i < |sent| ==> IsSent(sent[i])
  }

  ghost function Datagram(sent: seq<Sent>): seq<u8>
    requires EachSent(sent)
  {
    if sent == [] then [] else Framed(sent[0].note, sent[0].head) + Datagram(sent[1..])
  }

  /** What the messages mean, without their bytes: payloads in order, up to the first that ends it. */
  ghost function Answer(sent: seq<Sent>, replies: seq<u8>): Outcome {
    if sent == [] then More(replies)
    else
      match sent[0].note
      case Status(code, _) => if code == 0 then Acked(replies) else Failed(Signed(code))
      case Done(_) => Acked(replies)
      case Part(_, body) =>
        if |replies| + 16 + |body| > MAX_REPLY then TooLarge else Answer(sent[1..], replies + body)
  }

  lemma FramesStep(buf: seq<u8>, off: nat, replies: seq<u8>)
    ensures off + 16 > |buf| ==> Frames(buf, off, replies) == More(replies)
    ensures off + 16 <= |buf| ==>
            var len, ty := U32(buf, off), U16(buf, off + 4);
            Frames(buf, off, replies) ==
            if len < 16 || off + len > |buf| then Truncated
            else if ty == NLMSG_ERROR then
              if len < 20 then NoCode
              else if Signed(U32(buf, off + 16)) == 0 then Acked(replies)
              else Failed(Signed(U32(buf, off + 16)))
            else if ty == NLMSG_DONE then Acked(replies)
            else if |replies| + len > MAX_REPLY then TooLarge
            else Frames(buf, off + Align4(len), replies + buf[off + 16..off + len])
  {}

  lemma U32Within(pre: seq<u8>, buf: seq<u8>, at: nat)
    requires at + 4 <= |buf|
    ensures U32(pre + buf, |pre| + at) == U32(buf, at)
  {}

  lemma U16Within(pre: seq<u8>, buf: seq<u8>, at: nat)
    requires at + 2 <= |buf|
    ensures U16(pre + buf, |pre| + at) == U16(buf, at)
  {}

  /** Reading starts again past the bytes before it. */
  lemma {:induction false} FramesShift(pre: seq<u8>, buf: seq<u8>, off: nat, replies: seq<u8>)
    ensures Frames(pre + buf, |pre| + off, replies) == Frames(buf, off, replies)
    decreases |buf| - off
  {
    hide Frames, U32, U16, Signed, Align4;
    FramesStep(buf, off, replies);
    FramesStep(pre + buf, |pre| + off, replies);
    if off + 16 <= |buf| {
      U32Within(pre, buf, off);
      U16Within(pre, buf, off + 4);
      var len := U32(buf, off);
      if 16 <= len && off + len <= |buf| {
        if len >= 20 { U32Within(pre, buf, off + 16); }
        assert (pre + buf)[|pre| + off + 16..|pre| + off + len] == buf[off + 16..off + len];
        FramesShift(pre, buf, off + Align4(len), replies + buf[off + 16..off + len]);
      }
    }
  }

  lemma FramedParts(s: Sent, rest: seq<u8>)
    requires IsSent(s)
    ensures var f, len := Framed(s.note, s.head), 16 + |Body(s.note)|; var all := f + rest;
            && |f| == Align4(len) && U32(all, 0) == len && U16(all, 4) == Kind(s.note)
            && all[16..len] == Body(s.note)
  {
    hide Body, Kind, U32, Le32, Align4, Padded;
    var b := Body(s.note);
    var tail := Le16(Kind(s.note)) + s.head + Padded(b);
    var f := Framed(s.note, s.head);
    assert f == Le32(16 + |b|) + tail;
    assert f + rest == Le32(16 + |b|) + (tail + rest);
    WordReadsBack(16 + |b|, tail + rest);
    assert |f| == 16 + |Padded(b)| == Align4(16 + |b|) by { AlignedSum(|b|); PaddedLength(b); }
    assert (f + rest)[4..6] == Le16(Kind(s.note));
  }

  lemma AlignedSum(n: nat)
    ensures 16 + Align4(n) == Align4(16 + n)
  {}

  lemma StatusCode(s: Sent, rest: seq<u8>)
    requires IsSent(s) && s.note.Status?
    ensures U32(Framed(s.note, s.head) + rest, 16) == s.note.code
  {
    hide U32, Le32, Framed, Align4;
    FramedParts(s, rest);
    var all, len := Framed(s.note, s.head) + rest, 16 + |Body(s.note)|;
    assert all == all[..16] + all[16..];
    U32Within(all[..16], all[16..], 0);
    assert all[16..] == Le32(s.note.code) + (s.note.rest + all[len..]);
    WordReadsBack(s.note.code, s.note.rest + all[len..]);
  }

  /** One message read, then the rest of the datagram from its start. */
  lemma FirstFrame(s: Sent, rest: seq<u8>, replies: seq<u8>)
    requires IsSent(s)
    ensures Frames(Framed(s.note, s.head) + rest, 0, replies) ==
            if s.note.Status? then if s.note.code == 0 then Acked(replies) else Failed(Signed(s.note.code))
            else if s.note.Done? then Acked(replies)
            else if |replies| + 16 + |s.note.body| > MAX_REPLY then TooLarge
            else Frames(rest, 0, replies + s.note.body)
  {
    hide Frames, Framed, U32, U16, Align4;
    var f := Framed(s.note, s.head);
    FramedParts(s, rest);
    FramesStep(f + rest, 0, replies);
    if s.note.Status? { StatusCode(s, rest); }
    if s.note.Part? { FramesShift(f, rest, 0, replies + s.note.body); }
  }

  /** A datagram of any messages is read as what they mean. */
  lemma {:induction false} DatagramIsItsMessages(sent: seq<Sent>, replies: seq<u8>)
    requires EachSent(sent)
    ensures Frames(Datagram(sent), 0, replies) == Answer(sent, replies)
  {
    hide Frames, Framed, IsSent, Signed;
    FramesStep([], 0, replies);
    if sent != [] {
      FirstFrame(sent[0], Datagram(sent[1..]), replies);
      if sent[0].note.Part? {
        DatagramIsItsMessages(sent[1..], replies + sent[0].note.body);
      }
    }
  }

  ghost function Flat(sent: seq<seq<Sent>>): seq<Sent> {
    if sent == [] then [] else sent[0] + Flat(sent[1..])
  }

  ghost predicate AllSent(sent: seq<seq<Sent>>) {
    forall i :: 0 <= i < |sent| ==> EachSent(sent[i])
  }

  ghost function Datagrams(sent: seq<seq<Sent>>): seq<seq<u8>>
    requires AllSent(sent)
  {
    if sent == [] then [] else [Datagram(sent[0])] + Datagrams(sent[1..])
  }

  lemma {:induction false} AnswerAppends(a: seq<Sent>, b: seq<Sent>, replies: seq<u8>)
    ensures Answer(a + b, replies) ==
            var o := Answer(a, replies);
            if o.More? then Answer(b, o.replies) else o
  {
    hide Signed;
    if a == [] {
      assert a + b == b;
    } else {
      assert (a + b)[1..] == a[1..] + b;
      if a[0].note.Part? { AnswerAppends(a[1..], b, replies + a[0].note.body); }
    }
  }

  /** However the kernel cuts its messages into datagrams (none past the cap), the exchange ends as
      the messages in order say: the split is invisible. */
  lemma {:induction false} SplitIsInvisible(sent: seq<seq<Sent>>, replies: seq<u8>)
    requires AllSent(sent) && forall d <- Datagrams(sent) :: |d| <= MAX_REPLY
    ensures Transact(Datagrams(sent), replies) == Answer(Flat(sent), replies)
  {
    hide Frames, Datagram, EachSent;
    if sent != [] {
      var first, rest := sent[0], sent[1..];
      assert Datagrams(sent)[0] == Datagram(first) && Datagrams(sent)[1..] == Datagrams(rest);
      DatagramIsItsMessages(first, replies);
      AnswerAppends(first, Flat(rest), replies);
      var o := Answer(first, replies);
      if o.More? { SplitIsInvisible(rest, o.replies); }
    }
  }
}
