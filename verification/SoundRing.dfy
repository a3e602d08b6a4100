/** The rings between the mixer and a zone: bytes to play, or bytes a recording has still to send. */
module SoundRing {
  import opened Bytes

  const RING := 15360  // bytes: eight periods
  const FRAME := 4
  const PERIOD := 480
  const CHANNELS := 2

  function Wrap(n: nat): (r: nat)
    requires n < 2 * RING
    ensures r == if n < RING then n else n - RING
  {
    n % 15360
  }

  /** The `len` bytes from `head`, in the order they went in. */
  function Unwound(r: seq<u8>, head: nat, len: nat): (q: seq<u8>)
    requires |r| == RING && head < RING && len <= RING
    ensures |q| == len
  {
    if head + len <= RING then r[head..head + len] else r[head..] + r[..head + len - RING]
  }

  lemma UnwoundAt(r: seq<u8>, head: nat, len: nat, i: nat)
    requires |r| == RING && head < RING && i < len <= RING
    ensures Unwound(r, head, len)[i] == r[Wrap(head + i)]
  {}

  /** Bytes put at the tail, without wrapping, are at the queue's end. */
  lemma Filled(r: seq<u8>, head: nat, len: nat, data: seq<u8>)
    requires |r| == RING && head < RING && len + |data| <= RING && len < RING
    requires Wrap(head + len) + |data| <= RING
    ensures var tail := Wrap(head + len);
            Unwound(r[..tail] + data + r[tail + |data|..], head, len + |data|) == Unwound(r, head, len) + data
  {
    hide Unwound, Wrap;
    var tail := Wrap(head + len);
    var r' := r[..tail] + data + r[tail + |data|..];
    var q, q' := Unwound(r, head, len) + data, Unwound(r', head, len + |data|);
    forall i | 0 <= i < len + |data| ensures q'[i] == q[i] {
      UnwoundAt(r', head, len + |data|, i);
      if i < len { UnwoundAt(r, head, len, i); }
    }
  }

  lemma Advanced(r: seq<u8>, head: nat, len: nat, k: nat)
    requires |r| == RING && head < RING && k <= len <= RING
    ensures Unwound(r, Wrap(head + k), len - k) == Unwound(r, head, len)[k..]
  {
    hide Unwound, Wrap;
    var q, q' := Unwound(r, head, len), Unwound(r, Wrap(head + k), len - k);
    forall i | 0 <= i < len - k ensures q'[i] == q[k..][i] {
      UnwoundAt(r, head, len, k + i);
      UnwoundAt(r, Wrap(head + k), len - k, i);
    }
  }

  // ---- Samples ----

  function S16(lo: u8, hi: u8): (r: int)
    ensures -32768 <= r <= 32767
  {
    var v := lo as int + 256 * hi as int;
    if v < 32768 then v else v - 65536
  }

  /** Little-endian 16-bit samples; a last odd byte is none. */
  function Samples(b: seq<u8>): (r: seq<int>)
    ensures |r| == |b| / 2
    ensures forall i :: 0 <= i < |r| ==> -32768 <= r[i] <= 32767
  {
    seq(|b| / 2, i requires 0 <= i < |b| / 2 => S16(b[2 * i], b[2 * i + 1]))
  }

  lemma SamplesAppend(a: seq<u8>, b: seq<u8>)
    requires |a| % 2 == 0
    ensures Samples(a + b) == Samples(a) + Samples(b)
  {
    hide S16;
    var r, s := Samples(a + b), Samples(a) + Samples(b);
    forall i | 0 <= i < |r| ensures r[i] == s[i] {
      if 2 * i >= |a| {
        assert (a + b)[2 * i] == b[2 * (i - |a| / 2)] && (a + b)[2 * i + 1] == b[2 * (i - |a| / 2) + 1];
      }
    }
  }

  /** Whole frames, one period at most. */
  function Frames(len: nat): (n: nat)
    ensures n <= PERIOD && n * FRAME <= len && (n == PERIOD || len < n * FRAME + FRAME)
  {
    if len / 4 > PERIOD then PERIOD else len / 4
  }

  /** The whole frames at the start of a stream's bytes. */
  function Whole(b: seq<u8>): seq<u8> {
    b[..|b| / 4 * 4]
  }

  lemma WholeIs(a: seq<u8>, b: seq<u8>)
    requires |a| % 4 == 0 && |b| < 4
    ensures Whole(a + b) == a
  {}

  /** A sample, or the silence after the last. */
  function At(samples: seq<int>, s: nat): int {
    if s < |samples| then samples[s] else 0
  }

  // ---- Captures ----

  predicate IsCapture(c: seq<u8>) {
    |c| % 4 == 0 && |c| <= PERIOD * FRAME
  }

  /** The captures a ring with `len` bytes takes: each whole, or not at all when it does not fit. */
  function Kept(len: nat, captures: seq<seq<u8>>): (r: seq<seq<u8>>)
    ensures |r| <= |captures|
    decreases captures
  {
    if captures == [] then []
    else if len + |captures[0]| > RING then Kept(len, captures[1..])
    else [captures[0]] + Kept(len + |captures[0]|, captures[1..])
  }

  function Flat(parts: seq<seq<u8>>): seq<u8> {
    if parts == [] then [] else parts[0] + Flat(parts[1..])
  }

  lemma {:induction false} FlatAppends(a: seq<seq<u8>>, b: seq<seq<u8>>)
    ensures Flat(a + b) == Flat(a) + Flat(b)
  {
    hide Flat;
    FlatStep(a);
    FlatStep(a + b);
    if a == [] {
      assert a + b == b;
    } else {
      FlatAppends(a[1..], b);
      assert (a + b)[1..] == a[1..] + b;
      assert a[0] + (Flat(a[1..]) + Flat(b)) == a[0] + Flat(a[1..]) + Flat(b);
    }
  }

  lemma FlatStep(parts: seq<seq<u8>>)
    ensures Flat(parts) == if parts == [] then [] else parts[0] + Flat(parts[1..])
  {}

  lemma Joins(fed: seq<u8>, drained: seq<u8>, q: seq<u8>, pipe: seq<u8>, r: nat)
    requires fed == drained + q && r <= |pipe|
    ensures fed + pipe[..r] == drained + (q + pipe[..r]) && fed + pipe[..r] + pipe[r..] == fed + pipe
  {}

  /** The front of a queue moves to what left it. */
  lemma Moves(left: seq<u8>, q: seq<u8>, n: nat)
    requires n <= |q|
    ensures left + q == left + q[..n] + q[n..]
  {}

  lemma Fours(a: nat, k: nat)
    requires a % 4 == 0
    ensures (a + k * FRAME) % 4 == 0 && a % 2 == 0
  {
    var m := a / 4;
    assert a == 4 * m;
    FourTimes(m + k);
    assert a + k * FRAME == 4 * (m + k);
    Twice(2 * m);
  }

  lemma FourTimes(n: nat)
    ensures (4 * n) % 4 == 0
  {}

  lemma Twice(n: nat)
    ensures (2 * n) % 2 == 0
  {}

  /** A period's bytes move from a queue to what was mixed. */
  lemma PeriodTaken(drained: seq<u8>, q: seq<u8>)
    requires |drained| % 4 == 0
    ensures var n := Frames(|q|) * FRAME;
            && |drained + q[..n]| % 4 == 0
            && Samples(drained + q[..n]) == Samples(drained) + Samples(q[..n])
            && drained + q == drained + q[..n] + q[n..]
  {
    hide Samples, Frames, S16;
    var n := Frames(|q|);
    Fours(|drained|, n);
    Moves(drained, q, n * FRAME);
    SamplesAppend(drained, q[..n * FRAME]);
  }

  // ---- The ring ----

  /** One read of the zone's socket: up to `n` bytes, the end (or an error), or nothing for now. */
  datatype Read = Some(n: nat) | End | Later

  /** One write to it: up to `n` bytes, an error, or none for now. */
  datatype Write = Took(n: nat) | Broken | Full

  /** A socket that gives whatever is asked, twice: once to the ring's end, once from its start. */
  predicate Eager(results: seq<Read>) {
    |results| >= 2 && forall i :: 0 <= i < |results| ==> results[i] == Some(RING)
  }

  predicate Hungry(writes: seq<Write>) {
    |writes| >= 2 && forall i :: 0 <= i < |writes| ==> writes[i] == Took(RING)
  }

  /** What a run of writes takes of `len` bytes from `head`, each to the ring's end at most, and
      whether the socket broke. */
  datatype Sending = Sending(n: nat, broken: bool)

  function Sends(head: nat, len: nat, writes: seq<Write>): (s: Sending)
    requires head < RING && len <= RING
    ensures s.n <= len
    decreases |writes|
  {
    if len == 0 || writes == [] then Sending(0, false)
    else
      match writes[0]
      case Took(n) =>
        var run := if len < RING - head then len else RING - head;
        var w := if n < run then n else run;
        if w == 0 then Sending(0, false)
        else
          var rest := Sends(Wrap(head + w), len - w, writes[1..]);
          Sending(w + rest.n, rest.broken)
      case Broken => Sending(0, true)
      case Full => Sending(0, false)
  }

  lemma SendsStep(head: nat, len: nat, writes: seq<Write>)
    requires head < RING && 0 < len <= RING && writes != []
    ensures writes[0].Broken? ==> Sends(head, len, writes) == Sending(0, true)
    ensures writes[0].Full? ==> Sends(head, len, writes) == Sending(0, false)
    ensures writes[0].Took? ==>
            var run := if len < RING - head then len else RING - head;
            var w := if writes[0].n < run then writes[0].n else run;
            var rest := Sends(Wrap(head + w), len - w, writes[1..]);
            Sends(head, len, writes) == if w == 0 then Sending(0, false) else Sending(w + rest.n, rest.broken)
  {}

  lemma SendsNone(head: nat, len: nat, writes: seq<Write>)
    requires head < RING && len <= RING && (len == 0 || writes == [])
    ensures Sends(head, len, writes) == Sending(0, false)
  {}

  lemma HungryTakesAll(head: nat, len: nat, writes: seq<Write>)
    requires head < RING && len <= RING && Hungry(writes)
    ensures Sends(head, len, writes) == Sending(len, false)
  {
    var run := if len < RING - head then len else RING - head;
    if 0 < len {
      assert writes[0] == Took(RING) && writes[1..][0] == writes[1];
      assert run < len ==> Wrap(head + run) == 0;
      assert Sends(Wrap(head + run), len - run, writes[1..]) == Sending(len - run, false);
    }
  }

  /** The head after `n` bytes left. */
  function Turned(head: nat, n: nat): (r: nat)
    ensures r < RING
  {
    (head + n) % 15360
  }

  lemma NotTurned(head: nat)
    requires head < RING
    ensures Turned(head, 0) == head
  {}

  lemma TurnedOn(head: nat, n: nat, w: nat)
    requires w <= RING
    ensures Wrap(Turned(head, n) + w) == Turned(head, n + w)
  {}

  class Ring {
    const ring: array<u8>
    var head: nat
    var len: nat
    var hup: bool
    var open: bool
    ghost var fed: seq<u8>      // every byte that ever went in
    ghost var drained: seq<u8>  // every byte that came out
    ghost var heard: seq<int>   // every sample mixed

    ghost predicate Valid()
      reads this, ring
    {
      Sized() && fed == drained + Contents()
    }

    /** A stream that plays: what was mixed is what came out, frame by frame, and it ends only with
        less than a frame left. */
    ghost predicate Plays()
      reads this, ring
    {
      && Valid() && |drained| % 4 == 0 && heard == Samples(drained)
      && (!open ==> hup && |fed| < |drained| + FRAME)
    }

    predicate Sized()
      reads this, ring
    {
      ring.Length == RING && head < RING && len <= RING
    }

    function Contents(): seq<u8>
      reads this, ring
      requires Sized()
    {
      Unwound(ring[..], head, len)
    }

    constructor ()
      ensures Plays() && fed == [] && head == 0 && len == 0 && open && !hup && fresh(ring)
    {
      ring := new u8[RING](_ => 0);
      head, len, hup, open, fed, drained, heard := 0, 0, false, true, [], [], [];
    }

    /** `data` into the ring at its tail, which must not wrap. */
    method Put(data: seq<u8>)
      requires Sized() && len < RING && len + |data| <= RING && Wrap(head + len) + |data| <= RING
      modifies ring, this`len
      ensures Sized() && Contents() == old(Contents()) + data && len == old(len) + |data|
    {
      hide Unwound;
      var tail := Wrap(head + len);
      ghost var was := ring[..];
      forall i | 0 <= i < |data| {
        ring[tail + i] := data[i];
      }
      assert ring[..] == was[..tail] + data + was[tail + |data|..];
      Filled(was, head, len, data);
      len := len + |data|;
    }

    /** One read: to the ring's end at most, and no more than it has room for. */
    method ReadSome(pipe: seq<u8>, n: nat) returns (r: nat, left: seq<u8>)
      requires Valid() && len < RING
      modifies this`len, this`fed, ring
      ensures Valid() && len == old(len) + r && fed + left == old(fed) + pipe && old(fed) <= fed
      ensures r == 0 ==> n == 0 || pipe == []
      ensures n >= RING ==> left == [] || len == RING || head + len == RING
      ensures n >= RING && head + old(len) == RING ==> left == [] || len == RING
      ensures left == pipe[r..]
    {
      hide Unwound;
      var tail := Wrap(head + len);
      var room := if RING - len > RING - tail then RING - tail else RING - len;
      r := if n < room then n else room;
      r := if r < |pipe| then r else |pipe|;
      left := pipe[r..];
      Joins(fed, drained, Contents(), pipe, r);
      Put(pipe[..r]);
      fed := fed + pipe[..r];
    }

    /** As much of the zone's stream as the ring holds. `pipe` is what the zone sends from here. */
    method ReadPlay(pipe: seq<u8>, results: seq<Read>) returns (left: seq<u8>)
      requires Plays() && open && !hup
      modifies this, ring
      ensures Plays() && heard == old(heard) && drained == old(drained)
      ensures fed + left == old(fed) + pipe && old(fed) <= fed
      ensures hup ==> End in results && (open <==> len >= FRAME)
      ensures old(len) < RING && results != [] && results[0].End? ==> hup
      ensures Eager(results) ==> len == RING || left == []
    {
      hide Unwound, Samples, Eager;
      left := ReadAll(pipe, results);
    }

    method ReadAll(pipe: seq<u8>, results: seq<Read>) returns (left: seq<u8>)
      requires Valid() && open && !hup
      modifies this`len, this`fed, this`hup, this`open, ring
      ensures Valid() && fed + left == old(fed) + pipe && old(fed) <= fed && (!open ==> hup)
      ensures hup ==> End in results && (open <==> len >= FRAME)
      ensures old(len) < RING && results != [] && results[0].End? ==> hup
      ensures Eager(results) ==> len == RING || left == []
    {
      hide Unwound;
      left := pipe;
      var k := 0;
      while len < RING && k < |results|
        invariant Valid() && open && !hup && fed + left == old(fed) + pipe && old(fed) <= fed
        invariant k <= |results| && (k > 0 ==> !results[0].End?) && (k == 0 ==> len == old(len))
        invariant Eager(results) && k >= 1 ==> len == RING || left == [] || head + len == RING
        invariant Eager(results) && k >= 2 ==> len == RING || left == []
      {
        match results[k] {
          case Some(n) =>
            var r;
            r, left := ReadSome(left, n);
            if r == 0 { return; }
          case Later =>
            return;
          case End =>
            hup := true;
            if len < FRAME { open := false; }
            return;
        }
        k := k + 1;
      }
    }

    function SampleAt(i: nat): int
      reads this, ring
      requires Sized() && 2 * i + 1 < len
    {
      var at := Wrap(head + i * 2);
      S16(ring[at], ring[Wrap(at + 1)])
    }

    lemma SampleAtIs(i: nat)
      requires Sized() && 2 * i + 1 < len
      ensures SampleAt(i) == Samples(Contents())[i]
    {
      hide S16;
      UnwoundAt(ring[..], head, len, 2 * i);
      UnwoundAt(ring[..], head, len, 2 * i + 1);
    }

    /** What the next period takes from this stream. */
    function Next(): (r: seq<int>)
      reads this, ring
      ensures |r| <= PERIOD * CHANNELS
      ensures forall i :: 0 <= i < |r| ==> -32768 <= r[i] <= 32767
    {
      if open && Sized() then Samples(Contents()[..Frames(len) * FRAME]) else []
    }

    /** The bytes at the head leave, `n` of them. */
    method Advance(n: nat)
      requires Sized() && n <= len
      modifies this`head, this`len
      ensures Sized() && Contents() == old(Contents())[n..] && len == old(len) - n && head == Wrap(old(head) + n)
    {
      hide Unwound;
      Advanced(ring[..], head, len, n);
      head := Wrap(head + n);
      len := len - n;
    }

    /** This stream's next period into the sums, at gain `g`, and out of the ring. */
    method AddTo(acc: array<int>, g: int)
      requires Plays() && acc.Length == PERIOD * CHANNELS
      modifies this, acc
      ensures Plays() && fed == old(fed) && hup == old(hup)
      ensures heard == old(heard) + old(Next())
      ensures forall s :: 0 <= s < acc.Length ==> acc[s] == old(acc[s]) + At(old(Next()), s) * g
      ensures open == (old(open) && !(hup && len < FRAME))
    {
      hide Unwound, Samples, At;
      if open {
        Accumulate(acc, g);
        Consume();
      } else {
        Silent(g);
      }
    }

    lemma Silent(g: int)
      ensures forall s: nat :: At([], s) * g == 0
    {}

    method Accumulate(acc: array<int>, g: int)
      requires Sized() && open && acc.Length == PERIOD * CHANNELS
      modifies acc
      ensures forall s :: 0 <= s < acc.Length ==> acc[s] == old(acc[s]) + At(Next(), s) * g
      ensures ring[..] == old(ring[..])
    {
      hide Unwound, Samples, S16;
      var have := Frames(len);
      ghost var next := Next();
      var s := 0;
      while s < have * CHANNELS
        invariant s <= have * CHANNELS == |next| && next == Next()
        invariant ring[..] == old(ring[..])
        invariant forall t :: 0 <= t < s ==> acc[t] == old(acc[t]) + next[t] * g
        invariant forall t :: s <= t < acc.Length ==> acc[t] == old(acc[t])
      {
        NextAt(s);
        acc[s] := acc[s] + SampleAt(s) * g;
        s := s + 1;
      }
    }

    /** The frames just mixed leave the ring. */
    method Consume()
      requires Plays() && open
      modifies this
      ensures Plays() && fed == old(fed) && hup == old(hup)
      ensures heard == old(heard) + old(Next())
      ensures open == !(hup && len < FRAME)
    {
      hide Unwound, Samples, Frames;
      var have := Frames(len);
      ghost var next, q := Next(), Contents();
      PeriodTaken(drained, q);
      Advance(have * FRAME);
      drained := drained + q[..have * FRAME];
      heard := heard + next;
      if hup && len < FRAME { open := false; }
    }

    lemma NextAt(s: nat)
      requires Sized() && open && s < |Next()|
      ensures 2 * s + 1 < len && SampleAt(s) == Next()[s]
    {
      hide S16, Unwound;
      SampleAtIs(s);
    }

    /** The whole stream, once it ended: every whole frame sent was mixed, in order, each once. */
    lemma EndedIsAllHeard()
      requires Plays() && !open
      ensures heard == Samples(Whole(fed))
    {
      hide Samples, Unwound, Whole;
      WholeIs(drained, Contents());
    }

    // ---- Recording ----

    method PushCapture(c: seq<u8>)
      requires Valid() && IsCapture(c)
      modifies this, ring
      ensures Valid() && drained == old(drained) && open == old(open) && head == old(head)
      ensures fed == old(fed) + Flat(Kept(old(len), [c])) && |Contents()| == len
      ensures len == old(len) + |Flat(Kept(old(len), [c]))|
    {
      hide Unwound;
      assert Flat([c]) == c;
      if len + |c| > RING { return; }
      ghost var was := Contents();
      var i := 0;
      assert was + c[..0] == was;
      while i < |c|
        invariant i <= |c| && Sized() && len == old(len) + i && Contents() == was + c[..i]
        invariant fed == old(fed) && drained == old(drained) && open == old(open) && head == old(head)
      {
        Put([c[i]]);
        assert was + c[..i] + [c[i]] == was + c[..i + 1];
        i := i + 1;
      }
      assert c[..i] == c;
      assert drained + was + c == drained + (was + c);
      fed := fed + c;
    }

    /** One turn of the recording: what the card captured, then what the socket takes. */
    method RecordIn(captures: seq<seq<u8>>, writes: seq<Write>) returns (sent: seq<u8>)
      requires Valid() && open && forall i :: 0 <= i < |captures| ==> IsCapture(captures[i])
      modifies this, ring
      ensures Valid() && fed == old(fed) + Flat(Kept(old(len), captures)) && drained == old(drained) + sent
      ensures old(len) + |Flat(Kept(old(len), captures))| <= RING
      ensures var s := Sends(old(head), old(len) + |Flat(Kept(old(len), captures))|, writes);
              |sent| == s.n && open == !s.broken && head == Turned(old(head), s.n)
    {
      hide Unwound, Flat, Kept, Sends, Turned;
      Capture(captures);
      sent := Send(writes);
    }

    method Capture(captures: seq<seq<u8>>)
      requires Valid() && open && forall i :: 0 <= i < |captures| ==> IsCapture(captures[i])
      modifies this, ring
      ensures Valid() && fed == old(fed) + Flat(Kept(old(len), captures)) && drained == old(drained)
      ensures open && head == old(head) && len == old(len) + |Flat(Kept(old(len), captures))| <= RING
    {
      hide Unwound, Flat;
      ghost var start := len;
      var k := 0;
      assert captures[0..] == captures;
      FlatNone();
      assert fed + Flat(Kept(len, captures)) == old(fed) + Flat(Kept(start, captures));
      while k < |captures|
        invariant k <= |captures| && Valid() && open && drained == old(drained) && head == old(head)
        invariant fed + Flat(Kept(len, captures[k..])) == old(fed) + Flat(Kept(start, captures))
      {
        KeptStep(fed, len, captures[k..]);
        assert captures[k..][1..] == captures[k + 1..];
        PushCapture(captures[k]);
        k := k + 1;
      }
      assert captures[k..] == [];
      assert fed + [] == fed;
    }

    /** One write: to the ring's end at most. */
    method WriteSome(n: nat) returns (bytes: seq<u8>)
      requires Valid() && len > 0
      modifies this`head, this`len, this`drained
      ensures Valid() && drained == old(drained) + bytes
      ensures var run := if old(len) < RING - old(head) then old(len) else RING - old(head);
              |bytes| == (if n < run then n else run) && len == old(len) - |bytes| && head == Wrap(old(head) + |bytes|)
    {
      hide Unwound;
      var run := if len < RING - head then len else RING - head;
      var w := if n < run then n else run;
      bytes := ring[head..head + w];
      RunIsFront(w);
      Moves(drained, Contents(), w);
      Advance(w);
      drained := drained + bytes;
    }

    method Send(writes: seq<Write>) returns (sent: seq<u8>)
      requires Valid()
      modifies this
      ensures Valid() && fed == old(fed) && drained == old(drained) + sent
      ensures var s := Sends(old(head), old(len), writes);
              |sent| == s.n && open == (old(open) && !s.broken) && head == Turned(old(head), s.n)
    {
      hide Unwound, Turned, Sends, Wrap;
      sent := [];
      var k := 0;
      ghost var all := Sends(head, len, writes);
      assert writes[0..] == writes;
      assert head == Turned(head, 0) by { NotTurned(head); }
      while len > 0 && k < |writes|
        invariant k <= |writes| && Valid() && open == old(open) && fed == old(fed) && drained == old(drained) + sent
        invariant var rest := Sends(head, len, writes[k..]); all == Sending(|sent| + rest.n, rest.broken)
        invariant head == Turned(old(head), |sent|)
      {
        ghost var left := writes[k..];
        assert left[0] == writes[k] && left[1..] == writes[k + 1..];
        SendsStep(head, len, left);
        match writes[k] {
          case Took(n) =>
            var bytes := WriteSome(n);
            if bytes == [] { return; }
            TurnedOn(old(head), |sent|, |bytes|);
            sent := sent + bytes;
          case Broken =>
            open := false;
            return;
          case Full =>
            return;
        }
        k := k + 1;
      }
      SendsNone(head, len, writes[k..]);
    }

    lemma RunIsFront(w: nat)
      requires Sized() && w <= len && head + w <= RING
      ensures Contents()[..w] == ring[head..head + w]
    {}
  }

  lemma FlatNone()
    ensures Flat([]) == []
  {}

  lemma KeptStep(fed: seq<u8>, len: nat, captures: seq<seq<u8>>)
    requires captures != []
    ensures var one := Flat(Kept(len, [captures[0]]));
            fed + Flat(Kept(len, captures)) == fed + one + Flat(Kept(len + |one|, captures[1..]))
  {
    var c, rest := captures[0], captures[1..];
    assert Kept(len, [c]) == if len + |c| > RING then [] else [c];
    if len + |c| <= RING {
      assert Flat([c]) == c;
      FlatAppends([c], Kept(len + |c|, rest));
      assert fed + (c + Flat(Kept(len + |c|, rest))) == fed + c + Flat(Kept(len + |c|, rest));
    } else {
      assert fed + [] == fed;
    }
  }
}
