/** Whole runs of one stream: any order of socket readiness and periods, any captures and writes. */
module SoundRuns {
  import opened Bytes
  import opened SoundRing

  datatype Event = Ready(results: seq<Read>) | Period

  /** A zone that keeps its socket full, and a card that asks for period after period. */
  predicate Steady(events: seq<Event>) {
    && |events| % 2 == 0
    && forall i :: 0 <= i < |events| ==>
         if i % 2 == 0 then events[i].Ready? && Eager(events[i].results) else events[i].Period?
  }

  /** The samples due after `n` periods of a stream of so many bytes: a period each, while whole
      frames last. */
  function Due(n: nat, bytes: nat): nat {
    if n * 960 < bytes / 4 * 2 then n * 960 else bytes / 4 * 2
  }

  /** One more period, from a ring that is full or holds all that is left. `m` frames are heard, of
      the `q` whole ones there are. */
  lemma NextDue(n: nat, bytes: nat, m: nat, len: nat)
    requires 2 * m == Due(n, bytes) && 4 * m + len <= bytes && (len == RING || 4 * m + len == bytes)
    ensures 2 * m + 2 * Frames(len) == Due(n + 1, bytes)
  {
    hide Frames;
    var q := bytes / 4;
    assert 4 * q <= bytes < 4 * q + 4;
    if len == RING {
      assert m + PERIOD <= q;
    } else {
      assert 4 * (q - m) <= len < 4 * (q - m) + 4;
      assert Frames(len) == if q - m < PERIOD then q - m else PERIOD;
    }
  }

  /** A playing stream from its "ok" on. What is heard is the decoding of what the zone sent, in
      order, each sample once; what the ring does not hold is heard, and a stream that ended lost
      less than a frame. Fed steadily, no period passes without its samples. */
  method PlayStream(pipe: seq<u8>, events: seq<Event>) returns (heard: seq<int>, left: seq<u8>, ended: bool)
    ensures |left| <= |pipe| && left == pipe[|pipe| - |left|..]
    ensures heard <= Samples(pipe)
    ensures var sent := pipe[..|pipe| - |left|];
            if ended then heard == Samples(Whole(sent)) else 2 * |heard| <= |sent| <= 2 * |heard| + RING
    ensures Steady(events) ==> !ended && |heard| == Due(|events| / 2, |pipe|)
  {
    hide Samples, Whole, Unwound, Due, Frames;
    DueNone(|pipe|);
    var r := new Ring();
    left, heard := pipe, [];
    assert [] + pipe == pipe;
    var k := 0;
    while k < |events| && r.open
      invariant k <= |events| && fresh(r) && fresh(r.ring) && r.Plays() && heard == r.heard && r.fed + left == pipe
      invariant Steady(events) ==> OnTime(r, k, |pipe|, |heard|, left)
    {
      PlayedSoFar(r, left);
      if Steady(events) && k % 2 == 1 { NextDue(k / 2, |pipe|, |r.drained| / 4, r.len); }
      var more;
      more, left := OneEvent(r, events[k], left);
      heard := heard + more;
      k := k + 1;
    }
    ended := !r.open;
    assert pipe[..|pipe| - |left|] == r.fed;
    if ended { r.EndedIsAllHeard(); }
    PlayedSoFar(r, left);
  }

  lemma Quarters(n: nat)
    requires n % 4 == 0
    ensures n == 4 * (n / 4) && n / 2 == 2 * (n / 4) && n % 2 == 0
  {}

  /** The parts of a playing stream, in whole frames. */
  lemma InFrames(r: Ring)
    requires r.Plays()
    ensures r.Sized() && r.fed == r.drained + r.Contents() && r.heard == Samples(r.drained) && |r.drained| % 2 == 0
    ensures |r.drained| == 4 * (|r.drained| / 4) && |r.heard| == 2 * (|r.drained| / 4)
  {
    hide Samples, Unwound;
    Quarters(|r.drained|);
  }

  /** What a stream heard is the start of its bytes' decoding. */
  lemma PlayedSoFar(r: Ring, left: seq<u8>)
    requires r.Plays()
    ensures r.heard <= Samples(r.fed + left) && |r.fed| == 4 * (|r.drained| / 4) + r.len
    ensures |r.heard| == 2 * (|r.drained| / 4)
  {
    hide Samples, Unwound, Ring.Plays;
    InFrames(r);
    assert r.fed + left == r.drained + (r.Contents() + left);
    SamplesAppend(r.drained, r.Contents() + left);
  }

  /** Nothing missed after `k` events of a steady run. */
  ghost predicate OnTime(r: Ring, k: nat, bytes: nat, heard: nat, left: seq<u8>)
    reads r
  {
    r.open && !r.hup && heard == Due(k / 2, bytes) && (k % 2 == 1 ==> r.len == RING || left == [])
  }

  method OneEvent(r: Ring, e: Event, left: seq<u8>) returns (more: seq<int>, rest: seq<u8>)
    requires r.Plays() && r.open
    modifies r, r.ring
    ensures r.Plays() && r.heard == old(r.heard) + more && r.fed + rest == old(r.fed) + left
    ensures e.Ready? ==> more == []
    ensures e.Ready? && Eager(e.results) && !old(r.hup) ==> r.open && !r.hup && (r.len == RING || rest == [])
    ensures e.Period? ==> |more| == 2 * Frames(old(r.len)) && r.hup == old(r.hup) && (!r.hup ==> r.open)
  {
    hide Samples, Unwound, Frames;
    more, rest := [], left;
    match e {
      case Ready(results) =>
        if !r.hup { rest := r.ReadPlay(left, results); }
      case Period =>
        var acc := new int[PERIOD * CHANNELS](_ => 0);
        more := r.Next();
        r.AddTo(acc, 1);
    }
  }

  lemma DueNone(bytes: nat)
    ensures Due(0, bytes) == 0
  {}

  datatype Turn = Turn(captures: seq<seq<u8>>, writes: seq<Write>)

  predicate IsTurn(t: Turn) {
    forall i :: 0 <= i < |t.captures| ==> IsCapture(t.captures[i])
  }

  ghost function AllCaptures(turns: seq<Turn>): seq<seq<u8>> {
    if turns == [] then [] else AllCaptures(turns[..|turns| - 1]) + turns[|turns| - 1].captures
  }

  /** `a` is `b` with some of it left out. */
  ghost predicate Subsequence(a: seq<seq<u8>>, b: seq<seq<u8>>) {
    a == [] || (b != [] && ((a[0] == b[0] && Subsequence(a[1..], b[1..])) || Subsequence(a, b[1..])))
  }

  lemma {:induction false} SubsequenceAppends(a: seq<seq<u8>>, b: seq<seq<u8>>, c: seq<seq<u8>>, d: seq<seq<u8>>)
    requires Subsequence(a, b) && Subsequence(c, d)
    ensures Subsequence(a + c, b + d)
    decreases b
  {
    if a == [] {
      assert a + c == c;
      MoreBefore(c, b, d);
    } else {
      assert (b + d)[1..] == b[1..] + d;
      if a[0] == b[0] && Subsequence(a[1..], b[1..]) {
        SubsequenceAppends(a[1..], b[1..], c, d);
        assert (a + c)[1..] == a[1..] + c;
      } else {
        SubsequenceAppends(a, b[1..], c, d);
      }
    }
  }

  lemma {:induction false} MoreBefore(c: seq<seq<u8>>, b: seq<seq<u8>>, d: seq<seq<u8>>)
    requires Subsequence(c, d)
    ensures Subsequence(c, b + d)
  {
    if b == [] {
      assert b + d == d;
    } else {
      assert (b + d)[1..] == b[1..] + d;
      MoreBefore(c, b[1..], d);
    }
  }

  lemma {:induction false} KeptIsSubsequence(len: nat, captures: seq<seq<u8>>)
    ensures Subsequence(Kept(len, captures), captures)
    decreases captures
  {
    if captures != [] {
      var c, rest := captures[0], captures[1..];
      if len + |c| > RING {
        KeptIsSubsequence(len, rest);
      } else {
        KeptIsSubsequence(len + |c|, rest);
        assert Kept(len, captures)[1..] == Kept(len + |c|, rest);
      }
    }
  }

  /** A ring with room for all of them keeps every capture. */
  lemma {:induction false} RoomKeepsAll(len: nat, captures: seq<seq<u8>>)
    requires len + |Flat(captures)| <= RING
    ensures Kept(len, captures) == captures
    decreases captures
  {
    if captures != [] {
      RoomKeepsAll(len + |captures[0]|, captures[1..]);
    }
  }

  // ---- A recording, turn by turn ----

  /** The ring's head and length, whether the socket still stands, and every capture kept. */
  datatype Recording = Recording(head: nat, len: nat, open: bool, kept: seq<seq<u8>>)

  predicate InRing(r: Recording) {
    r.head < RING && r.len <= RING
  }

  const NOTHING := Recording(0, 0, true, [])

  /** A turn: each capture is kept that fits, then the socket takes what it takes. A recording that
      ended takes no more. */
  function NextTurn(r: Recording, t: Turn): (n: Recording)
    requires InRing(r)
    ensures InRing(n)
  {
    var more := Kept(r.len, t.captures);
    KeptFits(r.len, t.captures);
    if !r.open then r
    else
      var len := r.len + |Flat(more)|;
      var s := Sends(r.head, len, t.writes);
      Recording(Turned(r.head, s.n), len - s.n, !s.broken, r.kept + more)
  }

  lemma {:induction false} KeptFits(len: nat, captures: seq<seq<u8>>)
    requires len <= RING
    ensures len + |Flat(Kept(len, captures))| <= RING
    decreases captures
  {
    if captures != [] {
      var c, rest := captures[0], captures[1..];
      if len + |c| > RING {
        KeptFits(len, rest);
      } else {
        KeptFits(len + |c|, rest);
        assert Kept(len, captures)[1..] == Kept(len + |c|, rest);
      }
    }
  }

  function Recorded(turns: seq<Turn>): (r: Recording)
    ensures InRing(r)
  {
    if turns == [] then NOTHING else NextTurn(Recorded(turns[..|turns| - 1]), turns[|turns| - 1])
  }

  lemma NoTurns()
    ensures Recorded([]) == NOTHING
  {}

  lemma OneTurnMore(turns: seq<Turn>, k: nat)
    requires k < |turns|
    ensures Recorded(turns[..k + 1]) == NextTurn(Recorded(turns[..k]), turns[k])
  {
    hide NextTurn;
    assert turns[..k + 1][..k] == turns[..k];
  }

  /** A recording from its "ok" on. What the zone has received is exactly the captures kept, whole and
      in order, less what the ring holds. */
  method RecordStream(turns: seq<Turn>) returns (r: Ring, sent: seq<u8>)
    requires forall i :: 0 <= i < |turns| ==> IsTurn(turns[i])
    ensures r.Valid() && sent + r.Contents() == Flat(Recorded(turns).kept)
    ensures r.len == Recorded(turns).len && r.open == Recorded(turns).open
  {
    hide Flat, Unwound, Kept, Sends, Turned, Recorded;
    r := new Ring();
    sent := [];
    NoTurns();
    FlatNone();
    var k := 0;
    while k < |turns|
      invariant k <= |turns| && fresh(r) && fresh(r.ring) && r.Valid()
      invariant var rec := Recorded(turns[..k]);
                && r.drained == sent && r.fed == Flat(rec.kept)
                && r.head == rec.head && r.len == rec.len && r.open == rec.open
    {
      OneTurnMore(turns, k);
      if r.open {
        FlatAppends(Recorded(turns[..k]).kept, Kept(r.len, turns[k].captures));
        var s := r.RecordIn(turns[k].captures, turns[k].writes);
        sent := sent + s;
      }
      k := k + 1;
    }
    assert turns[..k] == turns;
  }

  /** Whether the `i`-th capture of a turn is kept: exactly when the ring has room for it after those
      before it. */
  lemma {:induction false} KeptAt(len: nat, captures: seq<seq<u8>>, i: nat)
    requires i < |captures|
    ensures var before := Kept(len, captures[..i]); var now := len + |Flat(before)|;
            Kept(len, captures[..i + 1]) == before + if now + |captures[i]| <= RING then [captures[i]] else []
    decreases captures
  {
    var c, rest := captures[0], captures[1..];
    if i == 0 {
      assert captures[..1] == [c] && captures[..0] == [] && Flat([]) == [];
    } else {
      var l := if len + |c| > RING then len else len + |c|;
      KeptAt(l, rest, i - 1);
      assert captures[..i + 1][1..] == rest[..i] && captures[..i][1..] == rest[..i - 1];
      if len + |c| <= RING { assert ([c] + Kept(l, rest[..i - 1]))[1..] == Kept(l, rest[..i - 1]); }
    }
  }

  /** The captures kept are some of those made, in the order they were made. */
  lemma {:induction false} RecordedIsSubsequence(turns: seq<Turn>)
    ensures Subsequence(Recorded(turns).kept, AllCaptures(turns))
  {
    hide Kept, Flat, Sends, Turned, Subsequence;
    NothingInNothing();
    if turns != [] {
      var before, t := turns[..|turns| - 1], turns[|turns| - 1];
      var r := Recorded(before);
      RecordedIsSubsequence(before);
      KeptIsSubsequence(r.len, t.captures);
      Nothing(t.captures);
      assert r.kept + [] == r.kept;
      SubsequenceAppends(r.kept, AllCaptures(before), if r.open then Kept(r.len, t.captures) else [], t.captures);
    }
  }

  /** A zone that takes all it is given each turn, a turn's captures being no more than a ring. */
  predicate KeepsUp(turns: seq<Turn>) {
    forall i :: 0 <= i < |turns| ==> |Flat(turns[i].captures)| <= RING && Hungry(turns[i].writes)
  }

  /** A zone that keeps up receives every capture. */
  lemma {:induction false} KeptUpLosesNothing(turns: seq<Turn>)
    requires KeepsUp(turns)
    ensures var r := Recorded(turns); r.open && r.len == 0 && r.kept == AllCaptures(turns)
  {
    hide Kept, Flat, Sends, Turned, Hungry;
    if turns != [] {
      var before, t := turns[..|turns| - 1], turns[|turns| - 1];
      KeptUpLosesNothing(before);
      RoomKeepsAll(0, t.captures);
      HungryTakesAll(Recorded(before).head, |Flat(t.captures)|, t.writes);
    }
  }

  lemma NothingInNothing()
    ensures Subsequence([], [])
  {}

  lemma Nothing(b: seq<seq<u8>>)
    ensures Subsequence([], b)
  {}
}
