/** One period of every stream, at its zone's volume and the master's, summed with saturation. */
module SoundMix {
  import opened SoundRing

  const MAX_CONNS := 64
  const MAX_GAIN := 10000

  /** Volume as amplitude, squared. */
  function Gain(volume: nat, muted: bool): (g: nat)
    requires volume <= 100
    ensures g <= MAX_GAIN
  {
    if muted then 0 else volume * volume
  }

  /** A stream's samples for the period, and its zone's gain. */
  datatype Part = Part(samples: seq<int>, gain: nat)

  predicate IsPart(p: Part) {
    p.gain <= MAX_GAIN && forall i :: 0 <= i < |p.samples| ==> -32768 <= p.samples[i] <= 32767
  }

  predicate AreParts(parts: seq<Part>) {
    forall i :: 0 <= i < |parts| ==> IsPart(parts[i])
  }

  function Weighted(parts: seq<Part>, s: nat): int {
    if parts == [] then 0 else At(parts[0].samples, s) * parts[0].gain + Weighted(parts[1..], s)
  }

  /** C's division, toward zero. */
  function TruncDiv(a: int, b: int): (r: int)
    requires b > 0
    ensures a >= 0 ==> r * b <= a < (r + 1) * b
    ensures a <= 0 ==> (r - 1) * b < a <= r * b
  {
    if a >= 0 then a / b else -(-a / b)
  }

  function Saturate(v: int): (r: int)
    ensures -32768 <= r <= 32767
  {
    if v > 32767 then 32767 else if v < -32768 then -32768 else v
  }

  function Output(sum: int, m: int): (r: int)
    ensures -32768 <= r <= 32767
  {
    Saturate(TruncDiv(sum * m, 100_000_000))
  }

  // ---- Width ----

  lemma Scaled(x: int, g: nat)
    requires -32768 <= x <= 32767 && g <= MAX_GAIN
    ensures -327_680_000 <= x * g <= 327_680_000
  {
    var a := if x < 0 then -x else x;
    Times(a, 32768, g);
    assert x * g == if x < 0 then -(a * g) else a * g;
  }

  lemma {:induction false} SumBound(parts: seq<Part>, s: nat)
    requires AreParts(parts)
    ensures -327_680_000 * |parts| <= Weighted(parts, s) <= 327_680_000 * |parts|
  {
    if parts != [] {
      assert IsPart(parts[0]);
      Scaled(At(parts[0].samples, s), parts[0].gain);
      SumBound(parts[1..], s);
    }
  }

  /** No sum on the way, nor its product with the master's gain, leaves 64 bits. */
  lemma SumsFit(parts: seq<Part>, s: nat, k: nat, m: nat)
    requires AreParts(parts) && |parts| <= MAX_CONNS && k <= |parts| && m <= MAX_GAIN
    ensures var sum := Weighted(parts[..k], s);
            && -0x8000_0000_0000_0000 <= sum < 0x8000_0000_0000_0000
            && -0x8000_0000_0000_0000 <= sum * m < 0x8000_0000_0000_0000
  {
    hide Weighted, AreParts;
    SumBound(parts[..k], s) by { PartsPrefix(parts, k); }
    Product(Weighted(parts[..k], s), m);
  }

  lemma PartsPrefix(parts: seq<Part>, k: nat)
    requires AreParts(parts) && k <= |parts|
    ensures AreParts(parts[..k])
  {}

  lemma Product(sum: int, m: nat)
    requires -20_971_520_000 <= sum <= 20_971_520_000 && m <= MAX_GAIN
    ensures -209_715_200_000_000 <= sum * m <= 209_715_200_000_000
  {
    var a := if sum < 0 then -sum else sum;
    Times(a, 20_971_520_000, m);
    assert sum * m == if sum < 0 then -(a * m) else a * m;
  }

  lemma Times(a: nat, b: nat, m: nat)
    requires a <= b
    ensures 0 <= a * m <= b * m
  {}

  // ---- What the sum means ----

  lemma {:induction false} WeightedAppends(a: seq<Part>, b: seq<Part>, s: nat)
    ensures Weighted(a + b, s) == Weighted(a, s) + Weighted(b, s)
  {
    if a == [] {
      assert a + b == b;
    } else {
      assert (a + b)[1..] == a[1..] + b;
      WeightedAppends(a[1..], b, s);
    }
  }

  lemma WeightedOne(p: Part, s: nat)
    ensures Weighted([p], s) == At(p.samples, s) * p.gain
  {}

  /** Which slot a stream has makes no difference. */
  lemma {:induction false} OrderDoesNotMatter(a: seq<Part>, b: seq<Part>, s: nat)
    requires multiset(a) == multiset(b)
    ensures Weighted(a, s) == Weighted(b, s)
  {
    hide Weighted;
    if a == [] {
      NoneLeft(b);
    } else {
      var i := Find(b, a);
      RestMatches(a, b, i);
      OrderDoesNotMatter(a[..0] + a[1..], b[..i] + b[i + 1..], s);
      WeightedWithout(a, 0, s);
      WeightedWithout(b, i, s);
    }
  }

  lemma NoneLeft(b: seq<Part>)
    requires multiset([]) == multiset(b)
    ensures b == []
  {
    assert |multiset(b)| == |b|;
  }

  lemma Find(b: seq<Part>, a: seq<Part>) returns (i: nat)
    requires multiset(a) == multiset(b) && a != []
    ensures i < |b| && b[i] == a[0]
  {
    assert a[0] in multiset(a);
    i :| 0 <= i < |b| && b[i] == a[0];
  }

  lemma WithoutOne(b: seq<Part>, i: nat)
    requires i < |b|
    ensures multiset(b[..i] + b[i + 1..]) == multiset(b) - multiset{b[i]}
  {
    assert b == b[..i] + [b[i]] + b[i + 1..];
  }

  lemma RestMatches(a: seq<Part>, b: seq<Part>, i: nat)
    requires multiset(a) == multiset(b) && a != [] && i < |b| && b[i] == a[0]
    ensures multiset(a[..0] + a[1..]) == multiset(b[..i] + b[i + 1..])
  {
    WithoutOne(b, i);
    WithoutOne(a, 0);
  }

  lemma WeightedWithout(b: seq<Part>, i: nat, s: nat)
    requires i < |b|
    ensures Weighted(b, s) == At(b[i].samples, s) * b[i].gain + Weighted(b[..i] + b[i + 1..], s)
  {
    hide Weighted;
    assert b == b[..i] + [b[i]] + b[i + 1..];
    WeightedAppends(b[..i], b[i + 1..], s);
    WeightedAppends(b[..i] + [b[i]], b[i + 1..], s);
    WeightedAppends(b[..i], [b[i]], s);
    WeightedOne(b[i], s);
  }

  /** A lone stream at full volumes comes out sample for sample, with silence after it. */
  lemma LoneStreamIsItself(samples: seq<int>, s: nat)
    requires IsPart(Part(samples, Gain(100, false)))
    ensures Output(Weighted([Part(samples, Gain(100, false))], s), Gain(100, false)) == At(samples, s)
  {
    WeightedOne(Part(samples, 10000), s);
    var x := At(samples, s);
    assert x * 10000 * 10000 == x * 100_000_000;
    Exact(x);
  }

  lemma Exact(x: int)
    ensures TruncDiv(x * 100_000_000, 100_000_000) == x
  {}

  /** A muted master, or only muted or silent streams, is silence. */
  lemma {:induction false} MutedIsSilent(parts: seq<Part>, s: nat, m: int)
    requires m == 0 || forall i :: 0 <= i < |parts| ==> parts[i].gain == 0 || |parts[i].samples| <= s
    ensures Output(Weighted(parts, s), m) == 0
  {
    if m != 0 { NothingSums(parts, s); }
  }

  lemma {:induction false} NothingSums(parts: seq<Part>, s: nat)
    requires forall i :: 0 <= i < |parts| ==> parts[i].gain == 0 || |parts[i].samples| <= s
    ensures Weighted(parts, s) == 0
  {
    if parts != [] { NothingSums(parts[1..], s); }
  }

  // ---- The period ----

  ghost predicate AllPlay(streams: seq<Ring>)
    reads streams, set r <- streams :: r.ring
  {
    && (forall i :: 0 <= i < |streams| ==> streams[i].Plays())
    && (forall i, j :: 0 <= i < j < |streams| ==> streams[i] != streams[j])
  }

  /** `dst` is the period's output for `parts`. */
  ghost predicate IsMixed(dst: seq<int>, parts: seq<Part>, m: int) {
    |dst| == PERIOD * CHANNELS && forall s :: 0 <= s < |dst| ==> dst[s] == Output(Weighted(parts, s), m)
  }

  method Mix(streams: seq<Ring>, gains: seq<nat>, m: nat, dst: array<int>) returns (ghost parts: seq<Part>)
    requires AllPlay(streams) && |gains| == |streams| && dst.Length == PERIOD * CHANNELS
    modifies streams, dst
    ensures AllPlay(streams) && |parts| == |streams|
    ensures forall i :: 0 <= i < |parts| ==> parts[i] == Part(old(streams[i].Next()), gains[i])
    ensures forall i :: 0 <= i < |streams| ==>
              && streams[i].fed == old(streams[i].fed)
              && streams[i].heard == old(streams[i].heard) + parts[i].samples
    ensures IsMixed(dst[..], parts, m)
  {
    hide Ring.Plays, Ring.Next, Output;
    var acc := new int[PERIOD * CHANNELS](_ => 0);
    parts := Sum(streams, gains, acc);
    Finish(acc, m, dst);
  }

  method Finish(acc: array<int>, m: nat, dst: array<int>)
    requires acc.Length == dst.Length && acc != dst
    modifies dst
    ensures forall s :: 0 <= s < dst.Length ==> dst[s] == Output(acc[s], m)
  {
    hide Output;
    var s := 0;
    while s < dst.Length
      invariant s <= dst.Length && forall t :: 0 <= t < s ==> dst[t] == Output(acc[t], m)
    {
      dst[s] := Output(acc[s], m);
      s := s + 1;
    }
  }

  lemma WeightedNone()
    ensures forall s: nat :: Weighted([], s) == 0
  {}

  method Sum(streams: seq<Ring>, gains: seq<nat>, acc: array<int>) returns (ghost parts: seq<Part>)
    requires AllPlay(streams) && |gains| == |streams| && acc.Length == PERIOD * CHANNELS
    requires forall s :: 0 <= s < acc.Length ==> acc[s] == 0
    modifies streams, acc
    ensures AllPlay(streams) && |parts| == |streams|
    ensures forall i :: 0 <= i < |parts| ==> parts[i] == Part(old(streams[i].Next()), gains[i])
    ensures forall i :: 0 <= i < |streams| ==>
              && streams[i].fed == old(streams[i].fed)
              && streams[i].heard == old(streams[i].heard) + parts[i].samples
    ensures forall s :: 0 <= s < acc.Length ==> acc[s] == Weighted(parts, s)
  {
    hide Ring.Plays, Ring.Next, Weighted, At;
    assert forall s: nat :: Weighted([], s) == 0 by { WeightedNone(); }
    parts := [];
    var i := 0;
    while i < |streams|
      invariant i == |parts| <= |streams| && AllPlay(streams)
      invariant forall j :: 0 <= j < i ==> parts[j] == Part(old(streams[j].Next()), gains[j])
      invariant forall j :: 0 <= j < i ==>
                  && streams[j].fed == old(streams[j].fed)
                  && streams[j].heard == old(streams[j].heard) + parts[j].samples
      invariant forall j :: i <= j < |streams| ==>
                  && streams[j].fed == old(streams[j].fed) && streams[j].heard == old(streams[j].heard)
                  && streams[j].Next() == old(streams[j].Next())
      invariant forall s :: 0 <= s < acc.Length ==> acc[s] == Weighted(parts, s)
    {
      ghost var p := Part(streams[i].Next(), gains[i]);
      ghost var was := parts;
      streams[i].AddTo(acc, gains[i]);
      forall s | 0 <= s < acc.Length ensures acc[s] == Weighted(was + [p], s) {
        WeightedAppends(was, [p], s);
        WeightedOne(p, s);
      }
      parts := parts + [p];
      i := i + 1;
    }
  }
}
