/** The mixer's connection table: reserved slots, a zone's share, and the one-holder microphone. */
module SoundTable {
  import opened Wrappers

  const MAX_CONNS := 64
  const PER_ZONE := 8
  const CONTROL_SLOTS := 8

  datatype Slot = Free | Hello(zone: nat) | Play(zone: nat) | Record(zone: nat) | Control

  /** The slots, and the zone that may record. */
  datatype State = State(conns: seq<Slot>, granted: Option<nat>)

  predicate IsStream(c: Slot) {
    !c.Free? && !c.Control?
  }

  datatype Kind = OfZone(zone: nat) | Streams | Controls | Unused

  predicate Is(c: Slot, k: Kind) {
    match k
    case OfZone(z) => IsStream(c) && c.zone == z
    case Streams => IsStream(c)
    case Controls => c.Control?
    case Unused => c.Free?
  }

  function Count(s: seq<Slot>, k: Kind): (n: nat)
    ensures n <= |s|
  {
    if s == [] then 0 else (if Is(s[0], k) then 1 else 0) + Count(s[1..], k)
  }

  lemma {:induction false} CountUpdate(s: seq<Slot>, i: nat, c: Slot, k: Kind)
    requires i < |s|
    ensures Count(s[i := c], k) == Count(s, k) - (if Is(s[i], k) then 1 else 0) + (if Is(c, k) then 1 else 0)
  {
    hide Is;
    if i == 0 {
      assert s[0 := c][1..] == s[1..];
    } else {
      assert s[i := c][1..] == s[1..][i - 1 := c];
      CountUpdate(s[1..], i - 1, c, k);
    }
  }

  lemma {:induction false} EverySlotIsOne(s: seq<Slot>)
    ensures Count(s, Streams) + Count(s, Controls) + Count(s, Unused) == |s|
  {
    if s != [] { EverySlotIsOne(s[1..]); }
  }

  lemma {:induction false} NoneFree(s: seq<Slot>)
    requires Free !in s
    ensures Count(s, Unused) == 0
  {
    if s != [] { NoneFree(s[1..]); }
  }

  function FirstFree(s: seq<Slot>): (i: nat)
    ensures i <= |s| && (i < |s| ==> s[i].Free?) && forall j :: 0 <= j < i ==> !s[j].Free?
  {
    if s == [] || s[0].Free? then 0 else 1 + FirstFree(s[1..])
  }

  predicate Recording(s: seq<Slot>) {
    exists i :: 0 <= i < |s| && s[i].Record?
  }

  /** Recordings ended, but those of the zone kept. */
  function Hushed(s: seq<Slot>, keep: Option<nat>): (r: seq<Slot>)
    ensures |r| == |s|
    ensures forall i :: 0 <= i < |s| ==> r[i] == if s[i].Record? && keep != Some(s[i].zone) then Free else s[i]
  {
    if s == [] then []
    else [if s[0].Record? && keep != Some(s[0].zone) then Free else s[0]] + Hushed(s[1..], keep)
  }

  datatype Event =
    | Connect(zone: nat, isZone: bool)        // on a zone's socket; whether the peer is that zone
    | ConnectControl
    | Says(i: nat, line: string, memory: bool) // a HELLO's line; whether its ring can be had
    | Grant(i: nat, zone: nat)                // a control line naming a zone with sound
    | Revoke(i: nat, whose: Option<nat>)
    | Other(i: nat)                           // any other control line
    | Ends(i: nat)                            // end of file, an error, a timeout, a stream's end

  function Placed(s: seq<Slot>, c: Slot): seq<Slot> {
    if FirstFree(s) == |s| then s else s[FirstFree(s) := c]
  }

  predicate Refused(st: State, zone: nat, line: string, memory: bool) {
    || (line == "record" && (st.granted != Some(zone) || Recording(st.conns)))
    || (line != "play" && line != "record")
    || !memory
  }

  function After(st: State, e: Event): State {
    match e
    case Connect(z, isZone) =>
      if !isZone || Count(st.conns, OfZone(z)) >= PER_ZONE
         || Count(st.conns, Streams) >= MAX_CONNS - CONTROL_SLOTS then st
      else st.(conns := Placed(st.conns, Hello(z)))
    case ConnectControl => st.(conns := Placed(st.conns, Control))
    case Says(i, line, memory) =>
      if i < |st.conns| && st.conns[i].Hello? then
        var z := st.conns[i].zone;
        st.(conns := st.conns[i := if Refused(st, z, line, memory) then Free
                                   else if line == "play" then Play(z) else Record(z)])
      else st
    case Grant(i, z) =>
      if i < |st.conns| && st.conns[i].Control? then State(Hushed(st.conns, Some(z))[i := Free], Some(z)) else st
    case Revoke(i, z) =>
      if i < |st.conns| && st.conns[i].Control? then
        if st.granted.Some? && (z.None? || z == st.granted) then State(Hushed(st.conns, None)[i := Free], None)
        else st.(conns := st.conns[i := Free])
      else st
    case Other(i) =>
      if i < |st.conns| && st.conns[i].Control? then st.(conns := st.conns[i := Free]) else st
    case Ends(i) => if i < |st.conns| then st.(conns := st.conns[i := Free]) else st
  }

  // ---- Safety ----

  /** At most one recording, the granted zone's. */
  ghost predicate OneRecording(st: State) {
    && (forall i :: 0 <= i < |st.conns| && st.conns[i].Record? ==> st.granted == Some(st.conns[i].zone))
    && (forall i, j :: 0 <= i < j < |st.conns| && st.conns[i].Record? ==> !st.conns[j].Record?)
  }

  ghost predicate Shares(s: seq<Slot>) {
    && |s| == MAX_CONNS && Count(s, Streams) <= MAX_CONNS - CONTROL_SLOTS
    && forall z: nat :: Count(s, OfZone(z)) <= PER_ZONE
  }

  ghost predicate Safe(st: State) {
    OneRecording(st) && Shares(st.conns)
  }

  /** A slot freed, or a stream in it that stays its zone's, keeps the shares. */
  lemma SharesKept(s: seq<Slot>, i: nat, c: Slot)
    requires Shares(s) && i < |s| && (IsStream(c) ==> IsStream(s[i]) && c.zone == s[i].zone)
    ensures Shares(s[i := c])
  {
    hide Count;
    CountUpdate(s, i, c, Streams);
    forall z: nat ensures Count(s[i := c], OfZone(z)) <= PER_ZONE {
      CountUpdate(s, i, c, OfZone(z));
    }
  }

  lemma SharesGrow(s: seq<Slot>, z: nat)
    requires Shares(s) && Count(s, OfZone(z)) < PER_ZONE && Count(s, Streams) < MAX_CONNS - CONTROL_SLOTS
    ensures Shares(Placed(s, Hello(z)))
  {
    hide Count;
    var i := FirstFree(s);
    if i < |s| {
      CountUpdate(s, i, Hello(z), Streams);
      forall y: nat ensures Count(s[i := Hello(z)], OfZone(y)) <= PER_ZONE {
        CountUpdate(s, i, Hello(z), OfZone(y));
      }
    }
  }

  lemma {:induction false} HushedCount(s: seq<Slot>, keep: Option<nat>, k: Kind)
    requires k.OfZone? || k.Streams?
    ensures Count(Hushed(s, keep), k) <= Count(s, k)
  {
    if s != [] {
      HushedCount(s[1..], keep, k);
      assert Hushed(s, keep)[1..] == Hushed(s[1..], keep);
    }
  }

  lemma SharesHushed(s: seq<Slot>, keep: Option<nat>)
    requires Shares(s)
    ensures Shares(Hushed(s, keep))
  {
    hide Count;
    HushedCount(s, keep, Streams);
    forall z: nat ensures Count(Hushed(s, keep), OfZone(z)) <= PER_ZONE {
      HushedCount(s, keep, OfZone(z));
    }
  }

  lemma StepKeepsShares(st: State, e: Event)
    requires Shares(st.conns)
    ensures Shares(After(st, e).conns)
  {
    hide Shares, Count, Refused;
    assert |st.conns| == MAX_CONNS by { SharesAreSized(st.conns); }
    var s := st.conns;
    match e {
      case Connect(z, _) =>
        if Count(s, OfZone(z)) < PER_ZONE && Count(s, Streams) < MAX_CONNS - CONTROL_SLOTS { SharesGrow(s, z); }
      case ConnectControl =>
        if FirstFree(s) < |s| { SharesKept(s, FirstFree(s), Control); }
      case Says(i, line, memory) =>
        if i < |s| && s[i].Hello? { SharesKept(s, i, After(st, e).conns[i]); }
      case Grant(i, z) =>
        SharesHushed(s, Some(z));
        if i < |s| { SharesKept(Hushed(s, Some(z)), i, Free); }
      case Revoke(i, z) =>
        SharesHushed(s, None);
        if i < |s| { SharesKept(Hushed(s, None), i, Free); SharesKept(s, i, Free); }
      case Other(i) => if i < |s| { SharesKept(s, i, Free); }
      case Ends(i) => if i < |s| { SharesKept(s, i, Free); }
    }
  }

  lemma SharesAreSized(s: seq<Slot>)
    requires Shares(s)
    ensures |s| == MAX_CONNS
  {}

  lemma OneKept(st: State, i: nat, c: Slot)
    requires OneRecording(st) && i < |st.conns|
    requires c.Record? ==> st.granted == Some(c.zone) && !Recording(st.conns)
    ensures OneRecording(st.(conns := st.conns[i := c]))
  {}

  lemma OneHushed(st: State, to: Option<nat>)
    requires OneRecording(st)
    ensures OneRecording(State(Hushed(st.conns, to), to))
  {}

  lemma StepKeepsOneRecording(st: State, e: Event)
    requires OneRecording(st)
    ensures OneRecording(After(st, e))
  {
    hide OneRecording, Count, FirstFree, Recording, Hushed;
    var s := st.conns;
    match e {
      case Connect(z, _) => if FirstFree(s) < |s| { OneKept(st, FirstFree(s), Hello(z)); }
      case ConnectControl => if FirstFree(s) < |s| { OneKept(st, FirstFree(s), Control); }
      case Says(i, line, memory) =>
        if i < |s| && s[i].Hello? { OneKept(st, i, After(st, e).conns[i]); }
      case Grant(i, z) =>
        OneHushed(st, Some(z));
        if i < |s| { OneKept(State(Hushed(s, Some(z)), Some(z)), i, Free); }
      case Revoke(i, z) =>
        OneHushed(st, None);
        if i < |s| { OneKept(State(Hushed(s, None), None), i, Free); OneKept(st, i, Free); }
      case Other(i) => if i < |s| { OneKept(st, i, Free); }
      case Ends(i) => if i < |s| { OneKept(st, i, Free); }
    }
  }

  function Run(st: State, events: seq<Event>): State
    decreases events
  {
    if events == [] then st else After(Run(st, events[..|events| - 1]), events[|events| - 1])
  }

  function Initial(): State {
    State(seq(MAX_CONNS, _ => Free), None)
  }

  lemma {:induction false} EmptyCounts(s: seq<Slot>, k: Kind)
    requires !k.Unused? && forall i :: 0 <= i < |s| ==> s[i].Free?
    ensures Count(s, k) == 0
  {
    if s != [] { EmptyCounts(s[1..], k); }
  }

  lemma InitialIsSafe()
    ensures Safe(Initial())
  {
    hide Count;
    var s := Initial().conns;
    EmptyCounts(s, Streams);
    forall z: nat ensures Count(s, OfZone(z)) <= PER_ZONE { EmptyCounts(s, OfZone(z)); }
  }

  lemma {:induction false} RunKeepsSafe(st: State, events: seq<Event>)
    requires Safe(st)
    ensures Safe(Run(st, events))
    decreases events
  {
    hide OneRecording, Shares, After;
    if events != [] {
      var before, e := events[..|events| - 1], events[|events| - 1];
      RunKeepsSafe(st, before);
      StepKeepsShares(Run(st, before), e);
      StepKeepsOneRecording(Run(st, before), e);
    }
  }

  /** In every reachable state: one recording at most, by the granted zone; eight streams a zone,
      fifty-six in all. */
  lemma ReachableIsSafe(events: seq<Event>)
    ensures Safe(Run(Initial(), events))
  {
    InitialIsSafe();
    RunKeepsSafe(Initial(), events);
  }

  /** Control is never shut out by streams: with fewer than eight control connections open there is
      a slot for one more. */
  lemma ControlFindsASlot(st: State)
    requires Safe(st) && Count(st.conns, Controls) < CONTROL_SLOTS
    ensures Count(After(st, ConnectControl).conns, Controls) == Count(st.conns, Controls) + 1
  {
    hide Count, OneRecording;
    var s := st.conns;
    FreeWhenRoom(s);
    CountUpdate(s, FirstFree(s), Control, Controls);
  }

  /** A zone within its share gets a stream, while control holds no more than its own slots. */
  lemma ZoneFindsASlot(st: State, z: nat)
    requires Safe(st) && Count(st.conns, Controls) <= CONTROL_SLOTS
    ensures Count(After(st, Connect(z, true)).conns, OfZone(z)) == Count(st.conns, OfZone(z)) + 1
            <==> Count(st.conns, OfZone(z)) < PER_ZONE && Count(st.conns, Streams) < MAX_CONNS - CONTROL_SLOTS
  {
    hide Count, OneRecording;
    var s := st.conns;
    if Count(s, OfZone(z)) < PER_ZONE && Count(s, Streams) < MAX_CONNS - CONTROL_SLOTS {
      FreeWhenRoom(s);
      CountUpdate(s, FirstFree(s), Hello(z), OfZone(z));
    }
  }

  lemma FreeWhenRoom(s: seq<Slot>)
    requires Count(s, Streams) + Count(s, Controls) < |s|
    ensures FirstFree(s) < |s|
  {
    hide Count;
    EverySlotIsOne(s);
    if FirstFree(s) == |s| {
      NoneFree(s);
    }
  }

  /** What a connection does never touches another's slot, but for the recordings a grant or a
      revoke ends. */
  lemma OthersAreLeftAlone(st: State, e: Event, j: nat)
    requires j < |st.conns| && !st.conns[j].Free?
    requires !(e.Says? || e.Grant? || e.Revoke? || e.Other? || e.Ends?) || e.i != j
    requires e.Grant? || e.Revoke? ==> !st.conns[j].Record?
    ensures j < |After(st, e).conns| && After(st, e).conns[j] == st.conns[j]
  {
    hide Count, Refused;
  }

  /** A slot becomes a recording only by its zone's own word, with the grant and no other recording. */
  lemma BecomesRecording(st: State, e: Event, i: nat, z: nat)
    requires i < |st.conns| && i < |After(st, e).conns|
    requires st.conns[i] != Record(z) && After(st, e).conns[i] == Record(z)
    ensures StartsRecording(st, e, i, z)
  {
    hide Count, FirstFree, Recording;
  }

  ghost predicate StartsRecording(st: State, e: Event, i: nat, z: nat) {
    && e.Says? && e.i == i && e.line == "record" && i < |st.conns| && st.conns[i] == Hello(z)
    && st.granted == Some(z) && !Recording(st.conns)
  }

  /** Since event `k` slot `i` has been the zone's recording, and the zone the holder. */
  ghost predicate RecordsSince(events: seq<Event>, k: nat, i: nat, z: nat)
    requires k < |events|
  {
    && StartsRecording(Run(Initial(), events[..k]), events[k], i, z)
    && forall j :: k < j <= |events| ==>
         var s := Run(Initial(), events[..j]); i < |s.conns| && s.conns[i] == Record(z) && s.granted == Some(z)
  }

  /** Over every run, a recording in progress was begun by its zone while it held the grant and nobody
      recorded, and from then to now it has run on and the zone has held the grant throughout. */
  lemma {:induction false} RecordingHeldTheGrant(events: seq<Event>, i: nat, z: nat) returns (k: nat)
    requires var s := Run(Initial(), events); i < |s.conns| && s.conns[i] == Record(z)
    ensures k < |events| && RecordsSince(events, k, i, z)
  {
    hide Count, After, Recording, StartsRecording, Safe, Shares;
    assert events != [];
    var n := |events| - 1;
    var before, e := events[..n], events[n];
    var s := Run(Initial(), before);
    ReachableIsSafe(before);
    ReachableIsSafe(events);
    SafeSlots(s);
    SafeSlots(Run(Initial(), events));
    assert events[..|events|] == events;
    if s.conns[i] == Record(z) {
      k := RecordingHeldTheGrant(before, i, z);
      assert events[..k] == before[..k];
      forall j | k < j <= |events|
        ensures var t := Run(Initial(), events[..j]); i < |t.conns| && t.conns[i] == Record(z) && t.granted == Some(z)
      {
        if j <= n { assert events[..j] == before[..j]; }
      }
    } else {
      k := n;
      BecomesRecording(s, e, i, z);
    }
  }

  lemma SafeSlots(s: State)
    requires Safe(s)
    ensures |s.conns| == MAX_CONNS
    ensures forall i :: 0 <= i < |s.conns| && s.conns[i].Record? ==> s.granted == Some(s.conns[i].zone)
  {}

  /** It runs on exactly until its own end, a revoke of the holder, or a grant to another zone. */
  lemma RecordingRunsUntil(st: State, j: nat, e: Event)
    requires Safe(st) && j < MAX_CONNS && st.conns[j].Record?
    requires (e.Grant? || e.Revoke?) ==> e.i < MAX_CONNS && st.conns[e.i].Control?
    ensures After(st, e).conns[j] != st.conns[j]
            <==> || e == Ends(j)
                 || (e.Grant? && e.zone != st.conns[j].zone)
                 || (e.Revoke? && (e.whose.None? || e.whose == st.granted))
  {
    hide Count, Refused, FirstFree;
  }

  // ---- The table in place ----

  class Mixer {
    const conns: array<Slot>
    var granted: Option<nat>

    ghost predicate Valid()
      reads this, conns
    {
      conns.Length == MAX_CONNS && Safe(Now())
    }

    ghost function Now(): State
      reads this, conns
    {
      State(conns[..], granted)
    }

    constructor ()
      ensures Valid() && Now() == Initial() && fresh(conns)
    {
      conns := new Slot[MAX_CONNS](_ => Free);
      granted := None;
      new;
      InitialIsSafe();
      assert conns[..] == Initial().conns;
    }

    method StreamsOf(k: Kind) returns (n: nat)
      requires k.OfZone? || k.Streams?
      ensures n == Count(conns[..], k)
    {
      n := 0;
      var i := conns.Length;
      assert conns[i..] == [];
      while i > 0
        invariant i <= conns.Length && n == Count(conns[i..], k)
      {
        i := i - 1;
        assert conns[i..][1..] == conns[i + 1..];
        if Is(conns[i], k) { n := n + 1; }
      }
      assert conns[0..] == conns[..];
    }

    method NewConn(c: Slot) returns (ok: bool)
      modifies conns
      ensures conns[..] == Placed(old(conns[..]), c) && ok == (FirstFree(old(conns[..])) < conns.Length)
    {
      hide FirstFree;
      var i := 0;
      while i < conns.Length
        invariant i <= conns.Length && conns[..] == old(conns[..]) && forall j :: 0 <= j < i ==> !conns[j].Free?
      {
        if conns[i].Free? {
          FirstFreeIs(conns[..], i);
          conns[i] := c;
          return true;
        }
        i := i + 1;
      }
      FirstFreeIs(conns[..], i);
      ok := false;
    }

    method EndRecords(keep: Option<nat>)
      modifies conns
      ensures conns[..] == Hushed(old(conns[..]), keep)
    {
      hide Hushed;
      ghost var was := conns[..];
      var i := 0;
      while i < conns.Length
        invariant i <= conns.Length
        invariant forall j :: 0 <= j < i ==> conns[j] == Hushed(was, keep)[j]
        invariant forall j :: i <= j < conns.Length ==> conns[j] == was[j]
      {
        if conns[i].Record? && keep != Some(conns[i].zone) { conns[i] := Free; }
        i := i + 1;
      }
    }

    method AcceptOn(zone: Option<nat>, isZone: bool)
      requires Valid()
      modifies conns
      ensures Valid()
      ensures Now() == After(old(Now()), if zone.None? then ConnectControl else Connect(zone.value, isZone))
    {
      hide Shares, OneRecording, Count, FirstFree;
      ghost var e := if zone.None? then ConnectControl else Connect(zone.value, isZone);
      StepKeepsShares(Now(), e);
      StepKeepsOneRecording(Now(), e);
      var c := Control;
      if zone.Some? {
        if !isZone { return; }
        var own := StreamsOf(OfZone(zone.value));
        var all := StreamsOf(Streams);
        if own >= PER_ZONE || all >= MAX_CONNS - CONTROL_SLOTS { return; }
        c := Hello(zone.value);
      }
      var taken := NewConn(c);
    }

    method HelloLine(i: nat, line: string, memory: bool)
      requires Valid() && i < MAX_CONNS && conns[i].Hello?
      modifies conns
      ensures Valid() && Now() == After(old(Now()), Says(i, line, memory))
    {
      hide Shares, OneRecording, Count, FirstFree;
      StepKeepsShares(Now(), Says(i, line, memory));
      StepKeepsOneRecording(Now(), Says(i, line, memory));
      var recording, j := false, 0;
      while j < conns.Length
        invariant j <= conns.Length && recording == exists k :: 0 <= k < j && conns[k].Record?
      {
        recording := recording || conns[j].Record?;
        j := j + 1;
      }
      assert recording == Recording(conns[..]);
      var z := conns[i].zone;
      if (line == "record" && (granted != Some(z) || recording)) || (line != "play" && line != "record") || !memory {
        conns[i] := Free;
      } else {
        conns[i] := if line == "play" then Play(z) else Record(z);
      }
    }

    method ControlLine(i: nat, e: Event)
      requires Valid() && i < MAX_CONNS && conns[i].Control?
      requires (e.Grant? || e.Revoke? || e.Other?) && e.i == i
      modifies this, conns
      ensures Valid() && Now() == After(old(Now()), e)
    {
      hide Shares, OneRecording, Count, FirstFree, Hushed;
      StepKeepsShares(Now(), e);
      StepKeepsOneRecording(Now(), e);
      match e {
        case Grant(_, z) =>
          EndRecords(Some(z));
          granted := Some(z);
        case Revoke(_, z) =>
          if granted.Some? && (z.None? || z == granted) {
            EndRecords(None);
            granted := None;
          }
        case Other(_) =>
      }
      conns[i] := Free;
    }

    method EndConn(i: nat)
      requires Valid() && i < MAX_CONNS
      modifies conns
      ensures Valid() && Now() == After(old(Now()), Ends(i))
    {
      hide Shares, OneRecording, Count;
      StepKeepsShares(Now(), Ends(i));
      StepKeepsOneRecording(Now(), Ends(i));
      conns[i] := Free;
    }
  }

  lemma {:induction false} FirstFreeIs(s: seq<Slot>, i: nat)
    requires i <= |s| && (i < |s| ==> s[i].Free?) && forall j :: 0 <= j < i ==> !s[j].Free?
    ensures FirstFree(s) == i
  {
    hide FirstFree;
  }
}
