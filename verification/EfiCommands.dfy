/** The boot entry commands as they run on the firmware's variables, where any write or delete may
    fail. */
module EfiCommands {
  import opened Bytes
  import opened Wrappers
  import opened EfiOption
  import opened EfiBoot

  datatype Var = BootEntry(n: u16) | BootOrder | BootNext

  /** Where a command leaves the variables, and whether it reports success. */
  datatype Outcome = Outcome(state: Firmware, ok: bool)

  // ---- The commands, with the variables that cannot be changed ----

  function EnsureF(s: Firmware, slot: Slot, part: Part, dir: seq<u16>, bad: set<Var>): Outcome
    requires |part.uuid| == 16
  {
    if !Readable(s) || SlotNumber(s, slot, dir).None? then Outcome(s, false)
    else
      var n, b := SlotNumber(s, slot, dir).value, SlotOption(slot, part);
      var t := s.(boot := s.boot[n := b]);
      if (n !in s.boot || s.boot[n] != b) && BootEntry(n) in bad then Outcome(s, false)
      else if n in Numbers(OrderOf(s)) then Outcome(t, true)
      else if BootOrder in bad then Outcome(t, false)
      else Outcome(t.(order := Some(OrderOf(s) + Le16(n))), true)
  }

  function SetNextF(s: Firmware, slot: Slot, part: Part, dir: seq<u16>, bad: set<Var>): Outcome
    requires |part.uuid| == 16
  {
    var e := EnsureF(s, slot, part, dir, bad);
    if !e.ok then e
    else if BootNext in bad then Outcome(e.state, false)
    else Outcome(e.state.(next := Some(Le16(SlotNumber(s, slot, dir).value))), true)
  }

  function Stuck(out: seq<u16>, bad: set<Var>): set<u16> {
    set n | n in out && BootEntry(n) in bad
  }

  function ForgetF(s: Firmware, dir: seq<u16>, bad: set<Var>): Outcome {
    var out := OursAmong(BootVars(dir, s.boot), s.boot);
    var order, next := OrderWithout(s.order, out), NextWithout(s.next, s.boot, out);
    if !Readable(s) || (order != s.order && BootOrder in bad) then Outcome(s, false)
    else
      var fails := next != s.next && BootNext in bad;
      Outcome(Firmware(s.boot - (Elements(out) - Stuck(out, bad)), order, if fails then s.next else next),
              !fails && Stuck(out, bad) == {})
  }

  // ---- What a failure leaves ----

  /** Success is the command done whole, and it comes exactly when no write it needs fails; a failure
      leaves everything, or the entry alone written. */
  lemma EnsureIsWholeOrNot(s: Firmware, slot: Slot, part: Part, dir: seq<u16>, bad: set<Var>)
    requires |part.uuid| == 16
    ensures var e := EnsureF(s, slot, part, dir, bad); var r := Ensure(s, slot, part, dir);
            && (e.ok ==> r == Some(e.state))
            && (!e.ok ==> e.state == s || (r.Some? && e.state == r.value.(order := s.order)))
            && (e.ok <==>
                (&& r.Some?
                 && (r.value.boot != s.boot ==> BootEntry(SlotNumber(s, slot, dir).value) !in bad)
                 && (r.value.order != s.order ==> BootOrder !in bad)))
  {
    hide Numbers, SlotOption, SlotNumber;
    if SlotNumber(s, slot, dir).Some? {
      var n, b := SlotNumber(s, slot, dir).value, SlotOption(slot, part);
      assert s.boot[n := b] == s.boot <==> n in s.boot && s.boot[n] == b by {
        assert n in s.boot[n := b] && s.boot[n := b][n] == b;
      }
      assert Some(OrderOf(s) + Le16(n)) != s.order by { assert |OrderOf(s) + Le16(n)| == |OrderOf(s)| + 2; }
    }
  }

  /** `set-next` done whole, or BootNext as it was. */
  lemma SetNextIsWholeOrNot(s: Firmware, slot: Slot, part: Part, dir: seq<u16>, bad: set<Var>)
    requires |part.uuid| == 16
    ensures var e := SetNextF(s, slot, part, dir, bad); var r := SetNext(s, slot, part, dir);
            && (e.ok <==> EnsureF(s, slot, part, dir, bad).ok && BootNext !in bad)
            && (e.ok ==> r == Some(e.state))
            && (!e.ok ==> e.state.next == s.next)
  {
    hide EnsureF, SlotNumber;
    EnsureIsWholeOrNot(s, slot, part, dir, bad);
  }

  /** Whatever failed, `ensure` again does the rest: the variables are then as if nothing had. */
  lemma EnsureRetried(s: Firmware, slot: Slot, part: Part, dir: seq<u16>, bad: set<Var>)
    requires |part.uuid| == 16 && |OrderOf(s)| % 2 == 0 && Ensure(s, slot, part, dir).Some?
    requires Scanned(dir, Ensure(s, slot, part, dir).value.boot) && !EnsureF(s, slot, part, dir, bad).ok
    ensures Ensure(EnsureF(s, slot, part, dir, bad).state, slot, part, dir) == Ensure(s, slot, part, dir)
  {
    hide IsSlots, Numbers, SlotOption, SlotNumber;
    EnsureIsWholeOrNot(s, slot, part, dir, bad);
    var t, e := Ensure(s, slot, part, dir).value, EnsureF(s, slot, part, dir, bad).state;
    if e != s {
      var n := SlotNumber(s, slot, dir).value;
      EnsureTouchesOnlyItsEntry(s, slot, part, dir);
      SlotFoundAgain(s, e, slot, dir, n);
      assert e.boot[n := SlotOption(slot, part)] == e.boot;
    }
  }

  /** Success is the command done whole. A failure leaves everything, or the order done and of the rest
      what could be. */
  lemma ForgetIsWholeOrNot(s: Firmware, dir: seq<u16>, bad: set<Var>)
    ensures var e := ForgetF(s, dir, bad); var r := Forget(s, dir);
            && (e.ok ==> r == Some(e.state))
            && (bad == {} ==> e.ok == r.Some?)
            && (e.state == s
                || (r.Some? && e.state.order == r.value.order && e.state.next in {s.next, r.value.next}
                    && r.value.boot.Keys <= e.state.boot.Keys <= s.boot.Keys
                    && forall n | n in e.state.boot :: e.state.boot[n] == s.boot[n]))
  {
    hide IsOurs, OrderWithout, NextWithout, BootVars;
    var out := OursAmong(BootVars(dir, s.boot), s.boot);
    assert Stuck(out, bad) == {} ==> Elements(out) - Stuck(out, bad) == Elements(out);
    assert bad == {} ==> Stuck(out, bad) == {};
  }

  /** Whatever failed, `forget` again does the rest. */
  lemma ForgetRetried(s: Firmware, dir: seq<u16>, bad: set<Var>)
    requires |OrderOf(s)| % 2 == 0 && Scanned(dir, s.boot)
    ensures Forget(ForgetF(s, dir, bad).state, dir) == Forget(s, dir)
  {
    hide IsOurs, Numbers, OrderBytes, OrderWithout, BootVars, Scanned, NextWithout;
    var t := ForgetF(s, dir, bad).state;
    if t != s {
      var out := OursAmong(BootVars(dir, s.boot), s.boot);
      var out2 := OursAmong(BootVars(dir, t.boot), t.boot);
      OursSeen(dir, s.boot);
      ScannedAfter(dir, s.boot, t.boot);
      OursSeen(dir, t.boot);
      OrderTwice(s.order, out, out2);
      NextTwice(s, t, out, out2, bad);
      assert t.boot - Elements(out2) == s.boot - Elements(out);
    }
  }

  lemma ScannedAfter(dir: seq<u16>, large: map<u16, seq<u8>>, small: map<u16, seq<u8>>)
    requires Scanned(dir, large) && small.Keys <= large.Keys
    ensures Scanned(dir, small)
  {
    ListedGrows(dir, small, large);
    assert forall n | n in small :: n in large.Keys;
  }

  lemma {:induction false} WithoutNothing(ns: seq<u16>, out: seq<u16>)
    requires forall n | n in ns :: n !in out
    ensures Without(ns, out) == ns
  {
    if ns != [] {
      WithoutNothing(ns[1..], out);
      assert [ns[0]] + ns[1..] == ns;
    }
  }

  lemma OrderTwice(order: Option<seq<u8>>, out: seq<u16>, out2: seq<u16>)
    requires (order.Some? ==> |order.value| % 2 == 0) && forall n | n in out2 :: n in out
    ensures OrderWithout(OrderWithout(order, out), out2) == OrderWithout(order, out)
    ensures OrderWithout(order, out).Some? ==> order.Some? && |OrderWithout(order, out).value| <= |order.value|
  {
    hide Numbers, OrderBytes, Without, OrderWithout;
    var r := OrderWithout(order, out);
    var was := if order.Some? then order.value else [];
    var kept := Without(Numbers(was), out);
    OrderWithoutIs(order, out);
    EvenOrder(order, out);
    OrderWithoutIs(r, out2);
    WithoutNothing(kept, out2);
    NoNumbers();
    OrderShrinks(order, out);
  }

  lemma OrderShrinks(order: Option<seq<u8>>, out: seq<u16>)
    requires order.Some? ==> |order.value| % 2 == 0
    ensures OrderWithout(order, out).Some? ==> order.Some? && |OrderWithout(order, out).value| <= |order.value|
  {
    hide Numbers, OrderBytes, Without;
    var was := if order.Some? then order.value else [];
    EvenNumbers(was);
    NoneDropped(Numbers(was), out);
    NoNumbers();
    NoBytes();
    assert was == [] ==> Without([], out) == [];
  }

  lemma NoBytes()
    ensures OrderBytes([]) == []
  {}

  lemma NextTwice(s: Firmware, t: Firmware, out: seq<u16>, out2: seq<u16>, bad: set<Var>)
    requires t.next == s.next || t.next == NextWithout(s.next, s.boot, out)
    requires t.boot == s.boot - (Elements(out) - Stuck(out, bad))
    requires (forall n :: n in out <==> OursAt(s.boot, n)) && (forall n :: n in out2 <==> OursAt(t.boot, n))
    ensures NextWithout(t.next, t.boot, out2) == NextWithout(s.next, s.boot, out)
  {
    hide IsOurs, U16;
  }

  lemma EvenOrder(order: Option<seq<u8>>, out: seq<u16>)
    requires order.Some? ==> |order.value| % 2 == 0
    ensures OrderWithout(order, out).Some? ==> |OrderWithout(order, out).value| % 2 == 0
  {}

  // ---- Whole runs of commands ----

  datatype Command =
    | DoEnsure(slot: Slot, part: Part, dir: seq<u16>)
    | DoSetNext(slot: Slot, part: Part, dir: seq<u16>)
    | DoForget(dir: seq<u16>)
    | DoClearNext

  predicate Proper(c: Command) {
    (c.DoEnsure? || c.DoSetNext?) ==> |c.part.uuid| == 16
  }

  function Do(s: Firmware, c: Command, bad: set<Var>): Firmware
    requires Proper(c)
  {
    match c
    case DoEnsure(slot, part, dir) => EnsureF(s, slot, part, dir, bad).state
    case DoSetNext(slot, part, dir) => SetNextF(s, slot, part, dir, bad).state
    case DoForget(dir) => ForgetF(s, dir, bad).state
    case DoClearNext => if BootNext in bad then s else s.(next := None)
  }

  /** A command, and the variables that cannot be changed while it runs. */
  datatype Try = Try(command: Command, bad: set<Var>)

  function DoAll(s: Firmware, cs: seq<Try>): Firmware
    requires forall i | 0 <= i < |cs| :: Proper(cs[i].command)
    decreases |cs|
  {
    if cs == [] then s else DoAll(Do(s, cs[0].command, cs[0].bad), cs[1..])
  }

  /** The other systems' entries. */
  function Others(boot: map<u16, seq<u8>>): map<u16, seq<u8>> {
    map n | n in boot && !IsOurs(boot[n]) :: boot[n]
  }

  function Among(ns: seq<u16>, keep: set<u16>): seq<u16> {
    if ns == [] then [] else (if ns[0] in keep then [ns[0]] else []) + Among(ns[1..], keep)
  }

  lemma AmongStep(ns: seq<u16>, keep: set<u16>)
    ensures Among(ns, keep) == if ns == [] then [] else (if ns[0] in keep then [ns[0]] else []) + Among(ns[1..], keep)
  {}

  lemma {:induction false} AmongJoin(a: seq<u16>, n: u16, keep: set<u16>)
    ensures Among(a + [n], keep) == Among(a, keep) + (if n in keep then [n] else [])
  {
    hide Among;
    AmongStep(a + [n], keep);
    AmongStep(a, keep);
    AmongStep([], keep);
    if a == [] {
      assert (a + [n])[1..] == [];
    } else {
      assert (a + [n])[1..] == a[1..] + [n];
      AmongJoin(a[1..], n, keep);
    }
  }

  lemma {:induction false} AmongWithout(ns: seq<u16>, out: seq<u16>, keep: set<u16>)
    requires forall n | n in out :: n !in keep
    ensures Among(Without(ns, out), keep) == Among(ns, keep)
  {
    if ns != [] {
      AmongWithout(ns[1..], out, keep);
      var rest := Without(ns[1..], out);
      if ns[0] in out { assert [] + rest == rest; } else { assert ([ns[0]] + rest)[1..] == rest; }
    }
  }

  /** Nothing of the others' has changed from s to t: their entries, and their places among each
      other in the order. */
  ghost predicate OthersKept(s: Firmware, t: Firmware) {
    && Others(t.boot) == Others(s.boot)
    && Among(Numbers(OrderOf(t)), Others(s.boot).Keys) == Among(Numbers(OrderOf(s)), Others(s.boot).Keys)
    && |OrderOf(t)| % 2 == 0
  }

  lemma EnsureKeepsOthers(s: Firmware, slot: Slot, part: Part, dir: seq<u16>, bad: set<Var>)
    requires |part.uuid| == 16 && |OrderOf(s)| % 2 == 0
    ensures OthersKept(s, EnsureF(s, slot, part, dir, bad).state)
  {
    hide IsSlots, Numbers, SlotOption, Among, SlotNumber;
    var e := EnsureF(s, slot, part, dir, bad);
    EnsureIsWholeOrNot(s, slot, part, dir, bad);
    if e.state != s {
      var t, n := Ensure(s, slot, part, dir).value, SlotNumber(s, slot, dir).value;
      EnsureTouchesOnlyItsEntry(s, slot, part, dir);
      AmongJoin(Numbers(OrderOf(s)), n, Others(s.boot).Keys);
      assert Others(t.boot) == Others(s.boot);
    }
  }

  lemma ForgetKeepsOthers(s: Firmware, dir: seq<u16>, bad: set<Var>)
    requires |OrderOf(s)| % 2 == 0
    ensures OthersKept(s, ForgetF(s, dir, bad).state)
  {
    hide IsOurs, Numbers, OrderBytes, OrderWithout, Among, BootVars, NextWithout;
    var t, out := ForgetF(s, dir, bad).state, OursAmong(BootVars(dir, s.boot), s.boot);
    AmongWithout(Numbers(OrderOf(s)), out, Others(s.boot).Keys);
    OrderWithoutIs(s.order, out);
    NoNumbers();
    EvenOrder(s.order, out);
    assert Others(t.boot) == Others(s.boot);
  }

  /** Over every run of commands, with the directory scanned in any order each time and any of their
      writes failing, every other system's entry and its place among the others stay as they were. */
  lemma {:induction false} RunsKeepOthers(s: Firmware, cs: seq<Try>)
    requires |OrderOf(s)| % 2 == 0 && forall i | 0 <= i < |cs| :: Proper(cs[i].command)
    ensures OthersKept(s, DoAll(s, cs))
    decreases |cs|
  {
    hide Numbers, Others, Among, Do;
    if cs != [] {
      assert Proper(cs[0].command);
      OneKeepsOthers(s, cs[0].command, cs[0].bad);
      RunsKeepOthers(Do(s, cs[0].command, cs[0].bad), cs[1..]);
    }
  }

  lemma OneKeepsOthers(s: Firmware, c: Command, bad: set<Var>)
    requires |OrderOf(s)| % 2 == 0 && Proper(c)
    ensures OthersKept(s, Do(s, c, bad))
  {
    hide Numbers, Others, Among, EnsureF, ForgetF;
    match c
    case DoEnsure(slot, part, dir) => EnsureKeepsOthers(s, slot, part, dir, bad);
    case DoSetNext(slot, part, dir) => EnsureKeepsOthers(s, slot, part, dir, bad);
    case DoForget(dir) => ForgetKeepsOthers(s, dir, bad);
    case DoClearNext =>
  }

  // ---- The commands as they run ----

  lemma OursFrom(names: seq<u16>, i: nat, boot: map<u16, seq<u8>>, mine: seq<u16>)
    requires i < |names| && forall n | n in names :: n in boot
    ensures mine + OursAmong(names[i..], boot) ==
            (if IsOurs(boot[names[i]]) then mine + [names[i]] else mine) + OursAmong(names[i + 1..], boot)
  {
    hide IsOurs;
    assert names[i..][0] == names[i] && names[i..][1..] == names[i + 1..];
  }

  lemma OursFromEnd(boot: map<u16, seq<u8>>)
    ensures OursAmong([], boot) == []
  {}

  class Efivars {
    var boot: map<u16, seq<u8>>
    var order: Option<seq<u8>>
    var next: Option<seq<u8>>

    function State(): Firmware
      reads this
    {
      Firmware(boot, order, next)
    }

    method ScanBootVars(dir: seq<u16>) returns (names: seq<u16>)
      ensures names == BootVars(dir, boot)
    {
      hide Listed;
      names := [];
      var i := 0;
      assert dir[0..] == dir;
      while i < |dir| && |names| < 256
        invariant 0 <= i <= |dir| && |names| <= 256
        invariant names + Listed(dir[i..], boot) == Listed(dir, boot)
      {
        ListedFrom(dir, i, boot, names);
        if dir[i] in boot {
          names := names + [dir[i]];
        }
        i := i + 1;
      }
      ListedNone(boot);
      assert i == |dir| ==> dir[i..] == [];
    }

    method FirstSlot(names: seq<u16>, slot: Slot) returns (r: Option<u16>)
      requires forall n | n in names :: n in boot
      ensures r == FirstOf(names, boot, slot)
    {
      hide IsSlots;
      assert names[0..] == names;
      for i := 0 to |names|
        invariant FirstOf(names[i..], boot, slot) == FirstOf(names, boot, slot)
      {
        assert names[i..][0] == names[i] && names[i..][1..] == names[i + 1..];
        if IsSlots(boot[names[i]], slot) {
          return Some(names[i]);
        }
      }
      r := None;
    }

    method FreeNumber(own: u16, ordered: seq<u16>) returns (r: Option<u16>)
      ensures r == FreeFrom(own, 0, boot, ordered)
    {
      for k := 0 to 65536
        invariant FreeFrom(own, k, boot, ordered) == FreeFrom(own, 0, boot, ordered)
      {
        var n: u16 := (own as int + k) % 65536;
        if n !in boot && (k == 0 || n !in ordered) {
          return Some(n);
        }
      }
      r := None;
    }

    method SlotVar(slot: Slot, dir: seq<u16>, ordered: seq<u8>) returns (r: Option<u16>)
      requires ordered == OrderOf(State())
      ensures r == SlotNumber(State(), slot, dir)
    {
      hide IsSlots, Numbers, FirstOf, FreeFrom;
      var own := OwnNumber(slot);
      if own in boot && IsSlots(boot[own], slot) {
        return Some(own);
      }
      var names := ScanBootVars(dir);
      r := FirstSlot(names, slot);
      if r.None? {
        r := FreeNumber(own, Numbers(ordered));
      }
    }

    method EnsureEntry(slot: Slot, part: Part, dir: seq<u16>, bad: set<Var>) returns (r: Option<u16>)
      requires |part.uuid| == 16
      modifies this
      ensures var e := EnsureF(old(State()), slot, part, dir, bad);
              State() == e.state && r == if e.ok then SlotNumber(old(State()), slot, dir) else None
    {
      hide IsSlots, Numbers, LoadOption, Listed, SlotNumber;
      var list := if order.Some? then order.value else [];
      if |list| + 4 >= 262144 {
        return None;
      }
      r := SlotVar(slot, dir, list);
      if r.None? {
        return;
      }
      SlotTextFits(slot);
      var buf := new u8[1024](_ => 0);
      var n := BuildLoadOption(buf, part, SlotDesc(slot), SlotFile(slot));
      if r.value !in boot || boot[r.value] != buf[..n] {
        if BootEntry(r.value) in bad {
          return None;
        }
        boot := boot[r.value := buf[..n]];
      }
      if r.value !in Numbers(list) {
        if BootOrder in bad {
          return None;
        }
        order := Some(list + Le16(r.value));
      }
    }

    method SetNextEntry(slot: Slot, part: Part, dir: seq<u16>, bad: set<Var>) returns (ok: bool)
      requires |part.uuid| == 16
      modifies this
      ensures Outcome(State(), ok) == SetNextF(old(State()), slot, part, dir, bad)
    {
      hide Ensure, SlotNumber, SlotOption;
      var r := EnsureEntry(slot, part, dir, bad);
      if r.None? || BootNext in bad {
        return false;
      }
      next := Some(Le16(r.value));
      ok := true;
    }

    method CollectOurs(names: seq<u16>) returns (mine: seq<u16>)
      requires forall n | n in names :: n in boot
      ensures mine == OursAmong(names, boot)
    {
      hide IsOurs, OursAmong;
      mine := [];
      assert names[0..] == names;
      for i := 0 to |names|
        invariant mine + OursAmong(names[i..], boot) == OursAmong(names, boot)
      {
        OursFrom(names, i, boot, mine);
        if IsOurs(boot[names[i]]) {
          mine := mine + [names[i]];
        }
      }
      OursFromEnd(boot);
    }

    /** Each is tried even if the one before failed. */
    method DeleteAll(mine: seq<u16>, bad: set<Var>) returns (ok: bool)
      modifies this`boot
      ensures boot == old(boot) - (Elements(mine) - Stuck(mine, bad)) && ok == (Stuck(mine, bad) == {})
    {
      hide Stuck;
      ok := true;
      StuckSoFar(mine, 0, bad);
      for i := 0 to |mine|
        invariant boot == old(boot) - (Elements(mine[..i]) - Stuck(mine[..i], bad))
        invariant ok == (Stuck(mine[..i], bad) == {})
      {
        StuckSoFar(mine, i, bad);
        StuckSoFar(mine, i + 1, bad);
        assert Elements(mine[..i + 1]) == Elements(mine[..i]) + {mine[i]};
        if BootEntry(mine[i]) in bad {
          ok := false;
        } else {
          boot := boot - {mine[i]};
        }
      }
      assert mine[..|mine|] == mine;
    }

    method ForgetEntries(dir: seq<u16>, bad: set<Var>) returns (ok: bool)
      modifies this
      ensures Outcome(State(), ok) == ForgetF(old(State()), dir, bad)
    {
      hide IsOurs, Numbers, BootVars, Elements, OursAmong, Without, OrderBytes, Stuck;
      var names := ScanBootVars(dir);
      var mine := CollectOurs(names);
      var list := if order.Some? then order.value else [];
      if |list| + 4 >= 262144 {
        return false;
      }
      var kept := OrderBytes(Without(Numbers(list), mine));
      if |kept| != |list| {
        if BootOrder in bad {
          return false;
        }
        order := if kept == [] then None else Some(kept);
      }
      var fails := false;
      if next.Some? && |next.value| >= 2 && (U16(next.value, 0) in mine || U16(next.value, 0) !in boot) {
        if BootNext in bad {
          fails := true;
        } else {
          next := None;
        }
      }
      ok := DeleteAll(mine, bad);
      ok := ok && !fails;
    }
  }

  /** The stuck among the first `i + 1`. */
  lemma StuckSoFar(mine: seq<u16>, i: nat, bad: set<Var>)
    requires i <= |mine|
    ensures Stuck(mine[..0], bad) == {} && Stuck(mine[..i], bad) <= Elements(mine[..i])
    ensures i < |mine| ==>
            Stuck(mine[..i + 1], bad) == Stuck(mine[..i], bad) + if BootEntry(mine[i]) in bad then {mine[i]} else {}
    ensures forall n :: n in Stuck(mine[..i], bad) <==> n in Elements(mine[..i]) && BootEntry(n) in bad
  {
    if i < |mine| { assert mine[..i + 1] == mine[..i] + [mine[i]]; }
  }

  lemma ListedFrom(dir: seq<u16>, i: nat, boot: map<u16, seq<u8>>, names: seq<u16>)
    requires i < |dir|
    ensures names + Listed(dir[i..], boot) ==
            (if dir[i] in boot then names + [dir[i]] else names) + Listed(dir[i + 1..], boot)
  {
    assert dir[i..][0] == dir[i] && dir[i..][1..] == dir[i + 1..];
  }

  lemma ListedNone(boot: map<u16, seq<u8>>)
    ensures Listed([], boot) == []
  {}
}
