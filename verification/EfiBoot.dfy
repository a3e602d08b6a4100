/** Kryptik's boot entries among everyone's: Boot####, BootOrder and BootNext, and what the
    commands do to them. */
module EfiBoot {
  import opened Bytes
  import opened Wrappers
  import opened EfiOption

  datatype Slot = A | B

  /** The firmware's variables; an order is the bytes of its little-endian numbers. */
  datatype Firmware = Firmware(boot: map<u16, seq<u8>>, order: Option<seq<u8>>, next: Option<seq<u8>>)

  /** "Kryptik slot a" */
  function SlotDesc(slot: Slot): seq<u8> {
    [75, 114, 121, 112, 116, 105, 107, 32, 115, 108, 111, 116, 32, if slot == A then 97 else 98]
  }

  /** "\EFI\kryptik\kryptik-a.efi" */
  function SlotFile(slot: Slot): seq<u8> {
    [92, 69, 70, 73, 92, 107, 114, 121, 112, 116, 105, 107, 92, 107, 114, 121, 112, 116, 105, 107, 45,
     if slot == A then 97 else 98, 46, 101, 102, 105]
  }

  function OwnNumber(slot: Slot): u16 {
    if slot == A then 0xA0 else 0xB0
  }

  function SlotOption(slot: Slot, part: Part): seq<u8>
    requires |part.uuid| == 16
  {
    LoadOption(part, SlotDesc(slot), SlotFile(slot))
  }

  /** An entry is a slot's by its description and its file, read from its first 2044 bytes. */
  predicate IsSlots(b: seq<u8>, slot: Slot) {
    match OptionText(b[..Min(|b|, 2044)])
    case None => false
    case Some(t) => t.desc == SlotDesc(slot) && t.file == SlotFile(slot)
  }

  predicate IsOurs(b: seq<u8>) {
    IsSlots(b, A) || IsSlots(b, B)
  }

  /** What `ensure` writes is recognised as that slot's entry, and as no other's. */
  lemma WrittenIsRecognised(slot: Slot, part: Part)
    requires |part.uuid| == 16
    ensures IsSlots(SlotOption(slot, part), slot)
    ensures forall other :: IsSlots(SlotOption(slot, part), other) ==> other == slot
  {
    hide OptionText, LoadOption, AllPrintable, SlotDesc, SlotFile;
    var b := SlotOption(slot, part);
    SlotTextFits(slot);
    OptionReadsBack(part, SlotDesc(slot), SlotFile(slot));
    assert b[..Min(|b|, 2044)] == b;
    SlotsDiffer();
  }

  lemma SlotTextFits(slot: Slot)
    ensures |SlotDesc(slot)| == 14 && |SlotFile(slot)| == 26
    ensures AllPrintable(SlotDesc(slot)) && AllPrintable(SlotFile(slot))
  {}

  lemma SlotsDiffer()
    ensures SlotDesc(A) != SlotDesc(B)
  {
    assert SlotDesc(A)[13] != SlotDesc(B)[13];
  }

  // ---- BootOrder ----

  function Numbers(list: seq<u8>): seq<u16> {
    if |list| < 2 then [] else [U16(list, 0)] + Numbers(list[2..])
  }

  function OrderBytes(ns: seq<u16>): (r: seq<u8>)
    ensures |r| == 2 * |ns|
  {
    if ns == [] then [] else Le16(ns[0]) + OrderBytes(ns[1..])
  }

  lemma {:induction false} NumbersOfBytes(ns: seq<u16>)
    ensures Numbers(OrderBytes(ns)) == ns
  {
    if ns != [] {
      NumbersOfBytes(ns[1..]);
      assert OrderBytes(ns)[2..] == OrderBytes(ns[1..]);
    }
  }

  lemma {:induction false} BytesOfNumbers(list: seq<u8>)
    requires |list| % 2 == 0
    ensures OrderBytes(Numbers(list)) == list
  {
    if |list| >= 2 {
      BytesOfNumbers(list[2..]);
      assert Le16(U16(list, 0)) == list[..2];
    }
  }

  lemma NumbersStep(list: seq<u8>)
    ensures Numbers(list) == if |list| < 2 then [] else [U16(list, 0)] + Numbers(list[2..])
  {}

  lemma {:induction false} NumbersJoin(a: seq<u8>, b: seq<u8>)
    requires |a| % 2 == 0
    ensures Numbers(a + b) == Numbers(a) + Numbers(b)
    decreases |a|
  {
    hide Numbers, U16;
    NumbersStep(a);
    NumbersStep(a + b);
    if a == [] {
      assert a + b == b;
    } else {
      assert U16(a + b, 0) == U16(a, 0) by { FirstPair(a, b); }
      NumbersJoin(a[2..], b);
      assert (a + b)[2..] == a[2..] + b;
      assert [U16(a, 0)] + (Numbers(a[2..]) + Numbers(b)) == [U16(a, 0)] + Numbers(a[2..]) + Numbers(b);
    }
  }

  lemma FirstPair(a: seq<u8>, b: seq<u8>)
    requires |a| >= 2
    ensures U16(a + b, 0) == U16(a, 0)
  {}

  lemma NumbersOfOne(n: u16)
    ensures Numbers(Le16(n)) == [n]
  {
    assert Le16(n)[2..] == [];
  }

  function OrderOf(s: Firmware): seq<u8> {
    if s.order.Some? then s.order.value else []
  }

  /** An order longer than the buffer grows to is not read, so not rewritten. */
  predicate Readable(s: Firmware) {
    |OrderOf(s)| + 4 < 262144
  }

  // ---- Finding entries ----

  /** The numbers of `dir` that are entries: a scan of the directory, whose order `dir` is. */
  function Listed(dir: seq<u16>, boot: map<u16, seq<u8>>): (r: seq<u16>)
    ensures forall n :: n in r <==> n in dir && n in boot
  {
    if dir == [] then []
    else (if dir[0] in boot then [dir[0]] else []) + Listed(dir[1..], boot)
  }

  /** At most 256 names are taken from a scan. */
  function BootVars(dir: seq<u16>, boot: map<u16, seq<u8>>): (r: seq<u16>)
    ensures forall n | n in r :: n in boot
  {
    var l := Listed(dir, boot);
    if |l| <= 256 then l else l[..256]
  }

  function FirstOf(ns: seq<u16>, boot: map<u16, seq<u8>>, slot: Slot): (r: Option<u16>)
    requires forall n | n in ns :: n in boot
    ensures r.Some? ==> r.value in ns && IsSlots(boot[r.value], slot)
    ensures r.None? ==> forall n | n in ns :: !IsSlots(boot[n], slot)
  {
    if ns == [] then None
    else if IsSlots(boot[ns[0]], slot) then Some(ns[0])
    else FirstOf(ns[1..], boot, slot)
  }

  /** From the `k`th number after `own` on, the first that no entry has and, but for `own`
      itself, no place in the order. */
  function FreeFrom(own: u16, k: nat, boot: map<u16, seq<u8>>, ordered: seq<u16>): (r: Option<u16>)
    requires k <= 65536
    ensures r.Some? ==> r.value !in boot && (r.value in ordered ==> k == 0 && r.value == own)
    decreases 65536 - k
  {
    if k == 65536 then None
    else
      var n := (own + k) % 65536;
      if n !in boot && (k == 0 || n !in ordered) then Some(n) else FreeFrom(own, k + 1, boot, ordered)
  }

  /** The number of the slot's entry: its own if it is there, any other that is its, else a free
      one. */
  function SlotNumber(s: Firmware, slot: Slot, dir: seq<u16>): Option<u16> {
    var own := OwnNumber(slot);
    if own in s.boot && IsSlots(s.boot[own], slot) then Some(own)
    else if FirstOf(BootVars(dir, s.boot), s.boot, slot).Some? then FirstOf(BootVars(dir, s.boot), s.boot, slot)
    else FreeFrom(own, 0, s.boot, Numbers(OrderOf(s)))
  }

  // ---- The commands ----

  /** The slot's entry written, and its number last in the order if it is not in it. None: nothing
      is changed. */
  function Ensure(s: Firmware, slot: Slot, part: Part, dir: seq<u16>): Option<Firmware>
    requires |part.uuid| == 16
  {
    if !Readable(s) then None
    else
      match SlotNumber(s, slot, dir)
      case None => None
      case Some(n) =>
        var t := s.(boot := s.boot[n := SlotOption(slot, part)]);
        Some(if n in Numbers(OrderOf(s)) then t else t.(order := Some(OrderOf(s) + Le16(n))))
  }

  function SetNext(s: Firmware, slot: Slot, part: Part, dir: seq<u16>): Option<Firmware>
    requires |part.uuid| == 16
  {
    match Ensure(s, slot, part, dir)
    case None => None
    case Some(t) =>
      var n := SlotNumber(s, slot, dir).value;
      Some(t.(next := Some(Le16(n))))
  }

  function Without(ns: seq<u16>, out: seq<u16>): (r: seq<u16>)
    ensures forall n :: n in r <==> n in ns && n !in out
  {
    if ns == [] then []
    else (if ns[0] in out then [] else [ns[0]]) + Without(ns[1..], out)
  }

  /** Kryptik's entries among `ns`. */
  function OursAmong(ns: seq<u16>, boot: map<u16, seq<u8>>): (r: seq<u16>)
    requires forall n | n in ns :: n in boot
    ensures forall n :: n in r <==> n in ns && n in boot && IsOurs(boot[n])
  {
    if ns == [] then []
    else (if IsOurs(boot[ns[0]]) then [ns[0]] else []) + OursAmong(ns[1..], boot)
  }

  /** The order less `out`; untouched if that changes no length, deleted if nothing is left. */
  function OrderWithout(order: Option<seq<u8>>, out: seq<u16>): Option<seq<u8>> {
    var was := if order.Some? then order.value else [];
    var kept := OrderBytes(Without(Numbers(was), out));
    if |kept| == |was| then order else if kept == [] then None else Some(kept)
  }

  /** BootNext goes if it names one of `out` or no entry. */
  function NextWithout(next: Option<seq<u8>>, boot: map<u16, seq<u8>>, out: seq<u16>): Option<seq<u8>> {
    if next.Some? && |next.value| >= 2 && (U16(next.value, 0) in out || U16(next.value, 0) !in boot) then None
    else next
  }

  function Elements(ns: seq<u16>): set<u16> {
    set n | n in ns
  }

  function Forget(s: Firmware, dir: seq<u16>): Option<Firmware> {
    if !Readable(s) then None
    else
      var out := OursAmong(BootVars(dir, s.boot), s.boot);
      Some(Firmware(s.boot - Elements(out), OrderWithout(s.order, out), NextWithout(s.next, s.boot, out)))
  }

  // ---- What a command leaves alone ----

  /** `ensure` writes only where the slot's entry was or where nothing was, and only ever adds one
      number at the end of the order, where the entry then is. */
  lemma EnsureTouchesOnlyItsEntry(s: Firmware, slot: Slot, part: Part, dir: seq<u16>)
    requires |part.uuid| == 16 && |OrderOf(s)| % 2 == 0 && Ensure(s, slot, part, dir).Some?
    ensures var t, n := Ensure(s, slot, part, dir).value, SlotNumber(s, slot, dir).value;
            && t.boot.Keys == s.boot.Keys + {n} && (n in s.boot ==> IsSlots(s.boot[n], slot))
            && (forall m | m in s.boot && m != n :: t.boot[m] == s.boot[m])
            && IsSlots(t.boot[n], slot)
            && t.next == s.next
            && Numbers(OrderOf(t)) == Numbers(OrderOf(s)) + (if n in Numbers(OrderOf(s)) then [] else [n])
            && |OrderOf(t)| % 2 == 0 && n in Numbers(OrderOf(t))
  {
    hide IsSlots, Numbers, SlotOption;
    var n := SlotNumber(s, slot, dir).value;
    WrittenIsRecognised(slot, part);
    NumbersJoin(OrderOf(s), Le16(n));
    NumbersOfOne(n);
    assert Numbers(OrderOf(s)) + [] == Numbers(OrderOf(s));
  }

  // ---- ensure twice ----

  /** The scan sees every entry, and stops at none. */
  ghost predicate Scanned(dir: seq<u16>, boot: map<u16, seq<u8>>) {
    (forall n | n in boot :: n in dir) && |Listed(dir, boot)| <= 256
  }

  lemma {:induction false} ListedGrows(dir: seq<u16>, small: map<u16, seq<u8>>, large: map<u16, seq<u8>>)
    requires small.Keys <= large.Keys
    ensures |Listed(dir, small)| <= |Listed(dir, large)|
    ensures small.Keys == large.Keys ==> Listed(dir, small) == Listed(dir, large)
  {
    if dir != [] {
      ListedGrows(dir[1..], small, large);
      assert dir[0] in small.Keys ==> dir[0] in large.Keys;
    }
  }

  lemma {:induction false} FirstOfStays(ns: seq<u16>, boot: map<u16, seq<u8>>, slot: Slot, n: u16, b: seq<u8>)
    requires forall m | m in ns :: m in boot
    requires FirstOf(ns, boot, slot) == Some(n) && IsSlots(b, slot)
    ensures FirstOf(ns, boot[n := b], slot) == Some(n)
  {
    hide IsSlots;
    if ns[0] != n { FirstOfStays(ns[1..], boot, slot, n, b); }
  }

  /** The entry a slot was given is the one it is found at. */
  lemma SlotFoundAgain(s: Firmware, t: Firmware, slot: Slot, dir: seq<u16>, n: u16)
    requires SlotNumber(s, slot, dir) == Some(n) && n in t.boot && IsSlots(t.boot[n], slot)
    requires t.boot == s.boot[n := t.boot[n]] && Scanned(dir, t.boot)
    ensures SlotNumber(t, slot, dir) == Some(n)
  {
    hide IsSlots, Numbers, BootVars, FirstOf, FreeFrom, Scanned;
    if n != OwnNumber(slot) {
      if n in s.boot { SameScan(s.boot, t.boot, slot, dir, n); } else { NewScan(s.boot, t.boot, slot, dir, n); }
    }
  }

  lemma SameScan(was: map<u16, seq<u8>>, now: map<u16, seq<u8>>, slot: Slot, dir: seq<u16>, n: u16)
    requires n in was && n in now && now == was[n := now[n]] && IsSlots(now[n], slot)
    ensures FirstOf(BootVars(dir, was), was, slot) == Some(n) ==> FirstOf(BootVars(dir, now), now, slot) == Some(n)
  {
    hide IsSlots, Listed;
    assert was.Keys == now.Keys;
    ListedGrows(dir, was, now);
    if FirstOf(BootVars(dir, was), was, slot) == Some(n) { FirstOfStays(BootVars(dir, was), was, slot, n, now[n]); }
  }

  lemma NewScan(was: map<u16, seq<u8>>, now: map<u16, seq<u8>>, slot: Slot, dir: seq<u16>, n: u16)
    requires n !in was && n in now && now == was[n := now[n]] && IsSlots(now[n], slot) && Scanned(dir, now)
    requires FirstOf(BootVars(dir, was), was, slot).None?
    ensures FirstOf(BootVars(dir, now), now, slot) == Some(n)
  {
    hide IsSlots, Listed, FirstOf;
    ListedGrows(dir, was, now);
    assert n in BootVars(dir, now);
    forall m | m in BootVars(dir, now) && m != n ensures !IsSlots(now[m], slot) { assert m in BootVars(dir, was); }
  }

  /** A second `ensure` changes nothing. */
  lemma EnsureIsIdempotent(s: Firmware, slot: Slot, part: Part, dir: seq<u16>)
    requires |part.uuid| == 16 && |OrderOf(s)| % 2 == 0 && Ensure(s, slot, part, dir).Some?
    requires Scanned(dir, Ensure(s, slot, part, dir).value.boot)
    ensures var t := Ensure(s, slot, part, dir).value;
            Ensure(t, slot, part, dir) == if Readable(t) then Some(t) else None
  {
    hide IsSlots, Numbers, SlotOption;
    var t, n := Ensure(s, slot, part, dir).value, SlotNumber(s, slot, dir).value;
    EnsureTouchesOnlyItsEntry(s, slot, part, dir);
    SlotFoundAgain(s, t, slot, dir, n);
    assert t.boot[n := SlotOption(slot, part)] == t.boot;
  }

  // ---- forget ----

  predicate OursAt(boot: map<u16, seq<u8>>, n: u16) {
    n in boot && IsOurs(boot[n])
  }

  /** The numbers of `ns` that are not Kryptik's entries, in order. */
  function NotOurs(ns: seq<u16>, boot: map<u16, seq<u8>>): (r: seq<u16>)
    ensures forall n :: n in r <==> n in ns && !OursAt(boot, n)
  {
    if ns == [] then []
    else (if OursAt(boot, ns[0]) then [] else [ns[0]]) + NotOurs(ns[1..], boot)
  }

  lemma {:induction false} WithoutOurs(ns: seq<u16>, boot: map<u16, seq<u8>>, out: seq<u16>)
    requires forall n :: n in out <==> OursAt(boot, n)
    ensures Without(ns, out) == NotOurs(ns, boot)
  {
    if ns != [] { WithoutOurs(ns[1..], boot, out); }
  }

  lemma {:induction false} NoneDropped(ns: seq<u16>, out: seq<u16>)
    ensures |Without(ns, out)| <= |ns| && (|Without(ns, out)| == |ns| ==> Without(ns, out) == ns)
  {
    if ns != [] { NoneDropped(ns[1..], out); }
  }

  lemma {:induction false} EvenNumbers(list: seq<u8>)
    requires |list| % 2 == 0
    ensures |list| == 2 * |Numbers(list)|
  {
    if list != [] { EvenNumbers(list[2..]); }
  }

  /** The order less `out`, as numbers and as bytes. */
  lemma OrderWithoutIs(order: Option<seq<u8>>, out: seq<u16>)
    requires order.Some? ==> |order.value| % 2 == 0
    ensures var was := if order.Some? then order.value else [];
            var r := OrderWithout(order, out);
            var kept := Without(Numbers(was), out);
            && (r.Some? ==> Numbers(r.value) == kept) && (r.None? ==> kept == [])
            && (kept != [] ==> r == Some(OrderBytes(kept)))
            && (kept == [] && was != [] ==> r == None)
            && (kept == [] && was == [] ==> r == order)
  {
    var was := if order.Some? then order.value else [];
    var kept := Without(Numbers(was), out);
    EvenNumbers(was);
    NoneDropped(Numbers(was), out);
    NumbersOfBytes(kept);
    BytesOfNumbers(was);
  }

  /** `forget` deletes Kryptik's entries and no other, and drops just them from the order. */
  lemma ForgetRemovesExactlyOurs(s: Firmware, dir: seq<u16>)
    requires |OrderOf(s)| % 2 == 0 && Scanned(dir, s.boot) && Forget(s, dir).Some?
    ensures var t := Forget(s, dir).value;
            && (forall n :: n in t.boot <==> n in s.boot && !IsOurs(s.boot[n]))
            && (forall n | n in t.boot :: t.boot[n] == s.boot[n])
            && Numbers(OrderOf(t)) == NotOurs(Numbers(OrderOf(s)), s.boot)
            && (t.next == s.next || t.next.None?)
            && (t.next.Some? && |t.next.value| >= 2 ==> U16(t.next.value, 0) in t.boot)
  {
    hide IsOurs, Numbers, OrderBytes, OrderWithout;
    var out := OursAmong(BootVars(dir, s.boot), s.boot);
    WithoutOurs(Numbers(OrderOf(s)), s.boot, out);
    OrderWithoutIs(s.order, out);
    NoNumbers();
  }

  lemma NoNumbers()
    ensures Numbers([]) == []
  {}

  // ---- forget after ensure ----

  /** The number is no entry's and still has a place in the order. */
  predicate Dangles(s: Firmware, n: u16) {
    n !in s.boot && n in Numbers(OrderOf(s))
  }

  lemma {:induction false} NotOursJoin(a: seq<u16>, b: seq<u16>, boot: map<u16, seq<u8>>)
    ensures NotOurs(a + b, boot) == NotOurs(a, boot) + NotOurs(b, boot)
  {
    hide OursAt;
    if a == [] {
      assert a + b == b;
    } else {
      assert (a + b)[1..] == a[1..] + b;
      NotOursJoin(a[1..], b, boot);
    }
  }

  lemma {:induction false} NotOursAgree(ns: seq<u16>, boot: map<u16, seq<u8>>, boot2: map<u16, seq<u8>>)
    requires forall n | n in ns :: OursAt(boot, n) == OursAt(boot2, n)
    ensures NotOurs(ns, boot) == NotOurs(ns, boot2)
  {
    hide OursAt;
    if ns != [] { NotOursAgree(ns[1..], boot, boot2); }
  }

  /** What is kept of the order after `ensure` is what is kept of it before, unless the number
      dangled in it. */
  lemma KeptAfterEnsure(ns: seq<u16>, boot: map<u16, seq<u8>>, n: u16, b: seq<u8>, tail: seq<u16>)
    requires (n in boot ==> IsOurs(boot[n])) && IsOurs(b) && (tail == [] || tail == [n])
    ensures n in boot || n !in ns ==> NotOurs(ns + tail, boot[n := b]) == NotOurs(ns, boot)
    ensures n !in NotOurs(ns + tail, boot[n := b])
  {
    hide IsOurs;
    var boot2 := boot[n := b];
    NotOursJoin(ns, tail, boot2);
    assert NotOurs(tail, boot2) == [] by { assert tail == [n] ==> tail[1..] == []; }
    if n in boot || n !in ns { NotOursAgree(ns, boot, boot2); }
  }

  /** Every entry of ours is seen by a complete scan. */
  lemma OursSeen(dir: seq<u16>, boot: map<u16, seq<u8>>)
    requires Scanned(dir, boot)
    ensures forall m :: m in OursAmong(BootVars(dir, boot), boot) <==> OursAt(boot, m)
  {
    hide IsOurs;
  }

  /** `out` and `out2` are Kryptik's entries before and after `b` was written at `n`. */
  ghost predicate OneMore(boot: map<u16, seq<u8>>, n: u16, b: seq<u8>, out: seq<u16>, out2: seq<u16>) {
    && (n in boot ==> IsOurs(boot[n])) && IsOurs(b)
    && (forall m :: m in out <==> OursAt(boot, m)) && (forall m :: m in out2 <==> OursAt(boot[n := b], m))
  }

  lemma SameRest(boot: map<u16, seq<u8>>, next: Option<seq<u8>>, n: u16, b: seq<u8>, out: seq<u16>, out2: seq<u16>)
    requires OneMore(boot, n, b, out, out2)
    ensures boot[n := b] - Elements(out2) == boot - Elements(out)
    ensures NextWithout(next, boot[n := b], out2) == NextWithout(next, boot, out)
  {
    hide IsOurs;
    assert forall m :: m in out2 <==> m in out || m == n;
    assert boot[n := b] - Elements(out2) == boot - Elements(out);
  }

  /** The order's part: the same is left of it exactly when `n` did not dangle in it and it was not
      there with no numbers. */
  lemma SameOrder(s: Firmware, t: Firmware, n: u16, b: seq<u8>, out: seq<u16>, out2: seq<u16>)
    requires OneMore(s.boot, n, b, out, out2) && t.boot == s.boot[n := b]
    requires |OrderOf(s)| % 2 == 0 && |OrderOf(t)| % 2 == 0 && n in Numbers(OrderOf(t))
    requires Numbers(OrderOf(t)) == Numbers(OrderOf(s)) + (if n in Numbers(OrderOf(s)) then [] else [n])
    ensures OrderWithout(t.order, out2) == OrderWithout(s.order, out) <==> !Dangles(s, n) && s.order != Some([])
  {
    hide IsOurs, Numbers, OrderBytes, OrderWithout, NotOurs;
    var ns := Numbers(OrderOf(s));
    WithoutOurs(ns, s.boot, out);
    WithoutOurs(Numbers(OrderOf(t)), t.boot, out2);
    KeptAfterEnsure(ns, s.boot, n, b, if n in ns then [] else [n]);
    OrderWithoutIs(s.order, out);
    OrderWithoutIs(t.order, out2);
    NoNumbers();
  }

  /** `forget` after `ensure` leaves what `forget` alone leaves if and only if the slot's number
      did not already dangle in the order, nor the order stand there with no numbers. */
  lemma ForgetUndoesEnsure(s: Firmware, slot: Slot, part: Part, dir: seq<u16>)
    requires |part.uuid| == 16 && |OrderOf(s)| % 2 == 0 && Ensure(s, slot, part, dir).Some?
    requires var t := Ensure(s, slot, part, dir).value; Scanned(dir, t.boot) && Readable(t)
    ensures var t, n := Ensure(s, slot, part, dir).value, SlotNumber(s, slot, dir).value;
            && (Forget(t, dir) == Forget(s, dir) <==> !Dangles(s, n) && s.order != Some([]))
            && (Dangles(s, n) ==> n == OwnNumber(slot))
  {
    hide IsSlots, Numbers, OrderWithout, NextWithout, SlotOption, Scanned, BootVars;
    var t, n := Ensure(s, slot, part, dir).value, SlotNumber(s, slot, dir).value;
    var b := SlotOption(slot, part);
    EnsureTouchesOnlyItsEntry(s, slot, part, dir);
    ScannedBefore(dir, s.boot, n, b);
    OursSeen(dir, s.boot);
    OursSeen(dir, t.boot);
    var out, out2 := OursAmong(BootVars(dir, s.boot), s.boot), OursAmong(BootVars(dir, t.boot), t.boot);
    SameRest(s.boot, s.next, n, b, out, out2);
    SameOrder(s, t, n, b, out, out2);
  }

  lemma ScannedBefore(dir: seq<u16>, boot: map<u16, seq<u8>>, n: u16, b: seq<u8>)
    requires Scanned(dir, boot[n := b])
    ensures Scanned(dir, boot)
  {
    ListedGrows(dir, boot, boot[n := b]);
  }

  /** The slot's own number left in the order by somebody, and no entry: `forget` alone keeps that
      place in the order, and `forget` after `ensure` does not. */
  lemma DanglingNumberIsForgotten(slot: Slot, part: Part)
    requires |part.uuid| == 16
    ensures var s := Firmware(map[], Some(Le16(OwnNumber(slot))), None); var dir := [OwnNumber(slot)];
            && Ensure(s, slot, part, dir).Some?
            && Forget(Ensure(s, slot, part, dir).value, dir) != Forget(s, dir)
  {
    hide IsSlots, Numbers, SlotOption, Forget, Le16;
    var own := OwnNumber(slot);
    var s, dir := Firmware(map[], Some(Le16(own)), None), [own];
    NumbersOfOne(own);
    assert SlotNumber(s, slot, dir) == Some(own);
    var t := Ensure(s, slot, part, dir).value;
    assert dir[1..] == [] && Listed(dir, t.boot) == [own];
    ForgetUndoesEnsure(s, slot, part, dir);
  }

  /** A BootOrder with no numbers: `forget` alone leaves it, and `forget` after `ensure` deletes it. */
  lemma EmptyOrderIsForgotten(slot: Slot, part: Part)
    requires |part.uuid| == 16
    ensures var s := Firmware(map[], Some([]), None); var dir := [OwnNumber(slot)];
            && Ensure(s, slot, part, dir).Some?
            && Forget(Ensure(s, slot, part, dir).value, dir) != Forget(s, dir)
  {
    hide IsSlots, Numbers, SlotOption, Forget, Le16;
    var own := OwnNumber(slot);
    var s, dir := Firmware(map[], Some([]), None), [own];
    NoNumbers();
    assert SlotNumber(s, slot, dir) == Some(own);
    var t := Ensure(s, slot, part, dir).value;
    assert dir[1..] == [] && Listed(dir, t.boot) == [own];
    ForgetUndoesEnsure(s, slot, part, dir);
  }

  // ---- set-next ----

  /** BootNext then names an entry that is the slot's and has a place in the order. */
  lemma SetNextNamesTheSlot(s: Firmware, slot: Slot, part: Part, dir: seq<u16>)
    requires |part.uuid| == 16 && |OrderOf(s)| % 2 == 0
    ensures SetNext(s, slot, part, dir).Some? <==> Ensure(s, slot, part, dir).Some?
    ensures SetNext(s, slot, part, dir).Some? ==>
            var t := SetNext(s, slot, part, dir).value;
            && t.next.Some? && |t.next.value| == 2
            && var n := U16(t.next.value, 0);
               n in t.boot && IsSlots(t.boot[n], slot) && n in Numbers(OrderOf(t))
  {
    hide IsSlots, Numbers, SlotOption, SlotNumber;
    if Ensure(s, slot, part, dir).Some? { EnsureTouchesOnlyItsEntry(s, slot, part, dir); }
  }
}
