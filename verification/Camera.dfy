/** The camera's grant, made and ended under one lock, against removal events that arrive late, zone
    starts that take no lock, paths nobody checked and a daemon that dies half-way. */
module Camera {
  import opened CameraRecord
  import opened Decimal
  import opened Wrappers

  /** A video4linux node taken away: its path, and the kernel's number for the event. */
  datatype Removal = Removal(path: string, num: nat)

  /** The grant's record, the zones with the camera's node in their directory, the kernel's event
      number, and every removal so far. */
  datatype State = State(record: Option<string>, nodes: set<string>, number: nat, log: seq<Removal>)

  const INIT := State(None, {}, 0, [])

  function Holder(s: State): Option<Grant> {
    if s.record.None? then None else ParseGrant(s.record.value)
  }

  predicate Holds(s: State, zone: string) {
    Holder(s).Some? && Holder(s).value.zone == zone
  }

  predicate EndedBy(g: Grant, path: string, num: nat) {
    g.device == path && num > g.seqnum
  }

  predicate Lasting(c: char) {
    IsGraphic(c) || c == ' '
  }

  predicate AllLasting(s: string) {
    forall i :: 0 <= i < |s| ==> Lasting(s[i])
  }

  function Filtered(s: string): (r: string)
    ensures AllLasting(r)
  {
    if s == [] then [] else (if Lasting(s[0]) then [s[0]] else []) + Filtered(s[1..])
  }

  function TrimStart(s: string): (r: string)
    ensures AllLasting(s) ==> AllLasting(r)
  {
    if s != [] && s[0] == ' ' then TrimStart(s[1..]) else s
  }

  function TrimEnd(s: string): (r: string)
    ensures AllLasting(s) ==> AllLasting(r)
  {
    if s != [] && s[|s| - 1] == ' ' then TrimEnd(s[..|s| - 1]) else s
  }

  /** The camera's name for the chrome: 48 printable characters, and never none. */
  function CleanName(raw: string): (r: string)
    ensures AllLasting(r) && r != []
  {
    var f := Filtered(raw);
    var t := TrimEnd(TrimStart(if |f| > 48 then f[..48] else f));
    if t == [] then "a camera" else t
  }

  lemma LastingIsPlain(s: string)
    requires AllLasting(s)
    ensures Plain(s)
  {}

  // ---- What the operations do ----

  /** How an `end` fares, and the nodes the driver's letting go takes away. */
  datatype Fault = NodeStays | RecordStays | NoFault
  datatype Ending = Ending(fault: Fault, removed: seq<string>)

  /** What a grant meets on its way. */
  datatype Way = Way(
    permitted: bool,         // the zone's file allows it, and has a uid to own the node
    ending: Ending,          // of the grant another zone holds
    clears: bool,            // the zone's directory is there, and no node of an earlier grant in it stays
    kept: bool,              // a program holds the driver from an earlier grant
    loads: bool,
    found: Option<(string, string)>,  // the camera's node, and the name it gives
    makes: bool,             // mknod and chown
    cut: bool,               // with the node made and no record yet the daemon dies, or cannot undo it
    swept: bool,             // a start of the zone, which takes no lock, removes the node again
    device: Option<string>,  // the node's path in sysfs
    meanwhile: seq<string>,  // nodes taken away before the event number is read
    numbered: bool,
    writes: bool)

  /** One removal more. */
  function Removed(s: State, path: string): State {
    s.(number := s.number + 1, log := s.log + [Removal(path, s.number + 1)])
  }

  function Emitted(s: State, removed: seq<string>): (t: State)
    ensures t.record == s.record && t.nodes == s.nodes && t.number == s.number + |removed|
    decreases |removed|
  {
    if removed == [] then s
    else Emitted(Removed(s, removed[0]), removed[1..])
  }

  function AfterEnd(s: State, zone: string, how: Ending): State {
    if how.fault.NodeStays? then s
    else
      var t := Emitted(s.(nodes := s.nodes - {zone}), how.removed);
      if how.fault.RecordStays? then t else t.(record := None)
  }

  function GrantOf(zone: string, w: Way, number: nat): Grant
    requires w.found.Some? && w.device.Some?
  {
    Grant(zone, w.found.value.0, CleanName(w.found.value.1), w.device.value, number)
  }

  /** Nothing in the way of the node. */
  predicate Reaches(s: State, w: Way) {
    && (Holder(s).Some? ==> w.ending.fault.NoFault?)
    && w.clears && !w.kept && w.loads && w.found.Some? && w.makes
  }

  /** The state a grant begins in once another zone's has ended and the zone's directory is clear. */
  function Cleared(s: State, zone: string, w: Way): State {
    var t := if Holder(s).Some? then AfterEnd(s, Holder(s).value.zone, w.ending) else s;
    if (Holder(s).Some? && !w.ending.fault.NoFault?) || !w.clears then t else t.(nodes := t.nodes - {zone})
  }

  /** Nothing in the way of the record, the node made. */
  predicate Records(t: State, w: Way) {
    !w.cut && w.device.Some? && w.numbered && t.number <= U64_MAX && w.writes
  }

  /** The node made, and what happens up to the record. */
  function Noded(s: State, zone: string, w: Way): State {
    var t := Cleared(s, zone, w);
    if w.cut then t.(nodes := t.nodes + {zone})
    else Emitted(t.(nodes := if w.swept then t.nodes else t.nodes + {zone}), w.meanwhile)
  }

  function Given(s: State, zone: string, w: Way): State {
    if !Reaches(s, w) then Cleared(s, zone, w)
    else
      var t := Noded(s, zone, w);
      if Records(t, w) then t.(record := Some(Render(GrantOf(zone, w, t.number))))
      else if w.cut then t
      else t.(nodes := t.nodes - {zone})
  }

  datatype Op =
    | Other(removed: Option<string>)      // an event of the kernel's, a removal or any other
    | Starts(zone: string)
    | Sweeps(zone: string)                // a start whose look at the record is out of date
    | Gives(zone: string, way: Way)
    | Takes(how: Ending)
    | TakesFrom(zone: string, how: Ending)
    | Hears(i: nat, how: Ending)          // the i-th removal reaches the daemon, however late

  function After(s: State, op: Op): State {
    match op
    case Other(removed) => if removed.Some? then Removed(s, removed.value) else s.(number := s.number + 1)
    case Starts(zone) => if Holds(s, zone) then s else s.(nodes := s.nodes - {zone})
    case Sweeps(zone) => s.(nodes := s.nodes - {zone})
    case Gives(zone, w) => if !w.permitted || Holds(s, zone) then s else Given(s, zone, w)
    case Takes(how) => if Holder(s).Some? then AfterEnd(s, Holder(s).value.zone, how) else s
    case TakesFrom(zone, how) => if Holds(s, zone) then AfterEnd(s, zone, how) else s
    case Hears(i, how) =>
      if i < |s.log| && Holder(s).Some? && EndedBy(Holder(s).value, s.log[i].path, s.log[i].num)
      then AfterEnd(s, Holder(s).value.zone, how) else s
  }

  function Run(s: State, ops: seq<Op>): State {
    if ops == [] then s else After(Run(s, ops[..|ops| - 1]), ops[|ops| - 1])
  }

  /** What sysfs and the zone files give: a zone's name, a node's, and a path of one line. */
  predicate IsOp(op: Op) {
    op.Gives? ==>
      && IsZoneName(op.zone) && (op.way.found.Some? ==> IsNode(op.way.found.value.0))
      && (op.way.device.Some? ==> '\n' !in op.way.device.value)
  }

  // ---- Whose node is where ----

  /** Zones with a node and without the grant. */
  function Strays(s: State): set<string> {
    set z | z in s.nodes && !Holds(s, z)
  }

  /** The record written is one its reader takes, for the zone it was written for. */
  lemma RecordHolds(s: State, zone: string, w: Way, t: State)
    requires IsOp(Gives(zone, w)) && Records(t, w) && w.found.Some?
    requires s == t.(record := Some(Render(GrantOf(zone, w, t.number))))
    ensures Holder(s) == if IsDevpath(Chop(w.device.value)) then Some(Chops(GrantOf(zone, w, t.number))) else None
  {
    hide ParseGrant, Render, IsDevpath, IsZoneName, IsNode, Chop, CleanName;
    LastingIsPlain(CleanName(w.found.value.1));
    RecordReads(GrantOf(zone, w, t.number));
  }

  /** The grants that leave a node nobody holds: one whose path the record's reader refuses, and one
      cut short. Told from the state before and what the grant meets. */
  predicate MakesStray(s: State, op: Op) {
    && op.Gives? && op.way.permitted && !Holds(s, op.zone) && Reaches(s, op.way)
    && var t := Noded(s, op.zone, op.way);
       op.way.cut || (Records(t, op.way) && !op.way.swept && !IsDevpath(Chop(op.way.device.value)))
  }

  /** What clears a zone's directory: its start, and a grant to it that gets that far. */
  predicate Clears(s: State, op: Op, z: string) {
    || op == Starts(z)
    || op == Sweeps(z)
    || (&& op.Gives? && op.zone == z && op.way.permitted && op.way.clears
        && (Holder(s).Some? ==> op.way.ending.fault.NoFault?))
  }

  lemma EndedHolder(s: State, zone: string, how: Ending)
    ensures Holder(AfterEnd(s, zone, how)) == if how.fault.NoFault? then None else Holder(s)
  {}

  lemma GivenStrays(s: State, zone: string, w: Way, z: string)
    requires IsOp(Gives(zone, w)) && w.permitted && !Holds(s, zone)
    ensures z in Strays(Given(s, zone, w)) <==>
            (MakesStray(s, Gives(zone, w)) && z == zone) || (z in Strays(s) && !Clears(s, Gives(zone, w), z))
  {
    hide ParseGrant, Render, IsDevpath, IsZoneName, IsNode, Chop, CleanName;
    if Holder(s).Some? { EndedHolder(s, Holder(s).value.zone, w.ending); }
    if Reaches(s, w) {
      var t := Noded(s, zone, w);
      if Records(t, w) { RecordHolds(Given(s, zone, w), zone, w, t); }
    }
  }

  /** From any state, exactly which nodes are without a holder after a step: those that were, less the
      directories it clears, and the one it makes. */
  lemma StrayStep(s: State, op: Op, z: string)
    requires IsOp(op)
    ensures z in Strays(After(s, op)) <==>
            (MakesStray(s, op) && z == op.zone) || (z in Strays(s) && !Clears(s, op, z))
  {
    hide ParseGrant, Given, IsOp, Noded, Reaches, Records, IsDevpath;
    match op
    case Gives(zone, w) =>
      if w.permitted && !Holds(s, zone) { GivenStrays(s, zone, w, z); }
    case _ =>
  }

  /** A node without a holder, left by the grant of step `k` and not cleared since. */
  ghost predicate LeftAt(ops: seq<Op>, k: nat, z: string)
    requires k < |ops|
  {
    && MakesStray(Run(INIT, ops[..k]), ops[k]) && ops[k].zone == z
    && forall j :: k < j < |ops| ==> !Clears(Run(INIT, ops[..j]), ops[j], z)
  }

  lemma LeftAtLonger(ops: seq<Op>, op: Op, k: nat, z: string)
    requires k < |ops|
    ensures LeftAt(ops + [op], k, z) <==> LeftAt(ops, k, z) && !Clears(Run(INIT, ops), op, z)
  {
    hide MakesStray, Clears, Run;
    var all := ops + [op];
    assert all[|ops|] == op && all[..|ops|] == ops;
    assert forall j :: 0 <= j < |ops| ==> all[j] == ops[j] && all[..j] == ops[..j];
    if LeftAt(ops, k, z) && !Clears(Run(INIT, ops), op, z) {
      forall j | k < j < |all| ensures !Clears(Run(INIT, all[..j]), all[j], z) {
        assert j < |ops| ==> !Clears(Run(INIT, ops[..j]), ops[j], z);
      }
    }
    if LeftAt(all, k, z) {
      assert !Clears(Run(INIT, all[..|ops|]), all[|ops|], z);
      forall j | k < j < |ops| ensures !Clears(Run(INIT, ops[..j]), ops[j], z) {
        assert !Clears(Run(INIT, all[..j]), all[j], z);
      }
    }
  }

  lemma LeftAtEnd(ops: seq<Op>, op: Op, z: string)
    ensures LeftAt(ops + [op], |ops|, z) <==> MakesStray(Run(INIT, ops), op) && op.zone == z
  {
    hide MakesStray, Clears, Run;
    assert (ops + [op])[..|ops|] == ops;
  }

  /** Over every run, exactly which zones have a node without holding the camera: those a grant with a
      refused path, or one cut short, left it in, and whose directory nothing cleared since. */
  lemma {:induction false} StraysOfARun(ops: seq<Op>, z: string)
    requires forall i :: 0 <= i < |ops| ==> IsOp(ops[i])
    ensures z in Strays(Run(INIT, ops)) <==> exists k :: 0 <= k < |ops| && LeftAt(ops, k, z)
  {
    hide MakesStray, Clears, After, LeftAt, IsOp, Strays;
    if ops == [] {
      NoStraysAtFirst();
    } else {
      var n := |ops| - 1;
      var before, op := ops[..n], ops[n];
      assert ops == before + [op];
      StraysOfARun(before, z);
      StrayStep(Run(INIT, before), op, z);
      LeftAtEnd(before, op, z);
      forall k | 0 <= k < n ensures LeftAt(ops, k, z) <==> LeftAt(before, k, z) && !Clears(Run(INIT, before), op, z) {
        LeftAtLonger(before, op, k, z);
      }
    }
  }

  lemma NoStraysAtFirst()
    ensures Strays(INIT) == {}
  {}

  ghost predicate Owned(s: State) {
    Strays(s) == {}
  }

  ghost predicate AlwaysOwned(ops: seq<Op>) {
    forall k :: 0 <= k <= |ops| ==> Owned(Run(INIT, ops[..k]))
  }

  ghost predicate NeverStray(ops: seq<Op>) {
    forall k :: 0 <= k < |ops| ==> !MakesStray(Run(INIT, ops[..k]), ops[k])
  }

  lemma OneMoreOp(ops: seq<Op>, op: Op)
    ensures AlwaysOwned(ops + [op]) <==> AlwaysOwned(ops) && Owned(Run(INIT, ops + [op]))
    ensures NeverStray(ops + [op]) <==> NeverStray(ops) && !MakesStray(Run(INIT, ops), op)
    ensures AlwaysOwned(ops) ==> Owned(Run(INIT, ops))
  {
    hide MakesStray, Owned, Run;
    var all, n := ops + [op], |ops|;
    assert all[..n] == ops == ops[..n] && all[..n + 1] == all && all[n] == op;
    assert forall k :: 0 <= k < n ==> all[k] == ops[k];
    assert forall k :: 0 <= k <= n ==> all[..k] == ops[..k];
    if AlwaysOwned(all) {
      forall k | 0 <= k <= n ensures Owned(Run(INIT, ops[..k])) { assert Owned(Run(INIT, all[..k])); }
      assert Owned(Run(INIT, all[..n + 1]));
    }
    if NeverStray(all) {
      forall k | 0 <= k < n ensures !MakesStray(Run(INIT, ops[..k]), ops[k]) {
        assert !MakesStray(Run(INIT, all[..k]), all[k]);
      }
      assert !MakesStray(Run(INIT, all[..n]), all[n]);
    }
  }

  /** Every state of a run has its nodes only in the directory of the zone the record names, so in one
      zone at most, if and only if no grant of it was made with a refused path or cut short. */
  lemma {:induction false} OwnedExactlyWhen(ops: seq<Op>)
    requires forall i :: 0 <= i < |ops| ==> IsOp(ops[i])
    ensures AlwaysOwned(ops) <==> NeverStray(ops)
  {
    hide MakesStray, After, IsOp, Owned, AlwaysOwned, NeverStray;
    if ops == [] {
      NothingYet();
    } else {
      var before, op := ops[..|ops| - 1], ops[|ops| - 1];
      assert ops == before + [op];
      OwnedExactlyWhen(before);
      OneMoreOp(before, op);
      if AlwaysOwned(before) { OwnedStep(Run(INIT, before), op); }
    }
  }

  lemma NothingYet()
    ensures AlwaysOwned([]) && NeverStray([])
  {
    NoStraysAtFirst();
  }

  lemma OwnedStep(s: State, op: Op)
    requires IsOp(op) && Owned(s)
    ensures Owned(After(s, op)) <==> !MakesStray(s, op)
  {
    hide After, IsOp, Holds;
    forall z ensures z in Strays(After(s, op)) <==> MakesStray(s, op) && z == op.zone {
      StrayStep(s, op, z);
    }
    if MakesStray(s, op) { assert op.zone in Strays(After(s, op)); }
  }

  lemma OwnedIsOneZone(s: State)
    requires Owned(s)
    ensures forall y, z :: y in s.nodes && z in s.nodes ==> y == z
    ensures forall z :: z in s.nodes ==> Holds(s, z)
  {
    hide ParseGrant;
    assert forall z :: z in s.nodes && !Holds(s, z) ==> z in Strays(s);
  }

  /** A start leaves no node in the zone's directory that is not the holder's, whatever was there. */
  lemma StartClears(s: State, zone: string)
    ensures var t := After(s, Starts(zone));
            zone !in Strays(t) && t.nodes - {zone} == s.nodes - {zone} && (Holds(s, zone) ==> t == s)
  {
    hide ParseGrant;
  }

  /** The failing input: two grants with a path that has a space, and both zones have the camera while
      nobody is on record. */
  lemma TwoZonesHaveTheNode(w: Way)
    requires w == Way(true, Ending(NoFault, []), true, false, true, Some(("video0", "cam")), true, false, false,
                      Some("/devices/a b"), [], true, true)
    ensures var s := Run(INIT, [Gives("web", w), Gives("mail", w)]); s.nodes == {"web", "mail"} && Holder(s) == None
  {
    hide ParseGrant, Render, CleanName;
    var d := "/devices/a b";
    assert !IsGraphic(d[10]) && Chop(d) == d && !IsDevpath(Chop(d));
    var ops := [Gives("web", w), Gives("mail", w)];
    assert IsOp(ops[0]) && IsOp(ops[1]);
    assert ops[..1] == [ops[0]] && ops[..1][..0] == [];
    RefusedGrant(INIT, "web", w);
    RefusedGrant(After(INIT, ops[0]), "mail", w);
    assert Run(INIT, [ops[0]]) == After(INIT, ops[0]);
  }

  lemma RefusedGrant(s: State, zone: string, w: Way)
    requires IsOp(Gives(zone, w)) && Holder(s).None? && w.permitted && w.clears && !w.kept && w.loads && w.makes
    requires w.found.Some? && !w.cut && !w.swept && w.device.Some? && w.meanwhile == [] && w.numbered && w.writes
    requires s.number <= U64_MAX
    requires !IsDevpath(Chop(w.device.value))
    ensures var t := After(s, Gives(zone, w)); t.nodes == s.nodes + {zone} && Holder(t) == None && t.number == s.number
  {
    hide ParseGrant, Render, CleanName, IsDevpath, Chop, IsZoneName, IsNode;
    RecordHolds(After(s, Gives(zone, w)), zone, w, Noded(s, zone, w));
  }

  // ---- The holder's own node ----

  /** The holder has its node. */
  predicate Equipped(s: State) {
    Holder(s).Some? ==> Holder(s).value.zone in s.nodes
  }

  /** The steps that take the holder's node and leave its grant: an end that stops half-way, and a start
      of the zone on an out-of-date look, before the record or after it. */
  predicate Disarms(s: State, op: Op) {
    match op
    case Takes(how) => Holder(s).Some? && how.fault.RecordStays?
    case TakesFrom(zone, how) => Holds(s, zone) && how.fault.RecordStays?
    case Hears(i, how) =>
        && i < |s.log| && Holder(s).Some? && EndedBy(Holder(s).value, s.log[i].path, s.log[i].num)
        && how.fault.RecordStays?
    case Gives(zone, w) =>
        && w.permitted && !Holds(s, zone)
        && if Holder(s).Some? && !w.ending.fault.NoFault? then w.ending.fault.RecordStays?
           else Reaches(s, w) && Records(Noded(s, zone, w), w) && w.swept && IsDevpath(Chop(w.device.value))
    case Sweeps(zone) => Holds(s, zone)
    case _ => false
  }

  lemma EquippedStep(s: State, op: Op)
    requires IsOp(op) && Equipped(s)
    ensures Equipped(After(s, op)) <==> !Disarms(s, op)
  {
    hide ParseGrant, Render, IsDevpath, IsZoneName, IsNode, Chop, CleanName;
    if op.Gives? && op.way.permitted && !Holds(s, op.zone) && Reaches(s, op.way) {
      var t := Noded(s, op.zone, op.way);
      if Records(t, op.way) { RecordHolds(After(s, op), op.zone, op.way, t); }
    }
  }

  // ---- Late removals ----

  ghost predicate Numbered(s: State) {
    && (forall i :: 0 <= i < |s.log| ==> s.log[i].num <= s.number)
    && (forall i, j :: 0 <= i < j < |s.log| ==> s.log[i].num < s.log[j].num)
  }

  /** From s to t the kernel only numbered on. */
  ghost predicate NumberedOn(s: State, t: State) {
    && s.number <= t.number && s.log <= t.log
    && forall i :: |s.log| <= i < |t.log| ==> s.number < t.log[i].num
  }

  lemma {:induction false} EmittedNumbers(s: State, removed: seq<string>)
    requires Numbered(s)
    ensures Numbered(Emitted(s, removed)) && NumberedOn(s, Emitted(s, removed))
    decreases |removed|
  {
    if removed != [] {
      var t := Removed(s, removed[0]);
      EmittedNumbers(t, removed[1..]);
      assert forall i :: |s.log| <= i < |Emitted(t, removed[1..]).log| ==>
        if i < |t.log| then Emitted(t, removed[1..]).log[i] == t.log[i] else i >= |t.log|;
    }
  }

  lemma EndedNumbers(s: State, zone: string, how: Ending)
    requires Numbered(s)
    ensures Numbered(AfterEnd(s, zone, how)) && NumberedOn(s, AfterEnd(s, zone, how))
  {
    EmittedNumbers(s.(nodes := s.nodes - {zone}), how.removed);
  }

  lemma NumberedOnTransitive(s: State, t: State, u: State)
    requires NumberedOn(s, t) && NumberedOn(t, u)
    ensures NumberedOn(s, u)
  {
    assert forall i :: |s.log| <= i < |u.log| ==> i < |t.log| ==> u.log[i] == t.log[i];
  }

  lemma StepNumbers(s: State, op: Op)
    requires Numbered(s)
    ensures Numbered(After(s, op)) && NumberedOn(s, After(s, op))
  {
    hide Holder, EndedBy, Reaches, Records;
    match op
    case Gives(zone, w) => GivenNumbers(s, zone, w);
    case Takes(how) => if Holder(s).Some? { EndedNumbers(s, Holder(s).value.zone, how); }
    case TakesFrom(zone, how) => EndedNumbers(s, zone, how);
    case Hears(_, how) => if Holder(s).Some? { EndedNumbers(s, Holder(s).value.zone, how); }
    case _ =>
  }

  lemma GivenNumbers(s: State, zone: string, w: Way)
    requires Numbered(s)
    ensures Numbered(Given(s, zone, w)) && NumberedOn(s, Given(s, zone, w))
  {
    hide Holder, Emitted, Numbered, NumberedOn, AfterEnd;
    SameNumbers(s);
    var t := Cleared(s, zone, w);
    assert Numbered(t) && NumberedOn(s, t) by { ClearedNumbers(s, zone, w); }
    var m := t.(nodes := if w.swept then t.nodes else t.nodes + {zone});
    NodesDoNotMatter(s, t, m.nodes);
    NodesDoNotMatter(s, t, t.nodes + {zone});
    EmittedNumbers(m, w.meanwhile);
    NumberedOnTransitive(s, m, Emitted(m, w.meanwhile));
    var u := Noded(s, zone, w);
    assert u == if w.cut then t.(nodes := t.nodes + {zone}) else Emitted(m, w.meanwhile);
    NodesDoNotMatter(s, u, u.nodes - {zone});
    if w.found.Some? && w.device.Some? {
      RecordDoesNotMatter(s, u, Some(Render(GrantOf(zone, w, u.number))));
    }
  }

  lemma SameNumbers(s: State)
    ensures NumberedOn(s, s)
  {}

  lemma NodesDoNotMatter(s: State, t: State, nodes: set<string>)
    requires Numbered(t) && NumberedOn(s, t)
    ensures Numbered(t.(nodes := nodes)) && NumberedOn(s, t.(nodes := nodes))
  {}

  lemma RecordDoesNotMatter(s: State, t: State, record: Option<string>)
    requires Numbered(t) && NumberedOn(s, t)
    ensures Numbered(t.(record := record)) && NumberedOn(s, t.(record := record))
  {}

  lemma ClearedNumbers(s: State, zone: string, w: Way)
    requires Numbered(s)
    ensures Numbered(Cleared(s, zone, w)) && NumberedOn(s, Cleared(s, zone, w))
  {
    hide Holder, AfterEnd;
    SameNumbers(s);
    if Holder(s).Some? { EndedNumbers(s, Holder(s).value.zone, w.ending); }
  }

  lemma {:induction false} RunNumbers(s: State, ops: seq<Op>)
    requires Numbered(s)
    ensures Numbered(Run(s, ops)) && NumberedOn(s, Run(s, ops))
  {
    hide After, Numbered, NumberedOn;
    SameNumbers(s);
    if ops != [] {
      var t := Run(s, ops[..|ops| - 1]);
      RunNumbers(s, ops[..|ops| - 1]);
      StepNumbers(t, ops[|ops| - 1]);
      NumberedOnTransitive(s, t, Run(s, ops));
    }
  }

  /** A grant made in `s`: the state after it, and the grant its record reads as. */
  ghost predicate Made(s: State, zone: string, w: Way, g: Grant) {
    && w.permitted && !Holds(s, zone) && Reaches(s, w) && Records(Noded(s, zone, w), w)
    && Holder(After(s, Gives(zone, w))) == Some(g)
  }

  /** However late a removal arrives, and whatever happened in between: one the kernel numbered before the
      grant read its number, as an earlier grant's end causes, never ends the grant; one it numbered
      after, at the grant's path, always does. */
  lemma RemovalsAgainstAGrant(before: seq<Op>, zone: string, w: Way, g: Grant, ops: seq<Op>, i: nat, how: Ending)
    requires IsOp(Gives(zone, w)) && Made(Run(INIT, before), zone, w, g)
    requires var t := Run(After(Run(INIT, before), Gives(zone, w)), ops); Holder(t) == Some(g) && i < |t.log|
    ensures var s := After(Run(INIT, before), Gives(zone, w)); var t := Run(s, ops); var u := After(t, Hears(i, how));
            if t.log[i].path == g.device && i >= |s.log| then u == AfterEnd(t, zone, how) else u == t
  {
    hide ParseGrant, Render, Chop, IsDevpath, IsZoneName, IsNode, CleanName, Run, Given, AfterEnd;
    var b := Run(INIT, before);
    var s := After(b, Gives(zone, w));
    RunNumbers(INIT, before);
    StepNumbers(b, Gives(zone, w));
    GrantReadsTheNumber(b, zone, w, g);
    RunNumbers(s, ops);
  }

  lemma GrantReadsTheNumber(b: State, zone: string, w: Way, g: Grant)
    requires IsOp(Gives(zone, w)) && Made(b, zone, w, g)
    ensures g.seqnum == After(b, Gives(zone, w)).number && g.zone == zone
  {
    hide ParseGrant, Render, Chop, IsDevpath, IsZoneName, IsNode, CleanName, Noded;
    RecordHolds(After(b, Gives(zone, w)), zone, w, Noded(b, zone, w));
  }

  // ---- The daemon and the kernel in place ----

  class Daemon {
    var record: Option<string>
    var nodes: set<string>
    var number: nat
    var log: seq<Removal>

    function Now(): State
      reads this
    {
      State(record, nodes, number, log)
    }

    constructor ()
      ensures Now() == INIT
    {
      record, nodes, number, log := None, {}, 0, [];
    }

    /** The kernel sends an event: a removal, or any other. */
    method Event(removed: Option<string>)
      modifies this`number, this`log
      ensures Now() == After(old(Now()), Other(removed))
    {
      number := number + 1;
      if removed.Some? { log := log + [Removal(removed.value, number)]; }
    }

    method Events(removed: seq<string>)
      modifies this`number, this`log
      ensures Now() == Emitted(old(Now()), removed)
    {
      var i := 0;
      assert removed[0..] == removed;
      while i < |removed|
        invariant i <= |removed| && record == old(record) && nodes == old(nodes)
        invariant Emitted(Now(), removed[i..]) == Emitted(old(Now()), removed)
      {
        assert removed[i..][1..] == removed[i + 1..];
        Event(Some(removed[i]));
        i := i + 1;
      }
      assert removed[i..] == [];
    }

    /** End the zone's grant: its node, its hold of the driver, then its record. */
    method End(zone: string, how: Ending) returns (ok: bool)
      modifies this
      ensures Now() == AfterEnd(old(Now()), zone, how) && ok == how.fault.NoFault?
    {
      ok := false;
      if how.fault.NodeStays? { return; }
      nodes := nodes - {zone};
      Events(how.removed);
      if how.fault.RecordStays? { return; }
      record := None;
      ok := true;
    }

    /** The zone's directory when it starts. `stale`: a grant was made since the look at the record;
        `clears`: the directory can be made and a node in it removed. */
    method ZoneDir(zone: string, stale: bool, clears: bool)
      modifies this`nodes
      ensures Now() == if !clears then old(Now()) else After(old(Now()), if stale then Sweeps(zone) else Starts(zone))
    {
      var h := Holder(Now());
      if clears && (stale || h.None? || h.value.zone != zone) { nodes := nodes - {zone}; }
    }

    /** The camera to `zone`. Another zone's grant ends first. */
    method GrantTo(zone: string, w: Way) returns (r: Option<Grant>)
      modifies this
      ensures Now() == After(old(Now()), Gives(zone, w))
      ensures r.Some? <==>
              var s := old(Now());
              w.permitted && (Holds(s, zone) || (Reaches(s, w) && Records(Noded(s, zone, w), w)))
      ensures r.Some? ==> r == if old(Holds(Now(), zone)) then old(Holder(Now())) else Some(GrantOf(zone, w, number))
    {
      hide ParseGrant, Render, CleanName;
      r := None;
      if !w.permitted { return; }
      var h := Holder(Now());
      if h.Some? {
        if h.value.zone == zone { return h; }
        var ok := End(h.value.zone, w.ending);
        if !ok { return; }
      }
      if !w.clears { return; }
      nodes := nodes - {zone};
      if w.kept || !w.loads || w.found.None? || !w.makes { return; }
      nodes := nodes + {zone};
      if w.cut { return; }
      if w.swept { nodes := nodes - {zone}; }
      Events(w.meanwhile);
      if w.device.None? || !w.numbered || number > U64_MAX || !w.writes {
        nodes := nodes - {zone};
        return;
      }
      var g := GrantOf(zone, w, number);
      record := Some(Render(g));
      r := Some(g);
    }

    /** Take the camera back from whoever holds it. */
    method Revoke(how: Ending) returns (ended: bool)
      modifies this
      ensures Now() == After(old(Now()), Takes(how))
      ensures ended == (old(Holder(Now())).Some? && how.fault.NoFault?)
    {
      hide ParseGrant;
      ended := false;
      var h := Holder(Now());
      if h.Some? { ended := End(h.value.zone, how); }
    }

    /** From `zone` alone: a grant that moved to another zone stays. */
    method RevokeFrom(zone: string, how: Ending) returns (ended: bool)
      modifies this
      ensures Now() == After(old(Now()), TakesFrom(zone, how))
      ensures ended == (old(Holds(Now(), zone)) && how.fault.NoFault?)
    {
      hide ParseGrant;
      ended := false;
      var h := Holder(Now());
      if h.Some? && h.value.zone == zone { ended := End(zone, how); }
    }

    /** A removal reaches us. */
    method Gone(i: nat, how: Ending) returns (ended: bool)
      requires i < |log|
      modifies this
      ensures Now() == After(old(Now()), Hears(i, how))
      ensures var s := old(Now());
              ended <==> Holder(s).Some? && EndedBy(Holder(s).value, s.log[i].path, s.log[i].num) && how.fault.NoFault?
    {
      hide ParseGrant;
      ended := false;
      var h := Holder(Now());
      if h.Some? && EndedBy(h.value, log[i].path, log[i].num) { ended := End(h.value.zone, how); }
    }
  }
}
