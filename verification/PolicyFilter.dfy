/** From a policy file's text to what the zone's filter lets through. */
module PolicyFilter {
  import opened Bytes
  import opened Wrappers
  import opened Bpf
  import opened Syscalls
  import opened Seccomp
  import opened SeccompCorrect
  import opened Policy
  import opened Text

  /** The five denied calls a daemon that drops to its own user makes. */
  predicate IsPrivsepCall(nr: int) {
    nr == SYS_SETUID || nr == SYS_CAPSET || nr == SYS_SETGID || nr == SYS_SETGROUPS || nr == SYS_CHROOT
  }

  const FAMILY_NUMBERS: set<u32> := {1, 2, 10, 16, 17, 15, 21, 29, 30, 31, 38, 40, 44}
  const PROTOCOL_NUMBERS: set<u32> := {0, 6, 9, 12, 15, 16}

  /** What every policy read from a file keeps to, whatever the file says. */
  ghost predicate Bounded(p: Policy) {
    && (forall nr | nr in p.extraSyscalls :: !IsDenied(nr))
    && (forall f | f in p.sockets.families :: f in FAMILY_NUMBERS)
    && (forall x | x in p.sockets.netlinkProtocols :: x in PROTOCOL_NUMBERS)
  }

  lemma {:induction false} ByNameIsListed(table: seq<(string, u32)>, name: string, numbers: set<u32>)
    requires forall i | 0 <= i < |table| :: table[i].1 in numbers
    ensures ByName(table, name).Some? ==> ByName(table, name).value in numbers
  {
    if table != [] { ByNameIsListed(table[1..], name, numbers); }
  }

  lemma DirectiveKeepsBounds(p: Policy, directive: string, arg: string, names: map<string, u32>)
    requires Bounded(p) && Directive(p, directive, arg, names).Added?
    ensures Bounded(Directive(p, directive, arg, names).policy)
  {
    hide IsDenied, IsBase, ByName;
    ByNameIsListed(SOCKET_FAMILY_NAMES, arg, FAMILY_NUMBERS);
    ByNameIsListed(NETLINK_PROTOCOL_NAMES, arg, PROTOCOL_NUMBERS);
  }

  /** An accepted file adds nothing denied and keeps the privilege-separation capabilities
      together. */
  lemma {:induction false} ParsedIsBounded(lines: seq<string>, n: nat, p: Policy, seen: set<(string, string)>,
                                           names: map<string, u32>)
    requires Bounded(p) && ParseFrom(lines, n, p, seen, names).Ok?
    ensures var q := ParseFrom(lines, n, p, seen, names).policy; Bounded(q) && !SplitsPrivsep(q.keepCaps)
    decreases |lines| - n
  {
    hide Bounded, Directive, SplitsPrivsep, Words, Before;
    if n < |lines| {
      var words := Words(Before(lines[n], '#'));
      if words == [] {
        ParsedIsBounded(lines, n + 1, p, seen, names);
      } else {
        DirectiveKeepsBounds(p, words[0], words[1], names);
        var q := Directive(p, words[0], words[1], names).policy;
        ParsedIsBounded(lines, n + 1, q, seen + {(words[0], words[1])}, names);
      }
    }
  }

  // ---- The socket rule of a parsed policy is short ----

  ghost predicate Distinct(s: seq<u32>) {
    forall i, j | 0 <= i < j < |s| :: s[i] != s[j]
  }

  lemma {:induction false} DistinctFits(s: seq<u32>, numbers: set<u32>)
    requires Distinct(s) && forall x | x in s :: x in numbers
    ensures |s| <= |numbers|
  {
    if s != [] {
      DistinctFits(s[1..], numbers - {s[0]});
    }
  }

  lemma {:induction false} FamiliesDistinct(fams: seq<u32>, added: seq<u32>)
    requires Distinct(fams)
    ensures Distinct(AddFamilies(fams, added))
    decreases |added|
  {
    if added != [] { FamiliesDistinct(fams, added[..|added| - 1]); }
  }

  lemma {:induction false} ProtocolsDistinct(protos: seq<u32>, added: seq<u32>)
    requires Distinct(protos)
    ensures Distinct(AddProtocols(protos, added))
    decreases |added|
  {
    if added != [] { ProtocolsDistinct(protos, added[..|added| - 1]); }
  }

  lemma FewFamilies(added: seq<u32>)
    requires forall f | f in added :: f in FAMILY_NUMBERS
    ensures |AddFamilies([AF_UNIX, AF_INET, AF_INET6], added)| <= |FAMILY_NUMBERS|
  {
    hide AddFamilies;
    var base := [AF_UNIX, AF_INET, AF_INET6];
    var fams := AddFamilies(base, added);
    FamiliesDistinct(base, added);
    forall f | f in fams ensures f in FAMILY_NUMBERS { AddFamiliesAre(base, added, f); }
    DistinctFits(fams, FAMILY_NUMBERS);
  }

  lemma FewProtocols(s: SocketPolicy)
    requires forall x | x in s.netlinkProtocols :: x in PROTOCOL_NUMBERS
    ensures |Protocols(s)| <= |PROTOCOL_NUMBERS|
  {
    ProtocolsDistinct([NETLINK_ROUTE], s.netlinkProtocols);
    forall x | x in Protocols(s) ensures x in PROTOCOL_NUMBERS {
      ProtocolsAre([NETLINK_ROUTE], s.netlinkProtocols, x);
    }
    DistinctFits(Protocols(s), PROTOCOL_NUMBERS);
  }

  lemma SocketRuleIsShort(p: Policy)
    requires Bounded(p)
    ensures AllowIndex(p.sockets) + 2 <= 25
  {
    hide AddFamilies, Protocols, IsDenied;
    FewFamilies(p.sockets.families);
    FewProtocols(p.sockets);
  }

  // ---- What the filter lets through ----

  lemma BaseNumbers(nr: int)
    requires IsBase(nr)
    ensures 0 <= nr < 454
  {}

  /** The kept capabilities open all five calls or none. */
  lemma KeptOpenAllOrNone(caps: seq<u32>, nr: int)
    requires !SplitsPrivsep(caps)
    ensures Opened(CAP_CALLS, caps, nr) <==> IsPrivsepCall(nr) && KeepsPrivsep(caps)
  {
    var c := CAP_CALLS;
    assert PRIVSEP[0] in PRIVSEP && PRIVSEP[1] in PRIVSEP && PRIVSEP[2] in PRIVSEP;
    assert c[1..][1..] == c[2..] && c[2..][1..] == c[3..] && c[3..] == [];
    assert Opened(c[2..], caps, nr) <==> c[2].0 in caps && nr in c[2].1;
    assert Opened(c[1..], caps, nr) <==> (c[1].0 in caps && nr in c[1].1) || Opened(c[2..], caps, nr);
  }

  lemma AllowlistInRange(base: seq<int>, p: Policy)
    requires IsBaseList(base) && !SplitsPrivsep(p.keepCaps)
    ensures InRange(Allowlist(base, p.extraSyscalls, p.keepCaps))
  {
    hide IsBase, Opened, SplitsPrivsep;
    var allow := Allowlist(base, p.extraSyscalls, p.keepCaps);
    forall i | 0 <= i < |allow| ensures 0 <= allow[i] <= 0xFFFF_FFFF {
      assert allow[i] in allow;
      if IsBase(allow[i]) { BaseNumbers(allow[i]); }
      KeptOpenAllOrNone(p.keepCaps, allow[i]);
    }
  }

  /** Exactly which calls without an argument rule the zone's compiled filter allows, from the
      text of its policy file. */
  lemma FilterOfPolicyFile(text: string, names: map<string, u32>, base: seq<int>, d: Call)
    requires ParseText(text, names).Ok? && IsBaseList(base)
    ensures var p := ParseText(text, names).policy;
            var allow := Allowlist(base, p.extraSyscalls, p.keepCaps);
            && InRange(allow) && GuardSpans(allow, p.sockets)
            && (RuleFor(d.nr).None? ==>
                (Run(Program(allow, RET_KILL_PROCESS, p.sockets), 0, 0, d) == Some(RET_ALLOW) <==>
                 d.arch == AUDIT_ARCH_X86_64 && d.nr < X32_SYSCALL_BIT &&
                 (IsBase(d.nr) || d.nr in p.extraSyscalls || (IsPrivsepCall(d.nr) && KeepsPrivsep(p.keepCaps)))))
  {
    hide Run, Program, IsBase, IsDenied, IsPrivsepCall, Opened, SplitsPrivsep, KeepsPrivsep, ParseFrom;
    hide AllowIndex, RuleFor, Bounded;
    ParsedIsBounded(Split(text, '\n'), 0, EMPTY, {}, names) by { EmptyIsBounded(); }
    var p := ParseText(text, names).policy;
    SocketRuleIsShort(p);
    AllowlistInRange(base, p);
    KeptOpenAllOrNone(p.keepCaps, d.nr);
    var allow := Allowlist(base, p.extraSyscalls, p.keepCaps);
    ProgramComputesDecide(allow, RET_KILL_PROCESS, p.sockets, d);
    SoftIsNotAllow(d.nr);
  }

  lemma EmptyIsBounded()
    ensures Bounded(EMPTY)
  {}

  lemma SoftIsNotAllow(nr: int)
    ensures ErrnoIn(REFUSED_SOFTLY, nr).Some? ==>
            SoftRefusal(ErrnoIn(REFUSED_SOFTLY, nr).value, RET_KILL_PROCESS) != RET_ALLOW
  {}

  /** A zone without the NIC gets a filter that allows no denied call, whatever its arguments. */
  lemma NoDeniedCallWithoutTheNic(text: string, names: map<string, u32>, base: seq<int>, mode: NetworkMode, d: Call)
    requires ParseText(text, names).Ok? && IsBaseList(base)
    requires CheckForZone(ParseText(text, names).policy, mode) && mode != Nic
    requires IsDenied(d.nr)
    ensures var p := ParseText(text, names).policy;
            var allow := Allowlist(base, p.extraSyscalls, p.keepCaps);
            InRange(allow) && GuardSpans(allow, p.sockets) &&
            Run(Program(allow, RET_KILL_PROCESS, p.sockets), 0, 0, d) != Some(RET_ALLOW)
  {
    hide Run, Program, ParseText, AllowIndex, Bounded;
    NicZoneGetsFiveOrNone(text, names, base, d);
    var caps := ParseText(text, names).policy.keepCaps;
    assert CAP_SETUID in PRIVSEP && CAP_SETUID in NIC_ONLY;
  }

  /** Of the denied calls a filter allows the five of privilege separation, all or none of them,
      and no other. */
  lemma NicZoneGetsFiveOrNone(text: string, names: map<string, u32>, base: seq<int>, d: Call)
    requires ParseText(text, names).Ok? && IsBaseList(base) && IsDenied(d.nr)
    ensures var p := ParseText(text, names).policy;
            var allow := Allowlist(base, p.extraSyscalls, p.keepCaps);
            InRange(allow) && GuardSpans(allow, p.sockets) &&
            (Run(Program(allow, RET_KILL_PROCESS, p.sockets), 0, 0, d) == Some(RET_ALLOW) <==>
             d.arch == AUDIT_ARCH_X86_64 && IsPrivsepCall(d.nr) && KeepsPrivsep(p.keepCaps))
  {
    hide Run, Program, AllowIndex, IsBase, IsDenied, ParseFrom, KeepsPrivsep;
    FilterOfPolicyFile(text, names, base, d);
    ParsedIsBounded(Split(text, '\n'), 0, EMPTY, {}, names) by { EmptyIsBounded(); }
    if IsBase(d.nr) { BaseCallsAreNotDenied(d.nr); }
    DeniedNumbers(d.nr);
  }

  lemma DeniedNumbers(nr: int)
    requires IsDenied(nr)
    ensures 0 <= nr < 443 && RuleFor(nr).None?
  {}
}
