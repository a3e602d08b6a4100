/** The generated filter computes `Decide`, and when exactly it does. */
module SeccompCorrect {
  import opened Bytes
  import opened Wrappers
  import opened Bpf
  import opened Syscalls
  import opened Seccomp

  // ---- The socket rule's generated body ----

  lemma {:induction false} FamiliesAre(s: SocketPolicy, f: u32)
    ensures f in Families(s) <==>
            || f in [AF_UNIX, AF_INET, AF_INET6]
            || (f != AF_NETLINK && f in s.families)
            || (f == AF_NETLINK && s.netlinkAll)
  {
    AddFamiliesAre([AF_UNIX, AF_INET, AF_INET6], s.families, f);
  }

  lemma BaseFamilies(s: SocketPolicy)
    ensures |Families(s)| >= 3
  {}

  lemma {:induction false} AddFamiliesAre(fams: seq<u32>, added: seq<u32>, f: u32)
    ensures f in AddFamilies(fams, added) <==> f in fams || (f != AF_NETLINK && f in added)
    decreases |added|
  {
    if added != [] {
      var n := |added| - 1;
      AddFamiliesAre(fams, added[..n], f);
      assert added == added[..n] + [added[n]];
    }
  }

  lemma {:induction false} ProtocolsAre(protos: seq<u32>, added: seq<u32>, x: u32)
    ensures x in AddProtocols(protos, added) <==> x in protos || x in added
    decreases |added|
  {
    if added != [] {
      var n := |added| - 1;
      ProtocolsAre(protos, added[..n], x);
      assert added == added[..n] + [added[n]];
    }
  }

  /** From comparison `i` on: a value among the rest reaches `allowIdx`; a miss falls out of the
      block, past `allowIdx` if the block ends there. `start` is where the body stands in `p`. */
  lemma {:induction false} RunCompares(p: seq<Instr>, start: nat, values: seq<u32>, first: nat, allowIdx: nat,
                                       i: nat, acc: u32, d: Call)
    requires first + |values| <= allowIdx <= first + 256
    requires i <= |values| && (first + |values| == allowIdx ==> i < |values|)
    requires At(p, start + first, Compares(values, first, allowIdx))
    ensures Run(p, start + first + i, acc, d) ==
            Run(p, start + (if acc in values[i..] then allowIdx
                            else if first + |values| == allowIdx then allowIdx + 1
                            else first + |values|), acc, d)
    decreases |values| - i
  {
    if i < |values| {
      assert p[start + first + i] == Compares(values, first, allowIdx)[i];
      assert values[i..] == [values[i]] + values[i + 1..];
      if acc != values[i] && first + i + 1 < allowIdx {
        if i + 1 < |values| || first + |values| < allowIdx {
          RunCompares(p, start, values, first, allowIdx, i + 1, acc, d);
        }
      }
    }
  }

  /** The socket rule's body, part by part, at `start`. */
  ghost predicate SocketAt(p: seq<Instr>, start: nat, s: SocketPolicy)
    requires JumpsFit(s)
  {
    var a := start + AllowIndex(s);
    && a + 2 <= |p| && p[start] == Load(ArgLo(0))
    && At(p, start + 1, Compares(Families(s), 1, AllowIndex(s)))
    && At(p, start + 1 + |Families(s)|, NetlinkBlock(s))
    && p[a] == Ret(RET_ALLOW) && p[a + 1] == Ret(ErrnoAction(EAFNOSUPPORT))
  }

  lemma SocketLengths(s: SocketPolicy)
    requires JumpsFit(s)
    ensures |Compares(Families(s), 1, AllowIndex(s))| == |Families(s)|
    ensures 1 + |Families(s)| + |NetlinkBlock(s)| == AllowIndex(s)
  {
    hide Families, Protocols;
  }

  lemma SocketParts(p: seq<Instr>, start: nat, s: SocketPolicy)
    requires JumpsFit(s) && At(p, start, SocketBody(s))
    ensures SocketAt(p, start, s)
  {
    hide Compares, NetlinkBlock, Families, AllowIndex, ArgLo, ErrnoAction;
    SocketLengths(s);
    var head, fams, nl := [Load(ArgLo(0))], Compares(Families(s), 1, AllowIndex(s)), NetlinkBlock(s);
    var rets := [Ret(RET_ALLOW), Ret(ErrnoAction(EAFNOSUPPORT))];
    AtParts(p, start, head + fams + nl, rets);
    AtParts(p, start, head + fams, nl);
    AtParts(p, start, head, fams);
    assert p[start] == head[0];
    assert p[start + AllowIndex(s)] == rets[0] && p[start + AllowIndex(s) + 1] == rets[1];
  }

  /** The netlink block after `n` families: the family once more, then the protocols. */
  lemma RunNetlinkBlock(p: seq<Instr>, start: nat, n: nat, a: nat, protos: seq<u32>, acc: u32, d: Call)
    requires protos != [] && n >= 1 && a == 3 + n + |protos| <= 257
    requires At(p, start + 1 + n, [Jump(Eq, AF_NETLINK, 0, |protos| + 2), Load(ArgLo(2))] + Compares(protos, 3 + n, a))
    requires start + a + 2 <= |p| && p[start + a].Ret? && p[start + a + 1].Ret?
    ensures Run(p, start + 1 + n, acc, d) ==
            Some(if acc == AF_NETLINK && d.args[2].lo in protos then p[start + a].k else p[start + a + 1].k)
  {
    hide At, Compares;
    var head := [Jump(Eq, AF_NETLINK, 0, |protos| + 2), Load(ArgLo(2))];
    AtParts(p, start + 1 + n, head, Compares(protos, 3 + n, a));
    AtIndex(p, start + 1 + n, head, 0);
    AtIndex(p, start + 1 + n, head, 1);
    assert protos[0..] == protos;
    RunCompares(p, start, protos, 3 + n, a, 0, d.args[2].lo, d);
  }

  lemma RunNetlink(p: seq<Instr>, start: nat, s: SocketPolicy, acc: u32, d: Call)
    requires JumpsFit(s) && SocketAt(p, start, s) && !s.netlinkAll
    ensures Run(p, start + 1 + |Families(s)|, acc, d) ==
            Some(if acc == AF_NETLINK && d.args[2].lo in Protocols(s) then RET_ALLOW else ErrnoAction(EAFNOSUPPORT))
  {
    hide At, Compares, Run, Families;
    BaseFamilies(s);
    ProtocolsHold([NETLINK_ROUTE], s.netlinkProtocols);
    RunNetlinkBlock(p, start, |Families(s)|, AllowIndex(s), Protocols(s), acc, d);
  }

  lemma {:induction false} ProtocolsHold(protos: seq<u32>, added: seq<u32>)
    ensures |AddProtocols(protos, added)| >= |protos|
    decreases |added|
  {
    if added != [] { ProtocolsHold(protos, added[..|added| - 1]); }
  }

  /** From comparison `i` of the families on, with the family in the accumulator. */
  lemma RunSocketFrom(p: seq<Instr>, start: nat, s: SocketPolicy, i: nat, acc: u32, d: Call)
    requires JumpsFit(s) && SocketAt(p, start, s) && i < |Families(s)|
    ensures Run(p, start + 1 + i, acc, d) ==
            Some(if acc in Families(s)[i..] || (!s.netlinkAll && acc == AF_NETLINK && d.args[2].lo in Protocols(s))
                 then RET_ALLOW else ErrnoAction(EAFNOSUPPORT))
  {
    RunCompares(p, start, Families(s), 1, AllowIndex(s), i, acc, d);
    if acc !in Families(s)[i..] && !s.netlinkAll {
      RunNetlink(p, start, s, acc, d);
    }
  }

  lemma SocketRule(p: seq<Instr>, start: nat, s: SocketPolicy, acc: u32, d: Call)
    requires JumpsFit(s) && At(p, start, SocketBody(s))
    ensures Run(p, start, acc, d) == Some(RuleDecision(SocketFamilies, 0, s, d))
  {
    SocketParts(p, start, s);
    var f := d.args[0].lo;
    RunSocketFrom(p, start, s, 0, f, d);
    assert Families(s)[0..] == Families(s);
    FamiliesAre(s, f);
    ProtocolsAre([NETLINK_ROUTE], s.netlinkProtocols, d.args[2].lo);
  }

  // ---- Each rule's block ----

  /** The last seven instructions of the ioctl body: requests that rewrite a NIC. */
  lemma NicRequests(p: seq<Instr>, pc: nat, b: seq<Instr>, deny: u32, s: SocketPolicy, r: u32, d: Call)
    requires b == Body(IoctlRefused, deny, s) && At(p, pc, b)
    ensures Run(p, pc + 8, r, d) == Some(SoftRefusal(EPERM, deny)) && Run(p, pc + 9, r, d) == Some(deny)
    ensures Run(p, pc + 3, r, d) == Some(if RewritesNic(r) then SoftRefusal(EPERM, deny) else RET_ALLOW)
  {
    hide SoftRefusal;
    forall i | 3 <= i < 10 ensures pc + i < |p| && p[pc + i] == b[i] { AtIndex(p, pc, b, i); }
    assert p[pc + 3] == b[3] && p[pc + 4] == b[4] && p[pc + 5] == b[5] && p[pc + 6] == b[6];
    assert p[pc + 7] == b[7] && p[pc + 8] == b[8] && p[pc + 9] == b[9];
    var allow, refuse := Some(RET_ALLOW), Some(SoftRefusal(EPERM, deny));
    assert Run(p, pc + 7, r, d) == allow && Run(p, pc + 8, r, d) == refuse && Run(p, pc + 9, r, d) == Some(deny);
    assert Run(p, pc + 6, r, d) == if r > SIOCDEVPRIVATE + 15 then allow else refuse;
    assert Run(p, pc + 5, r, d) == if SIOCDEVPRIVATE <= r <= SIOCDEVPRIVATE + 15 then refuse else allow;
    assert Run(p, pc + 4, r, d) == if r == SIOCSMIIREG then refuse else Run(p, pc + 5, r, d);
  }

  lemma IoctlRule(p: seq<Instr>, pc: nat, deny: u32, s: SocketPolicy, acc: u32, d: Call)
    requires At(p, pc, Body(IoctlRefused, deny, s))
    ensures Run(p, pc, acc, d) == Some(RuleDecision(IoctlRefused, deny, s, d))
  {
    hide SoftRefusal, RewritesNic, At;
    var b := Body(IoctlRefused, deny, s);
    var r := d.args[1].lo;
    NicRequests(p, pc, b, deny, s, r, d);
    forall i | 0 <= i < 3 ensures pc + i < |p| && p[pc + i] == b[i] { AtIndex(p, pc, b, i); }
    assert p[pc] == b[0] && p[pc + 1] == b[1] && p[pc + 2] == b[2];
    assert Run(p, pc + 2, r, d) == if r == TIOCLINUX then Some(deny) else Run(p, pc + 3, r, d);
    assert Run(p, pc + 1, r, d) == if r == TIOCSTI then Some(deny) else Run(p, pc + 2, r, d);
  }

  /** Every path through a matched block ends in `ret`, with the rule's decision. */
  lemma RuleBody(p: seq<Instr>, pc: nat, r: ArgRule, deny: u32, s: SocketPolicy, acc: u32, d: Call)
    requires r == SocketFamilies ==> JumpsFit(s)
    requires At(p, pc, Body(r, deny, s))
    ensures Run(p, pc, acc, d) == Some(RuleDecision(r, deny, s, d))
  {
    var b := Body(r, deny, s);
    match r
    case IoctlRefused => IoctlRule(p, pc, deny, s, acc, d);
    case SocketFamilies => SocketRule(p, pc, s, acc, d);
    case Clone3Enosys => assert p[pc] == b[0];
    case CloneNoNamespaces =>
      assert p[pc] == b[0] && p[pc + 1] == b[1] && p[pc + 2] == b[2] && p[pc + 3] == b[3];
      RunChoice(p, pc, acc, d);
    case SocketpairUnix =>
      assert p[pc] == b[0] && p[pc + 1] == b[1] && p[pc + 2] == b[2] && p[pc + 3] == b[3];
      RunChoice(p, pc, acc, d);
  }

  /** A load, a test that goes on or skips one, and two returns. */
  lemma RunChoice(p: seq<Instr>, pc: nat, acc: u32, d: Call)
    requires pc + 4 <= |p| && p[pc].Load? && Fetch(d, p[pc].at).Some?
    requires p[pc + 1].Jump? && p[pc + 1].jt == 0 && p[pc + 1].jf == 1 && p[pc + 2].Ret? && p[pc + 3].Ret?
    ensures Run(p, pc, acc, d) ==
            Some(if Holds(p[pc + 1].test, Fetch(d, p[pc].at).value, p[pc + 1].k) then p[pc + 2].k else p[pc + 3].k)
  {
    var w := Fetch(d, p[pc].at).value;
    assert Run(p, pc + 2, w, d) == Some(p[pc + 2].k) && Run(p, pc + 3, w, d) == Some(p[pc + 3].k);
    assert Run(p, pc, acc, d) == Run(p, pc + 1, w, d);
  }

  /** The guard's one-byte offset spans the socket rule's body, or the rule is not emitted. */
  predicate GuardSpans(allow: seq<int>, s: SocketPolicy) {
    SYS_SOCKET in allow ==> AllowIndex(s) + 2 <= 255
  }

  lemma ShortFits(n: nat)
    ensures n <= 255 ==> LowByte(n) == n
    ensures 256 <= n < 512 ==> LowByte(n) == n - 256
  {}

  lemma ShortBlock(r: ArgRule, deny: u32, s: SocketPolicy)
    requires r == SocketFamilies ==> AllowIndex(s) + 2 <= 255
    ensures |Body(r, deny, s)| <= 255
    ensures RuleBlock(r, deny, s) == [Jump(Eq, RuleNr(r), 0, |Body(r, deny, s)|)] + Body(r, deny, s)
  {
    hide AllowIndex, LowByte;
    ShortFits(|Body(r, deny, s)|);
  }

  lemma RuleNumbered(r: ArgRule, nr: int)
    ensures RuleFor(nr) == Some(r) <==> nr == RuleNr(r)
  {}

  lemma RunRuleBlock(p: seq<Instr>, pc: nat, r: ArgRule, deny: u32, s: SocketPolicy, acc: u32, d: Call)
    requires r == SocketFamilies ==> AllowIndex(s) + 2 <= 255
    requires At(p, pc, RuleBlock(r, deny, s))
    ensures Run(p, pc, acc, d) == if RuleFor(acc) == Some(r) then Some(RuleDecision(r, deny, s, d))
                                  else Run(p, pc + |RuleBlock(r, deny, s)|, acc, d)
  {
    hide At, Run, RuleDecision, Body, RuleBlock, AllowIndex, RuleFor, RuleNr;
    ShortBlock(r, deny, s);
    RuleNumbered(r, acc);
    var body := Body(r, deny, s);
    Guarded(p, pc, RuleNr(r), body, acc, d);
    if acc == RuleNr(r) {
      RuleBody(p, pc + 1, r, deny, s, acc, d);
    }
  }

  lemma {:induction false} RunRules(p: seq<Instr>, pc: nat, rules: seq<ArgRule>, allow: seq<int>, deny: u32,
                                    s: SocketPolicy, acc: u32, d: Call)
    requires Emittable(allow, s) && (SocketFamilies in rules ==> GuardSpans(allow, s))
    requires At(p, pc, RuleBlocks(rules, allow, deny, s))
    ensures Run(p, pc, acc, d) ==
            if acc in allow && RuleFor(acc).Some? && RuleFor(acc).value in rules
            then Some(RuleDecision(RuleFor(acc).value, deny, s, d))
            else Run(p, pc + |RuleBlocks(rules, allow, deny, s)|, acc, d)
    decreases |rules|
  {
    hide At, RuleBlock, Run, RuleDecision, AllowIndex;
    if rules != [] {
      var r, rest := rules[0], RuleBlocks(rules[1..], allow, deny, s);
      var first := if RuleNr(r) in allow then RuleBlock(r, deny, s) else [];
      AtParts(p, pc, first, rest);
      if RuleNr(r) in allow {
        RunRuleBlock(p, pc, r, deny, s, acc, d);
      }
      RunRules(p, pc + |first|, rules[1..], allow, deny, s, acc, d);
    }
  }

  // ---- Soft refusals, the allowlist and the whole program ----

  /** A number and its answer. */
  lemma RunPair(p: seq<Instr>, pc: nat, nr: u32, answer: u32, acc: u32, d: Call)
    requires At(p, pc, [Jump(Eq, nr, 0, 1), Ret(answer)])
    ensures Run(p, pc, acc, d) == if acc == nr then Some(answer) else Run(p, pc + 2, acc, d)
  {
    hide At;
    AtIndex(p, pc, [Jump(Eq, nr, 0, 1), Ret(answer)], 0);
    AtIndex(p, pc, [Jump(Eq, nr, 0, 1), Ret(answer)], 1);
  }

  lemma {:induction false} RunSoft(p: seq<Instr>, pc: nat, table: seq<(u32, u32)>, allow: seq<int>, deny: u32,
                                   acc: u32, d: Call)
    requires At(p, pc, SoftBlocks(table, allow, deny))
    ensures Run(p, pc, acc, d) ==
            if acc !in allow && ErrnoIn(table, acc).Some?
            then Some(SoftRefusal(ErrnoIn(table, acc).value, deny))
            else Run(p, pc + |SoftBlocks(table, allow, deny)|, acc, d)
    decreases |table|
  {
    hide At, Run;
    if table != [] {
      var nr, answer := table[0].0, SoftRefusal(table[0].1, deny);
      var first := if nr in allow then [] else [Jump(Eq, nr, 0, 1), Ret(answer)];
      AtParts(p, pc, first, SoftBlocks(table[1..], allow, deny));
      if nr !in allow {
        RunPair(p, pc, nr, answer, acc, d);
      }
      RunSoft(p, pc + |first|, table[1..], allow, deny, acc, d);
    }
  }

  lemma {:induction false} RunAllow(p: seq<Instr>, pc: nat, allow: seq<int>, acc: u32, d: Call)
    requires InRange(allow) && At(p, pc, AllowBlocks(allow))
    ensures Run(p, pc, acc, d) ==
            if acc in allow && RuleFor(acc).None? then Some(RET_ALLOW)
            else Run(p, pc + |AllowBlocks(allow)|, acc, d)
    decreases |allow|
  {
    hide At, Run;
    if allow != [] {
      var nr := allow[0];
      var first := if RuleFor(nr).Some? then [] else [Jump(Eq, nr, 0, 1), Ret(RET_ALLOW)];
      AtParts(p, pc, first, AllowBlocks(allow[1..]));
      if RuleFor(nr).None? {
        RunPair(p, pc, nr, RET_ALLOW, acc, d);
      }
      RunAllow(p, pc + |first|, allow[1..], acc, d);
    }
  }

  lemma RunPrologue(p: seq<Instr>, deny: u32, d: Call)
    requires At(p, 0, Prologue(deny))
    ensures Run(p, 0, 0, d) ==
            if d.arch != AUDIT_ARCH_X86_64 || d.nr >= X32_SYSCALL_BIT then Some(deny) else Run(p, 6, d.nr, d)
  {
    var b := Prologue(deny);
    assert p[0] == b[0] && p[1] == b[1] && p[2] == b[2] && p[3] == b[3] && p[4] == b[4] && p[5] == b[5];
    assert Run(p, 0, 0, d) == Run(p, 1, d.arch, d);
    assert Run(p, 2, d.arch, d) == Some(deny) && Run(p, 5, d.nr, d) == Some(deny);
    assert Run(p, 3, d.arch, d) == Run(p, 4, d.nr, d);
  }

  lemma AtFiveParts(p: seq<Instr>, a: seq<Instr>, b: seq<Instr>, c: seq<Instr>, d: seq<Instr>, e: seq<Instr>)
    requires p == a + b + c + d + e
    ensures At(p, 0, a) && At(p, |a|, b) && At(p, |a| + |b|, c) && At(p, |a| + |b| + |c|, d)
    ensures At(p, |a| + |b| + |c| + |d|, e)
  {
    hide At;
    AtWhole(p);
    AtParts(p, 0, a + b + c + d, e);
    AtParts(p, 0, a + b + c, d);
    AtParts(p, 0, a + b, c);
    AtParts(p, 0, a, b);
  }

  /** The allowlist and the final deny. */
  lemma RunLast(p: seq<Instr>, at: nat, allow: seq<int>, deny: u32, acc: u32, d: Call)
    requires InRange(allow) && At(p, at, AllowBlocks(allow)) && At(p, at + |AllowBlocks(allow)|, [Ret(deny)])
    ensures Run(p, at, acc, d) == Some(if acc in allow && RuleFor(acc).None? then RET_ALLOW else deny)
  {
    hide At, AllowBlocks;
    RunAllow(p, at, allow, acc, d);
    AtIndex(p, at + |AllowBlocks(allow)|, [Ret(deny)], 0);
  }

  /** What the rules, the soft refusals and the rest each do, put together. */
  lemma RunTables(p: seq<Instr>, rs: nat, so: nat, rules: seq<ArgRule>, table: seq<(u32, u32)>, allow: seq<int>,
                  deny: u32, s: SocketPolicy, d: Call)
    requires GuardSpans(allow, s) && rs == 6 + |RuleBlocks(rules, allow, deny, s)|
    requires so == rs + |SoftBlocks(table, allow, deny)|
    requires At(p, 6, RuleBlocks(rules, allow, deny, s)) && At(p, rs, SoftBlocks(table, allow, deny))
    requires RuleFor(d.nr).Some? ==> RuleFor(d.nr).value in rules
    ensures Run(p, 6, d.nr, d) ==
            if d.nr in allow && RuleFor(d.nr).Some? then Some(RuleDecision(RuleFor(d.nr).value, deny, s, d))
            else if d.nr !in allow && ErrnoIn(table, d.nr).Some?
            then Some(SoftRefusal(ErrnoIn(table, d.nr).value, deny))
            else Run(p, so, d.nr, d)
  {
    hide At, Run, RuleBlocks, SoftBlocks, RuleDecision, ErrnoIn, AllowIndex;
    RunRules(p, 6, rules, allow, deny, s, d.nr, d);
    RunSoft(p, rs, table, allow, deny, d.nr, d);
  }

  /** Compiler correctness: the program stays inside itself, reaches a `ret` and returns what
      `Decide` says, for every call. */
  lemma ProgramComputesDecide(allow: seq<int>, deny: u32, s: SocketPolicy, d: Call)
    requires InRange(allow) && GuardSpans(allow, s)
    ensures Run(Program(allow, deny, s), 0, 0, d) == Some(Decide(allow, deny, s, d))
  {
    hide At, Run, RuleBlocks, SoftBlocks, AllowBlocks, RuleDecision, ErrnoIn, AllowIndex;
    var p, rs := Program(allow, deny, s), RuleBlocks(ARG_RULES, allow, deny, s);
    var so, al := SoftBlocks(REFUSED_SOFTLY, allow, deny), AllowBlocks(allow);
    AtFiveParts(p, Prologue(deny), rs, so, al, [Ret(deny)]);
    RunPrologue(p, deny, d);
    RunTables(p, 6 + |rs|, 6 + |rs| + |so|, ARG_RULES, REFUSED_SOFTLY, allow, deny, s, d);
    RunLast(p, 6 + |rs| + |so|, allow, deny, d.nr, d);
  }

  // ---- Exactly when ----

  function Without(s: seq<u32>, v: u32): (r: seq<u32>)
    ensures forall x :: x in r <==> x in s && x != v
    ensures |r| <= |s| && (v in s ==> |r| < |s|)
  {
    if s == [] then [] else if s[0] == v then Without(s[1..], v) else [s[0]] + Without(s[1..], v)
  }

  /** A list of n values misses one of any n + 1 consecutive ones. */
  lemma {:induction false} FreshValue(s: seq<u32>, lo: u32) returns (x: u32)
    requires lo + |s| <= 0xFFFF_FFFF
    ensures lo <= x <= lo + |s| && x !in s
    decreases |s|
  {
    if lo in s {
      x := FreshValue(Without(s, lo), lo + 1);
    } else {
      x := lo;
    }
  }

  /** Blocks of other rules are skipped to reach the guard of rule `rules[k]`. */
  lemma RuleBlocksStep(rules: seq<ArgRule>, allow: seq<int>, deny: u32, s: SocketPolicy)
    requires Emittable(allow, s) && rules != []
    ensures RuleBlocks(rules, allow, deny, s) ==
            (if RuleNr(rules[0]) in allow then RuleBlock(rules[0], deny, s) else [])
            + RuleBlocks(rules[1..], allow, deny, s)
  {
    hide RuleBlock;
  }

  lemma {:induction false} RunToGuard(p: seq<Instr>, pc: nat, rules: seq<ArgRule>, k: nat, allow: seq<int>, deny: u32,
                                      s: SocketPolicy, d: Call) returns (g: nat)
    requires Emittable(allow, s) && k < |rules| && RuleNr(rules[k]) in allow && RuleFor(d.nr).None?
    requires At(p, pc, RuleBlocks(rules, allow, deny, s)) && SocketFamilies !in rules[..k]
    ensures At(p, g, RuleBlock(rules[k], deny, s)) && Run(p, pc, d.nr, d) == Run(p, g, d.nr, d)
    decreases k
  {
    hide At, RuleBlock, Run, AllowIndex, RuleBlocks;
    var first := if RuleNr(rules[0]) in allow then RuleBlock(rules[0], deny, s) else [];
    RuleBlocksStep(rules, allow, deny, s);
    AtParts(p, pc, first, RuleBlocks(rules[1..], allow, deny, s));
    if k == 0 {
      g := pc;
    } else {
      assert rules[0] in rules[..k];
      if RuleNr(rules[0]) in allow {
        RunRuleBlock(p, pc, rules[0], deny, s, d.nr, d);
      }
      assert rules[1..][..k - 1] == rules[..k][1..];
      g := RunToGuard(p, pc + |first|, rules[1..], k - 1, allow, deny, s, d);
    }
  }

  lemma RunToSocketGuard(allow: seq<int>, deny: u32, s: SocketPolicy, d: Call) returns (g: nat)
    requires InRange(allow) && Emittable(allow, s) && SYS_SOCKET in allow
    requires d.arch == AUDIT_ARCH_X86_64 && d.nr < X32_SYSCALL_BIT && RuleFor(d.nr).None?
    ensures At(Program(allow, deny, s), g, RuleBlock(SocketFamilies, deny, s))
    ensures Run(Program(allow, deny, s), 0, 0, d) == Run(Program(allow, deny, s), g, d.nr, d)
  {
    hide At, RuleBlock, RuleBlocks, SoftBlocks, AllowBlocks, Run, AllowIndex;
    var p, rs := Program(allow, deny, s), RuleBlocks(ARG_RULES, allow, deny, s);
    AtFiveParts(p, Prologue(deny), rs, SoftBlocks(REFUSED_SOFTLY, allow, deny), AllowBlocks(allow), [Ret(deny)]);
    RunPrologue(p, deny, d);
    g := RunToGuard(p, 6, ARG_RULES, 3, allow, deny, s, d);
  }

  /** Past 255 instructions the guard's offset wraps and other calls land in the socket rule: a
      call the filter then answers wrongly. */
  lemma WrappedGuardMisdecides(allow: seq<int>, deny: u32, s: SocketPolicy) returns (d: Call)
    requires InRange(allow) && Emittable(allow, s) && !GuardSpans(allow, s)
    requires deny != ErrnoAction(EAFNOSUPPORT)
    ensures Run(Program(allow, deny, s), 0, 0, d) == Some(ErrnoAction(EAFNOSUPPORT))
    ensures Decide(allow, deny, s, d) != ErrnoAction(EAFNOSUPPORT)
  {
    hide At, Run, RuleBlock, Program;
    var x := FreshValue(Families(s), 1000);
    var w := Word(x, 0);
    d := CallData(x, AUDIT_ARCH_X86_64, w, [w, w, w, w, w, w]);
    var p := Program(allow, deny, s);
    var g := RunToSocketGuard(allow, deny, s, d);
    LandsInSocketRule(p, g, deny, s, d);
    NotSoft(x);
  }

  lemma WrappedBlock(deny: u32, s: SocketPolicy)
    requires JumpsFit(s) && AllowIndex(s) + 2 > 255
    ensures 256 <= |SocketBody(s)| <= 259
    ensures RuleBlock(SocketFamilies, deny, s) == [Jump(Eq, SYS_SOCKET, 0, |SocketBody(s)| - 256)] + SocketBody(s)
  {
    hide AllowIndex, LowByte, SocketBody;
    ShortFits(|SocketBody(s)|);
  }

  lemma AtHead(p: seq<Instr>, start: nat, s: SocketPolicy)
    requires JumpsFit(s) && At(p, start, SocketBody(s))
    ensures start < |p| && p[start] == Load(ArgLo(0))
  {
    hide Compares, NetlinkBlock, Families, AllowIndex, ArgLo, ErrnoAction, At;
    AtIndex(p, start, SocketBody(s), 0);
  }

  lemma LandsInSocketRule(p: seq<Instr>, g: nat, deny: u32, s: SocketPolicy, d: Call)
    requires JumpsFit(s) && AllowIndex(s) + 2 > 255 && At(p, g, RuleBlock(SocketFamilies, deny, s))
    requires d.nr == d.args[0].lo && d.nr !in Families(s) && d.nr != AF_NETLINK && d.nr != SYS_SOCKET
    ensures Run(p, g, d.nr, d) == Some(ErrnoAction(EAFNOSUPPORT))
  {
    hide At, SocketBody, Compares, NetlinkBlock, Run, Families, Protocols, RuleBlock, AllowIndex, ArgLo, SocketAt;
    BaseFamilies(s);
    var body := SocketBody(s);
    WrappedBlock(deny, s);
    AtParts(p, g, [Jump(Eq, SYS_SOCKET, 0, |body| - 256)], body);
    AtIndex(p, g, [Jump(Eq, SYS_SOCKET, 0, |body| - 256)], 0);
    AtHead(p, g + 1, s);
    SocketParts(p, g + 1, s);
    RunMiss(p, g, d.nr, d);
    var i := if |body| == 256 then 0 else |body| - 257;
    RunSocketFrom(p, g + 1, s, i, d.nr, d);
  }

  /** A guard missed, onto another instruction or onto the load of the first argument. */
  lemma RunMiss(p: seq<Instr>, g: nat, acc: u32, d: Call)
    requires g + 1 < |p| && p[g].Jump? && !Holds(p[g].test, acc, p[g].k) && p[g + 1] == Load(ArgLo(0))
    ensures Run(p, g, acc, d) ==
            if p[g].jf == 0 then Run(p, g + 2, d.args[0].lo, d) else Run(p, g + 1 + p[g].jf, acc, d)
  {
    assert Run(p, g + 1, acc, d) == Run(p, g + 2, d.args[0].lo, d);
  }

  lemma NotSoft(x: u32)
    requires x >= 1000
    ensures ErrnoIn(REFUSED_SOFTLY, x).None?
  {
    NotIn(REFUSED_SOFTLY, x);
  }

  lemma {:induction false} NotIn(table: seq<(u32, u32)>, x: u32)
    requires forall i | 0 <= i < |table| :: table[i].0 != x
    ensures ErrnoIn(table, x).None?
  {
    if table != [] {
      NotIn(table[1..], x);
    }
  }

  /** The compiled filter decides every call as the policy does if and only if the guard spans
      the socket rule, for the two deny actions the callers pass. */
  lemma CorrectExactlyWhenGuardSpans(allow: seq<int>, deny: u32, s: SocketPolicy)
    requires InRange(allow) && Emittable(allow, s)
    requires deny == RET_KILL_PROCESS || deny == RET_USER_NOTIF
    ensures GuardSpans(allow, s) <==>
            forall d: Call :: Run(Program(allow, deny, s), 0, 0, d) == Some(Decide(allow, deny, s, d))
  {
    if GuardSpans(allow, s) {
      forall d: Call { ProgramComputesDecide(allow, deny, s, d); }
    } else {
      var d := WrappedGuardMisdecides(allow, deny, s);
    }
  }

  // ---- A policy that wraps ----

  /** `n` families no base family is. */
  function ManyFamilies(n: nat): seq<u32>
    requires n <= 1000
  {
    seq(n, i requires 0 <= i < n => 1000 + i)
  }

  lemma {:induction false} ManyAreAdded(n: nat)
    requires n <= 1000
    ensures var fams := AddFamilies([AF_UNIX, AF_INET, AF_INET6], ManyFamilies(n));
            |fams| == 3 + n && forall f | f in fams :: f < 1000 + n
  {
    if n > 0 {
      var all := ManyFamilies(n);
      assert all[..n - 1] == ManyFamilies(n - 1) && all[n - 1] == 999 + n;
      ManyAreAdded(n - 1);
    }
  }

  /** Two hundred and fifty families and all of netlink: a body of 257 instructions, whose jumps fit
      and whose guard does not, and a call it answers wrongly. */
  lemma WidePolicyMisdecides(deny: u32) returns (s: SocketPolicy, d: Call)
    requires deny == RET_KILL_PROCESS || deny == RET_USER_NOTIF
    ensures InRange([SYS_SOCKET]) && Emittable([SYS_SOCKET], s) && |SocketBody(s)| == 257
    ensures Run(Program([SYS_SOCKET], deny, s), 0, 0, d) != Some(Decide([SYS_SOCKET], deny, s, d))
  {
    hide Run, Program, Decide, AddFamilies;
    s := SocketPolicy(ManyFamilies(250), [], true);
    ManyAreAdded(250);
    assert AllowIndex(s) == 255;
    d := WrappedGuardMisdecides([SYS_SOCKET], deny, s);
  }
}
