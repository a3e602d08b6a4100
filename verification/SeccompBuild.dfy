/** The compiler as it runs: instructions pushed one by one, with its refusals; and the two
    filters it makes from one policy, the killing one and `seccomp-trace`'s notifying one. */
module SeccompBuild {
  import opened Bytes
  import opened Wrappers
  import opened Bpf
  import opened Syscalls
  import opened Seccomp
  import opened SeccompCorrect

  datatype Built =
    | Ok(program: seq<Instr>)
    | BadSyscallNumber(nr: int)
    | TooManyRules(n: nat)
    | Panic                       // "socket rule too long for a BPF jump"

  method CollectFamilies(s: SocketPolicy) returns (fams: seq<u32>)
    ensures fams == Families(s)
  {
    fams := [AF_UNIX, AF_INET, AF_INET6];
    for i := 0 to |s.families|
      invariant fams == AddFamilies([AF_UNIX, AF_INET, AF_INET6], s.families[..i])
    {
      assert s.families[..i + 1][..i] == s.families[..i];
      if s.families[i] !in fams && s.families[i] != AF_NETLINK {
        fams := fams + [s.families[i]];
      }
    }
    assert s.families[..|s.families|] == s.families;
    if s.netlinkAll {
      fams := fams + [AF_NETLINK];
    }
  }

  method CollectProtocols(s: SocketPolicy) returns (protos: seq<u32>)
    ensures protos == Protocols(s)
  {
    protos := [NETLINK_ROUTE];
    for i := 0 to |s.netlinkProtocols|
      invariant protos == AddProtocols([NETLINK_ROUTE], s.netlinkProtocols[..i])
    {
      assert s.netlinkProtocols[..i + 1][..i] == s.netlinkProtocols[..i];
      if s.netlinkProtocols[i] !in protos {
        protos := protos + [s.netlinkProtocols[i]];
      }
    }
    assert s.netlinkProtocols[..|s.netlinkProtocols|] == s.netlinkProtocols;
  }

  /** `values` compared from body index `first` on; None is the panic of an offset past 255. */
  method PushCompares(body: seq<Instr>, values: seq<u32>, first: nat, allowIdx: nat) returns (r: Option<seq<Instr>>)
    requires values != [] && first + |values| <= allowIdx
    ensures r.None? <==> allowIdx > first + 256
    ensures r.Some? ==> r.value == body + Compares(values, first, allowIdx)
  {
    var out := body;
    for i := 0 to |values|
      invariant i > 0 ==> allowIdx <= first + 256
      invariant i == 0 ==> out == body
      invariant i > 0 ==> out == body + Compares(values, first, allowIdx)[..i]
    {
      var off := allowIdx - (first + i + 1);
      if off > 255 {
        return None;
      }
      var miss := if first + i + 1 == allowIdx then 1 else 0;
      out := out + [Jump(Eq, values[i], off, miss)];
      assert Compares(values, first, allowIdx)[..i + 1] ==
             Compares(values, first, allowIdx)[..i] + [Compares(values, first, allowIdx)[i]];
    }
    assert Compares(values, first, allowIdx)[..|values|] == Compares(values, first, allowIdx);
    r := Some(out);
  }

  method SocketRuleBody(s: SocketPolicy) returns (r: Option<seq<Instr>>)
    ensures r.None? <==> !JumpsFit(s)
    ensures r.Some? ==> r.value == SocketBody(s)
  {
    hide Families, Protocols, Compares;
    var fams := CollectFamilies(s);
    var protos := CollectProtocols(s);
    BaseFamilies(s);
    BaseProtocol(s);
    var n := |fams|;
    var allowIdx := 1 + n + (if s.netlinkAll then 0 else 2 + |protos|);
    r := PushCompares([Load(ArgLo(0))], fams, 1, allowIdx);
    if r.None? {
      return;
    }
    var body := r.value;
    if !s.netlinkAll {
      r := PushCompares(body + [Jump(Eq, AF_NETLINK, 0, |protos| + 2), Load(ArgLo(2))], protos, 3 + n, allowIdx);
      if r.None? {
        return;
      }
      body := r.value;
      assert body == [Load(ArgLo(0))] + Compares(fams, 1, allowIdx) + NetlinkBlock(s);
    } else {
      assert body == body + NetlinkBlock(s);
    }
    r := Some(body + [Ret(RET_ALLOW), Ret(ErrnoAction(EAFNOSUPPORT))]);
  }

  lemma BaseProtocol(s: SocketPolicy)
    ensures Protocols(s) != []
  {
    ProtocolsHold([NETLINK_ROUTE], s.netlinkProtocols);
  }

  method EmitArgRule(p: seq<Instr>, r: ArgRule, deny: u32, s: SocketPolicy) returns (q: Option<seq<Instr>>)
    ensures q.None? <==> r == SocketFamilies && !JumpsFit(s)
    ensures q.Some? ==> q.value == p + RuleBlock(r, deny, s)
  {
    var body;
    if r == SocketFamilies {
      var b := SocketRuleBody(s);
      if b.None? {
        return None;
      }
      body := b.value;
    } else {
      body := Body(r, deny, s);
    }
    var guard := Jump(Eq, RuleNr(r), 0, LowByte(|body|));
    q := Some(p + [guard] + body);
    assert p + [guard] + body == p + ([guard] + body);
  }

  method EmitRules(p: seq<Instr>, allow: seq<int>, deny: u32, s: SocketPolicy) returns (q: Option<seq<Instr>>)
    ensures q.None? <==> !Emittable(allow, s)
    ensures q.Some? ==> q.value == p + RuleBlocks(ARG_RULES, allow, deny, s)
  {
    hide RuleBlock, JumpsFit;
    var out := p;
    assert Emittable(allow, s) ==>
             RuleBlocks(ARG_RULES[0..], allow, deny, s) == RuleBlocks(ARG_RULES, allow, deny, s) by {
      assert ARG_RULES[0..] == ARG_RULES;
    }
    for i := 0 to |ARG_RULES|
      invariant Emittable(allow, s) ==>
                out + RuleBlocks(ARG_RULES[i..], allow, deny, s) == p + RuleBlocks(ARG_RULES, allow, deny, s)
      invariant !Emittable(allow, s) ==> i <= 3
    {
      ghost var was, rest := out, ARG_RULES[i..];
      assert rest[0] == ARG_RULES[i] && rest[1..] == ARG_RULES[i + 1..];
      if RuleNr(ARG_RULES[i]) in allow {
        var b := EmitArgRule(out, ARG_RULES[i], deny, s);
        if b.None? {
          return None;
        }
        out := b.value;
        if Emittable(allow, s) {
          Regroup(was, RuleBlock(ARG_RULES[i], deny, s), RuleBlocks(rest[1..], allow, deny, s));
        }
      } else if Emittable(allow, s) {
        Regroup(was, [], RuleBlocks(rest[1..], allow, deny, s));
      }
    }
    q := Some(out);
  }

  lemma Regroup(a: seq<Instr>, b: seq<Instr>, c: seq<Instr>)
    ensures a + (b + c) == (a + b) + c && a + [] == a
  {}

  method EmitSoft(p: seq<Instr>, allow: seq<int>, deny: u32) returns (q: seq<Instr>)
    ensures q == p + SoftBlocks(REFUSED_SOFTLY, allow, deny)
  {
    q := p;
    assert REFUSED_SOFTLY[0..] == REFUSED_SOFTLY;
    for i := 0 to |REFUSED_SOFTLY|
      invariant q + SoftBlocks(REFUSED_SOFTLY[i..], allow, deny) == p + SoftBlocks(REFUSED_SOFTLY, allow, deny)
    {
      ghost var was, rest := q, REFUSED_SOFTLY[i..];
      var (nr, e) := REFUSED_SOFTLY[i];
      assert rest[0] == (nr, e) && rest[1..] == REFUSED_SOFTLY[i + 1..];
      if nr !in allow {
        q := q + [Jump(Eq, nr, 0, 1), Ret(SoftRefusal(e, deny))];
      }
      Regroup(was, if nr in allow then [] else [Jump(Eq, nr, 0, 1), Ret(SoftRefusal(e, deny))],
              SoftBlocks(rest[1..], allow, deny));
    }
  }

  /** The allowlist's pairs; the first number that does not fit 32 bits stops it. */
  method EmitAllow(p: seq<Instr>, allow: seq<int>) returns (q: seq<Instr>, bad: Option<int>)
    ensures bad.None? <==> InRange(allow)
    ensures bad.None? ==> q == p + AllowBlocks(allow)
    ensures bad.Some? ==>
            exists i | 0 <= i < |allow| ::
              allow[i] == bad.value && !InRange(allow[..i + 1]) && InRange(allow[..i])
  {
    q, bad := p, None;
    assert allow[0..] == allow;
    for i := 0 to |allow|
      invariant InRange(allow[..i])
      invariant InRange(allow) ==> q + AllowBlocks(allow[i..]) == p + AllowBlocks(allow)
    {
      ghost var was, rest := q, allow[i..];
      assert rest[0] == allow[i] && rest[1..] == allow[i + 1..];
      if allow[i] < 0 || allow[i] > 0xFFFF_FFFF {
        assert !InRange(allow[..i + 1]) by { assert allow[..i + 1][i] == allow[i]; }
        bad := Some(allow[i]);
        return;
      }
      if RuleFor(allow[i]).None? {
        q := q + [Jump(Eq, allow[i], 0, 1), Ret(RET_ALLOW)];
      }
      if InRange(allow) {
        Regroup(was, if RuleFor(allow[i]).Some? then [] else [Jump(Eq, allow[i], 0, 1), Ret(RET_ALLOW)],
                AllowBlocks(rest[1..]));
      }
    }
  }

  /** What a caller gets: the filter that decides as the policy says, or why there is none. */
  method BuildProgramFull(allow: seq<int>, deny: u32, s: SocketPolicy) returns (r: Built)
    ensures r.Panic? <==> !Emittable(allow, s)
    ensures r.BadSyscallNumber? <==> Emittable(allow, s) && !InRange(allow)
    ensures r.BadSyscallNumber? ==> r.nr in allow && !(0 <= r.nr <= 0xFFFF_FFFF)
    ensures r.Ok? <==> Emittable(allow, s) && InRange(allow) && |Program(allow, deny, s)| <= 4096
    ensures r.Ok? ==> r.program == Program(allow, deny, s)
    ensures r.Ok? && GuardSpans(allow, s) ==>
            forall d: Call :: Run(r.program, 0, 0, d) == Some(Decide(allow, deny, s, d))
  {
    hide Run, Decide, RuleBlocks, SoftBlocks, AllowBlocks, JumpsFit;
    var p := Prologue(deny);
    var rules := EmitRules(p, allow, deny, s);
    if rules.None? {
      return Panic;
    }
    p := EmitSoft(rules.value, allow, deny);
    var q, bad := EmitAllow(p, allow);
    if bad.Some? {
      return BadSyscallNumber(bad.value);
    }
    p := q + [Ret(deny)];
    if |p| > 4096 {
      return TooManyRules(|p|);
    }
    if GuardSpans(allow, s) {
      forall d: Call { ProgramComputesDecide(allow, deny, s, d); }
    }
    r := Ok(p);
  }

  // ---- The killing filter and the notifying one ----

  /** What `seccomp-trace` answers a call it is notified of; None for one a zone dies for. */
  function SoftErrno(d: Call): Option<u32> {
    if d.arch != AUDIT_ARCH_X86_64 then None
    else if d.nr == SYS_CLONE && MakesNamespace(d) then Some(EPERM)
    else ErrnoIn(REFUSED_SOFTLY, d.nr)
  }

  /** What the zone's own filter returns for the answer. */
  function AnswerAction(answer: Option<u32>): u32 {
    match answer case Some(e) => ErrnoAction(e) case None => RET_KILL_PROCESS
  }

  /** The two calls whose trace answer is not the zone's: a namespace clone where clone is not
      listed, and an ioctl that rewrites a NIC. */
  predicate TraceDiffers(allow: seq<int>, d: Call) {
    && d.arch == AUDIT_ARCH_X86_64
    && (|| (d.nr == SYS_CLONE && SYS_CLONE !in allow && MakesNamespace(d))
        || (d.nr == SYS_IOCTL && SYS_IOCTL in allow && RewritesNic(d.args[1].lo)))
  }

  lemma BothFiltersAllowTheSame(allow: seq<int>, s: SocketPolicy, d: Call)
    requires InRange(allow) && GuardSpans(allow, s)
    ensures Run(Program(allow, RET_USER_NOTIF, s), 0, 0, d) == Some(RET_ALLOW) <==>
            Run(Program(allow, RET_KILL_PROCESS, s), 0, 0, d) == Some(RET_ALLOW)
  {
    hide Run, Program;
    ProgramComputesDecide(allow, RET_USER_NOTIF, s, d);
    ProgramComputesDecide(allow, RET_KILL_PROCESS, s, d);
    SoftAnswers(d.nr);
  }

  /** What the table of soft refusals can answer. */
  lemma SoftAnswers(nr: int)
    ensures ErrnoIn(REFUSED_SOFTLY, nr).Some? ==>
            ErrnoIn(REFUSED_SOFTLY, nr).value in [EPERM, ENOSYS] && nr < X32_SYSCALL_BIT && RuleFor(nr).None?
  {
    hide ErrnoIn;
    var t := REFUSED_SOFTLY;
    forall i | 0 <= i < |t| ensures t[i].1 in [EPERM, ENOSYS] && t[i].0 < X32_SYSCALL_BIT && RuleFor(t[i].0).None? {
      assert t[i].0 !in {SYS_CLONE, SYS_CLONE3, SYS_IOCTL, SYS_SOCKET, SYS_SOCKETPAIR};
    }
    SoftErrnos(t, nr);
  }

  lemma {:induction false} SoftErrnos(table: seq<(u32, u32)>, nr: int)
    requires forall i | 0 <= i < |table| ::
               table[i].1 in [EPERM, ENOSYS] && table[i].0 < X32_SYSCALL_BIT && RuleFor(table[i].0).None?
    ensures ErrnoIn(table, nr).Some? ==>
            ErrnoIn(table, nr).value in [EPERM, ENOSYS] && nr < X32_SYSCALL_BIT && RuleFor(nr).None?
  {
    if table != [] { SoftErrnos(table[1..], nr); }
  }

  /** For a call the notifying filter stops, the answer is what the killing filter does, except
      exactly for `TraceDiffers`. */
  lemma TraceAnswersAsTheZoneWould(allow: seq<int>, s: SocketPolicy, d: Call)
    requires InRange(allow) && GuardSpans(allow, s)
    requires Run(Program(allow, RET_USER_NOTIF, s), 0, 0, d) == Some(RET_USER_NOTIF)
    ensures Run(Program(allow, RET_KILL_PROCESS, s), 0, 0, d) == Some(AnswerAction(SoftErrno(d))) <==>
            !TraceDiffers(allow, d)
  {
    hide Run, Program, Decide, SoftErrno, TraceDiffers, GuardSpans;
    ProgramComputesDecide(allow, RET_USER_NOTIF, s, d);
    ProgramComputesDecide(allow, RET_KILL_PROCESS, s, d);
    if RuleFor(d.nr).Some? { RuledAnswer(allow, s, d); } else { PlainAnswer(allow, s, d); }
  }

  lemma RuledAnswer(allow: seq<int>, s: SocketPolicy, d: Call)
    requires Decide(allow, RET_USER_NOTIF, s, d) == RET_USER_NOTIF && RuleFor(d.nr).Some?
    ensures Decide(allow, RET_KILL_PROCESS, s, d) == AnswerAction(SoftErrno(d)) <==> !TraceDiffers(allow, d)
  {
    hide SocketAllowed, BitAnd, ErrnoIn;
    SoftAnswers(d.nr);
  }

  lemma PlainAnswer(allow: seq<int>, s: SocketPolicy, d: Call)
    requires Decide(allow, RET_USER_NOTIF, s, d) == RET_USER_NOTIF && RuleFor(d.nr).None?
    ensures Decide(allow, RET_KILL_PROCESS, s, d) == AnswerAction(SoftErrno(d)) <==> !TraceDiffers(allow, d)
  {
    hide RuleDecision, BitAnd, ErrnoIn;
    SoftAnswers(d.nr);
  }

  /** An ioctl that rewrites a NIC: the trace would kill for it, and the zone's filter answers EPERM. */
  lemma NicIoctlIsAnsweredOtherwise(s: SocketPolicy) returns (d: Call)
    ensures InRange([SYS_IOCTL]) && GuardSpans([SYS_IOCTL], s)
    ensures Run(Program([SYS_IOCTL], RET_USER_NOTIF, s), 0, 0, d) == Some(RET_USER_NOTIF)
    ensures Run(Program([SYS_IOCTL], RET_KILL_PROCESS, s), 0, 0, d) == Some(ErrnoAction(EPERM))
    ensures SoftErrno(d) == None
  {
    hide Run, Program;
    var w := Word(SIOCETHTOOL, 0);
    d := CallData(SYS_IOCTL, AUDIT_ARCH_X86_64, w, [w, w, w, w, w, w]);
    ProgramComputesDecide([SYS_IOCTL], RET_USER_NOTIF, s, d);
    ProgramComputesDecide([SYS_IOCTL], RET_KILL_PROCESS, s, d);
    SoftAnswers(d.nr);
  }
}
