/** The zone filter: what it decides for a call, and the compiler that turns a policy into BPF. */
module Seccomp {
  import opened Bytes
  import opened Wrappers
  import opened Bpf
  import opened Syscalls

  const AUDIT_ARCH_X86_64: u32 := 0xc000_003e
  const X32_SYSCALL_BIT: u32 := 0x4000_0000

  const RET_KILL_PROCESS: u32 := 0x8000_0000
  const RET_USER_NOTIF: u32 := 0x7fc0_0000
  const RET_ALLOW: u32 := 0x7fff_0000
  const RET_ERRNO: u32 := 0x0005_0000

  const OFF_NR: u32 := 0
  const OFF_ARCH: u32 := 4

  const CLONE_NS_MASK: u32 := 0x7e02_0000
  const TIOCSTI: u32 := 0x5412
  const TIOCLINUX: u32 := 0x541C
  const SIOCETHTOOL: u32 := 0x8946
  const SIOCSMIIREG: u32 := 0x8949
  const SIOCDEVPRIVATE: u32 := 0x89F0

  const AF_UNIX: u32 := 1
  const AF_INET: u32 := 2
  const AF_INET6: u32 := 10
  const AF_NETLINK: u32 := 16
  const NETLINK_ROUTE: u32 := 0
  const EAFNOSUPPORT: u32 := 97
  const ENOSYS: u32 := 38
  const EPERM: u32 := 1

  function ArgLo(i: nat): u32
    requires i < 6
  {
    16 + 8 * i
  }

  /** `SECCOMP_RET_ERRNO | (e & 0xffff)`: the two have no bit in common. */
  function ErrnoAction(e: u32): u32 {
    RET_ERRNO + e % 0x1_0000
  }

  /** What a zone policy adds to the socket(2) rule. */
  datatype SocketPolicy = SocketPolicy(families: seq<u32>, netlinkProtocols: seq<u32>, netlinkAll: bool)

  datatype ArgRule = CloneNoNamespaces | Clone3Enosys | IoctlRefused | SocketFamilies | SocketpairUnix

  const ARG_RULES: seq<ArgRule> := [CloneNoNamespaces, Clone3Enosys, IoctlRefused, SocketFamilies, SocketpairUnix]

  function RuleNr(r: ArgRule): u32 {
    match r
    case CloneNoNamespaces => SYS_CLONE
    case Clone3Enosys => SYS_CLONE3
    case IoctlRefused => SYS_IOCTL
    case SocketFamilies => SYS_SOCKET
    case SocketpairUnix => SYS_SOCKETPAIR
  }

  /** Refused with an errno instead of killed: the number and the errno. */
  const REFUSED_SOFTLY: seq<(u32, u32)> := [
    (253, ENOSYS), (294, ENOSYS), (122, EPERM), (123, EPERM), (105, EPERM), (106, EPERM),
    (113, EPERM), (114, EPERM), (117, EPERM), (119, EPERM), (116, EPERM), (126, EPERM),
    (272, EPERM), (144, EPERM), (142, EPERM), (314, EPERM), (251, EPERM), (179, EPERM)
  ]

  function SoftRefusal(e: u32, deny: u32): u32 {
    if deny == RET_USER_NOTIF then deny else ErrnoAction(e)
  }

  // ---- What the filter is to decide, said without any program ----

  /** The rule whose call this is. */
  function RuleFor(nr: int): Option<ArgRule> {
    if nr == SYS_CLONE then Some(CloneNoNamespaces)
    else if nr == SYS_CLONE3 then Some(Clone3Enosys)
    else if nr == SYS_IOCTL then Some(IoctlRefused)
    else if nr == SYS_SOCKET then Some(SocketFamilies)
    else if nr == SYS_SOCKETPAIR then Some(SocketpairUnix)
    else None
  }

  /** The errno of the first entry of `table` for `nr`. */
  function ErrnoIn(table: seq<(u32, u32)>, nr: int): Option<u32> {
    if table == [] then None
    else if table[0].0 == nr then Some(table[0].1)
    else ErrnoIn(table[1..], nr)
  }

  predicate SocketAllowed(s: SocketPolicy, family: u32, protocol: u32) {
    if family == AF_NETLINK then
      s.netlinkAll || protocol == NETLINK_ROUTE || protocol in s.netlinkProtocols
    else
      family in [AF_UNIX, AF_INET, AF_INET6] || family in s.families
  }

  predicate InjectsIntoTty(request: u32) {
    request == TIOCSTI || request == TIOCLINUX
  }

  predicate RewritesNic(request: u32) {
    request == SIOCETHTOOL || request == SIOCSMIIREG || SIOCDEVPRIVATE <= request <= SIOCDEVPRIVATE + 15
  }

  predicate MakesNamespace(d: Call) {
    BitAnd(d.args[0].lo, CLONE_NS_MASK) != 0
  }

  function RuleDecision(r: ArgRule, deny: u32, s: SocketPolicy, d: Call): u32 {
    match r
    case CloneNoNamespaces => if MakesNamespace(d) then SoftRefusal(EPERM, deny) else RET_ALLOW
    case Clone3Enosys => ErrnoAction(ENOSYS)
    case IoctlRefused =>
      if InjectsIntoTty(d.args[1].lo) then deny
      else if RewritesNic(d.args[1].lo) then SoftRefusal(EPERM, deny)
      else RET_ALLOW
    case SocketFamilies =>
      if SocketAllowed(s, d.args[0].lo, d.args[2].lo) then RET_ALLOW else ErrnoAction(EAFNOSUPPORT)
    case SocketpairUnix => if d.args[0].lo == AF_UNIX then RET_ALLOW else ErrnoAction(EAFNOSUPPORT)
  }

  /** The decision for call `d`: architecture, x32, argument rule, allowlist, soft refusal, deny. */
  function Decide(allow: seq<int>, deny: u32, s: SocketPolicy, d: Call): u32 {
    if d.arch != AUDIT_ARCH_X86_64 || d.nr >= X32_SYSCALL_BIT then deny
    else if d.nr in allow then
      match RuleFor(d.nr)
      case Some(r) => RuleDecision(r, deny, s, d)
      case None => RET_ALLOW
    else
      match ErrnoIn(REFUSED_SOFTLY, d.nr)
      case Some(e) => SoftRefusal(e, deny)
      case None => deny
  }

  // ---- The generated code ----

  /** The families compared, in order: the base ones, then each added one once. */
  function AddFamilies(fams: seq<u32>, added: seq<u32>): (r: seq<u32>)
    ensures fams <= r
    decreases |added|
  {
    if added == [] then fams
    else
      var fs := AddFamilies(fams, added[..|added| - 1]);
      var f := added[|added| - 1];
      if f !in fs && f != AF_NETLINK then fs + [f] else fs
  }

  function AddProtocols(protos: seq<u32>, added: seq<u32>): seq<u32>
    decreases |added|
  {
    if added == [] then protos
    else
      var ps := AddProtocols(protos, added[..|added| - 1]);
      var x := added[|added| - 1];
      if x !in ps then ps + [x] else ps
  }

  function Families(s: SocketPolicy): seq<u32> {
    AddFamilies([AF_UNIX, AF_INET, AF_INET6], s.families) + (if s.netlinkAll then [AF_NETLINK] else [])
  }

  function Protocols(s: SocketPolicy): seq<u32> {
    AddProtocols([NETLINK_ROUTE], s.netlinkProtocols)
  }

  /** Where the socket rule's `ret ALLOW` stands in its body. */
  function AllowIndex(s: SocketPolicy): nat {
    1 + |Families(s)| + (if s.netlinkAll then 0 else 2 + |Protocols(s)|)
  }

  /** The source's `off` panics past 255; its longest use is from the first comparison. */
  predicate JumpsFit(s: SocketPolicy) {
    AllowIndex(s) - 2 <= 255
  }

  /** Comparisons with each of `values`, the first at body index `first`: a hit jumps to
      `allowIdx`, and a miss on the instruction before that one jumps past it, to the refusal. */
  function Compares(values: seq<u32>, first: nat, allowIdx: nat): (r: seq<Instr>)
    requires first + |values| <= allowIdx <= first + 256
  {
    seq(|values|, i requires 0 <= i < |values| =>
      Jump(Eq, values[i], allowIdx - (first + i) - 1, if first + i + 1 == allowIdx then 1 else 0))
  }

  function NetlinkBlock(s: SocketPolicy): seq<Instr>
    requires JumpsFit(s)
  {
    if s.netlinkAll then []
    else [Jump(Eq, AF_NETLINK, 0, |Protocols(s)| + 2), Load(ArgLo(2))] +
         Compares(Protocols(s), 3 + |Families(s)|, AllowIndex(s))
  }

  function SocketBody(s: SocketPolicy): (body: seq<Instr>)
    requires JumpsFit(s)
    ensures |body| == AllowIndex(s) + 2
  {
    [Load(ArgLo(0))] + Compares(Families(s), 1, AllowIndex(s)) + NetlinkBlock(s) +
    [Ret(RET_ALLOW), Ret(ErrnoAction(EAFNOSUPPORT))]
  }

  function Body(r: ArgRule, deny: u32, s: SocketPolicy): seq<Instr>
    requires r == SocketFamilies ==> JumpsFit(s)
  {
    match r
    case CloneNoNamespaces => [
      Load(ArgLo(0)),
      Jump(AnyBit, CLONE_NS_MASK, 0, 1),
      Ret(SoftRefusal(EPERM, deny)),
      Ret(RET_ALLOW)]
    case Clone3Enosys => [Ret(ErrnoAction(ENOSYS))]
    case IoctlRefused => [
      Load(ArgLo(1)),
      Jump(Eq, TIOCSTI, 7, 0),
      Jump(Eq, TIOCLINUX, 6, 0),
      Jump(Eq, SIOCETHTOOL, 4, 0),
      Jump(Eq, SIOCSMIIREG, 3, 0),
      Jump(Ge, SIOCDEVPRIVATE, 0, 1),
      Jump(Gt, SIOCDEVPRIVATE + 15, 0, 1),
      Ret(RET_ALLOW),
      Ret(SoftRefusal(EPERM, deny)),
      Ret(deny)]
    case SocketFamilies => SocketBody(s)
    case SocketpairUnix => [
      Load(ArgLo(0)),
      Jump(Eq, AF_UNIX, 0, 1),
      Ret(RET_ALLOW),
      Ret(ErrnoAction(EAFNOSUPPORT))]
  }

  /** A length cut to one byte. */
  function LowByte(n: nat): (b: nat)
    ensures b < 256
  {
    n % 256
  }

  /** One rule's block. The guard's offset is `body.len() as u8`, which drops the high bits. */
  function RuleBlock(r: ArgRule, deny: u32, s: SocketPolicy): seq<Instr>
    requires r == SocketFamilies ==> JumpsFit(s)
  {
    var body := Body(r, deny, s);
    [Jump(Eq, RuleNr(r), 0, LowByte(|body|))] + body
  }

  predicate Emittable(allow: seq<int>, s: SocketPolicy) {
    SYS_SOCKET in allow ==> JumpsFit(s)
  }

  function RuleBlocks(rules: seq<ArgRule>, allow: seq<int>, deny: u32, s: SocketPolicy): seq<Instr>
    requires Emittable(allow, s)
  {
    if rules == [] then []
    else
      (if RuleNr(rules[0]) in allow then RuleBlock(rules[0], deny, s) else []) +
      RuleBlocks(rules[1..], allow, deny, s)
  }

  function SoftBlocks(table: seq<(u32, u32)>, allow: seq<int>, deny: u32): seq<Instr> {
    if table == [] then []
    else
      (if table[0].0 in allow then [] else [Jump(Eq, table[0].0, 0, 1), Ret(SoftRefusal(table[0].1, deny))]) +
      SoftBlocks(table[1..], allow, deny)
  }

  predicate InRange(allow: seq<int>) {
    forall i | 0 <= i < |allow| :: 0 <= allow[i] <= 0xFFFF_FFFF
  }

  function AllowBlocks(allow: seq<int>): seq<Instr>
    requires InRange(allow)
  {
    if allow == [] then []
    else
      (if RuleFor(allow[0]).Some? then [] else [Jump(Eq, allow[0], 0, 1), Ret(RET_ALLOW)]) +
      AllowBlocks(allow[1..])
  }

  function Prologue(deny: u32): seq<Instr> {
    [ Load(OFF_ARCH),
      Jump(Eq, AUDIT_ARCH_X86_64, 1, 0),
      Ret(deny),
      Load(OFF_NR),
      Jump(Ge, X32_SYSCALL_BIT, 0, 1),
      Ret(deny) ]
  }

  function Program(allow: seq<int>, deny: u32, s: SocketPolicy): seq<Instr>
    requires Emittable(allow, s) && InRange(allow)
  {
    Prologue(deny) + RuleBlocks(ARG_RULES, allow, deny, s) + SoftBlocks(REFUSED_SOFTLY, allow, deny) +
    AllowBlocks(allow) + [Ret(deny)]
  }
}
