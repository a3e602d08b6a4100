/** A zone's policy file, and the filter a zone gets from its text. */
module Policy {
  import opened Bytes
  import opened Wrappers
  import opened Syscalls
  import opened Seccomp
  import opened Text

  const CAP_SETGID := 6
  const CAP_SETUID := 7
  const CAP_NET_BIND_SERVICE := 10
  const CAP_NET_ADMIN := 12
  const CAP_NET_RAW := 13
  const CAP_SYS_CHROOT := 18

  const KEEP := CAP_NET_BIND_SERVICE
  const KEEPABLE: seq<int> :=
    [CAP_NET_BIND_SERVICE, CAP_NET_ADMIN, CAP_NET_RAW, 11, 23, 14, 5, 0, 3, 4, 2, CAP_SETUID, CAP_SETGID,
     CAP_SYS_CHROOT]
  const PRIVSEP: seq<int> := [CAP_SETUID, CAP_SETGID, CAP_SYS_CHROOT]
  const NIC_ONLY: seq<int> := [CAP_NET_ADMIN, CAP_NET_RAW, CAP_SETUID, CAP_SETGID, CAP_SYS_CHROOT]

  const CAP_NAMES: seq<(string, u32)> := [
    ("CAP_CHOWN", 0), ("CAP_DAC_OVERRIDE", 1), ("CAP_DAC_READ_SEARCH", 2), ("CAP_FOWNER", 3),
    ("CAP_FSETID", 4), ("CAP_KILL", 5), ("CAP_SETGID", 6), ("CAP_SETUID", 7), ("CAP_SETPCAP", 8),
    ("CAP_LINUX_IMMUTABLE", 9), ("CAP_NET_BIND_SERVICE", 10), ("CAP_NET_BROADCAST", 11),
    ("CAP_NET_ADMIN", 12), ("CAP_NET_RAW", 13), ("CAP_IPC_LOCK", 14), ("CAP_IPC_OWNER", 15),
    ("CAP_SYS_MODULE", 16), ("CAP_SYS_RAWIO", 17), ("CAP_SYS_CHROOT", 18), ("CAP_SYS_PTRACE", 19),
    ("CAP_SYS_PACCT", 20), ("CAP_SYS_ADMIN", 21), ("CAP_SYS_BOOT", 22), ("CAP_SYS_NICE", 23),
    ("CAP_SYS_RESOURCE", 24), ("CAP_SYS_TIME", 25), ("CAP_SYS_TTY_CONFIG", 26), ("CAP_MKNOD", 27),
    ("CAP_LEASE", 28), ("CAP_AUDIT_WRITE", 29), ("CAP_AUDIT_CONTROL", 30), ("CAP_SETFCAP", 31),
    ("CAP_MAC_OVERRIDE", 32), ("CAP_MAC_ADMIN", 33), ("CAP_SYSLOG", 34), ("CAP_WAKE_ALARM", 35),
    ("CAP_BLOCK_SUSPEND", 36), ("CAP_AUDIT_READ", 37), ("CAP_PERFMON", 38), ("CAP_BPF", 39),
    ("CAP_CHECKPOINT_RESTORE", 40)
  ]

  const SOCKET_FAMILY_NAMES: seq<(string, u32)> := [
    ("AF_UNIX", AF_UNIX), ("AF_INET", AF_INET), ("AF_INET6", AF_INET6), ("AF_NETLINK", AF_NETLINK),
    ("AF_PACKET", 17), ("AF_KEY", 15), ("AF_RDS", 21), ("AF_CAN", 29), ("AF_TIPC", 30),
    ("AF_BLUETOOTH", 31), ("AF_ALG", 38), ("AF_VSOCK", 40), ("AF_XDP", 44)
  ]

  const NETLINK_PROTOCOL_NAMES: seq<(string, u32)> := [
    ("NETLINK_ROUTE", NETLINK_ROUTE), ("NETLINK_XFRM", 6), ("NETLINK_AUDIT", 9),
    ("NETLINK_NETFILTER", 12), ("NETLINK_KOBJECT_UEVENT", 15), ("NETLINK_GENERIC", 16)
  ]

  const BASE_SOCKET_FAMILIES: seq<u32> := [AF_UNIX, AF_INET, AF_INET6, AF_NETLINK]

  /** Denied calls a kept capability opens again. */
  const CAP_CALLS: seq<(int, seq<int>)> := [
    (CAP_SETUID, [SYS_SETUID, SYS_CAPSET]),
    (CAP_SETGID, [SYS_SETGID, SYS_SETGROUPS]),
    (CAP_SYS_CHROOT, [SYS_CHROOT])
  ]

  /** The number of the first entry of `table` with this name. */
  function ByName(table: seq<(string, u32)>, name: string): Option<u32> {
    if table == [] then None
    else if table[0].0 == name then Some(table[0].1)
    else ByName(table[1..], name)
  }

  /** What a policy file adds to the base policy. */
  datatype Policy = Policy(extraSyscalls: seq<u32>, sockets: SocketPolicy, keepCaps: seq<u32>)

  datatype Fault =
    | Arguments | Duplicate | UnknownName | DeniedSyscall | NotKeepable | UnknownDirective | PrivsepSplit

  datatype Parsed = Ok(policy: Policy) | Err(line: nat, fault: Fault)

  datatype Line = Added(policy: Policy) | Refused(fault: Fault)

  /** One directive with its argument. `names` is the table of the syscalls a file may name. */
  function Directive(p: Policy, directive: string, arg: string, names: map<string, u32>): Line {
    if directive == "allow-syscall" then
      if arg !in names then Refused(UnknownName)
      else if IsDenied(names[arg]) then Refused(DeniedSyscall)
      else if IsBase(names[arg]) then Added(p)
      else Added(p.(extraSyscalls := p.extraSyscalls + [names[arg]]))
    else if directive == "allow-socket" then
      match ByName(SOCKET_FAMILY_NAMES, arg)
      case None => Refused(UnknownName)
      case Some(f) =>
        if f == AF_NETLINK then Added(p.(sockets := p.sockets.(netlinkAll := true)))
        else if f in BASE_SOCKET_FAMILIES then Added(p)
        else Added(p.(sockets := p.sockets.(families := p.sockets.families + [f])))
    else if directive == "allow-netlink" then
      match ByName(NETLINK_PROTOCOL_NAMES, arg)
      case None => Refused(UnknownName)
      case Some(x) =>
        if x == NETLINK_ROUTE then Added(p)
        else Added(p.(sockets := p.sockets.(netlinkProtocols := p.sockets.netlinkProtocols + [x])))
    else if directive == "keep-capability" then
      match ByName(CAP_NAMES, arg)
      case None => Refused(UnknownName)
      case Some(c) =>
        if c !in KEEPABLE then Refused(NotKeepable)
        else if c == KEEP then Added(p)
        else Added(p.(keepCaps := p.keepCaps + [c]))
    else Refused(UnknownDirective)
  }

  predicate KeepsPrivsep(caps: seq<u32>) {
    forall c | c in PRIVSEP :: c in caps
  }

  predicate SplitsPrivsep(caps: seq<u32>) {
    !KeepsPrivsep(caps) && exists c | c in PRIVSEP :: c in caps
  }

  const EMPTY := Policy([], SocketPolicy([], [], false), [])

  /** Lines `n` on of a file, given what the ones before added and the directives seen. A blank
      line, and the carriage return that may end one, are white space to `Words`. */
  function ParseFrom(lines: seq<string>, n: nat, p: Policy, seen: set<(string, string)>,
                     names: map<string, u32>): Parsed
    decreases |lines| - n
  {
    if n >= |lines| then
      if SplitsPrivsep(p.keepCaps) then Err(0, PrivsepSplit) else Ok(p)
    else
      var words := Words(Before(lines[n], '#'));
      if words == [] then ParseFrom(lines, n + 1, p, seen, names)
      else if |words| != 2 then Err(n + 1, Arguments)
      else if (words[0], words[1]) in seen then Err(n + 1, Duplicate)
      else
        match Directive(p, words[0], words[1], names)
        case Refused(fault) => Err(n + 1, fault)
        case Added(q) => ParseFrom(lines, n + 1, q, seen + {(words[0], words[1])}, names)
  }

  function ParseText(text: string, names: map<string, u32>): Parsed {
    ParseFrom(Split(text, '\n'), 0, EMPTY, {}, names)
  }

  /** The file read line by line, as it is read. */
  method Parse(text: string, names: map<string, u32>) returns (r: Parsed)
    ensures r == ParseText(text, names)
  {
    hide Directive, Words, Before, IsDenied, IsBase;
    var lines := Split(text, '\n');
    var p, seen, n := EMPTY, {}, 0;
    while n < |lines|
      invariant 0 <= n <= |lines|
      invariant ParseFrom(lines, n, p, seen, names) == ParseText(text, names)
    {
      var words := Words(Before(lines[n], '#'));
      if words != [] {
        if |words| != 2 {
          return Err(n + 1, Arguments);
        }
        if (words[0], words[1]) in seen {
          return Err(n + 1, Duplicate);
        }
        match Directive(p, words[0], words[1], names) {
          case Refused(fault) => return Err(n + 1, fault);
          case Added(q) => p := q;
        }
        seen := seen + {(words[0], words[1])};
      }
      n := n + 1;
    }
    var kept := 0;
    for i := 0 to |PRIVSEP|
      invariant 0 <= kept <= i
      invariant kept == i <==> forall k | 0 <= k < i :: PRIVSEP[k] in p.keepCaps
      invariant kept == 0 <==> forall k | 0 <= k < i :: PRIVSEP[k] !in p.keepCaps
    {
      if PRIVSEP[i] in p.keepCaps {
        kept := kept + 1;
      }
    }
    assert PRIVSEP[0] in PRIVSEP && PRIVSEP[1] in PRIVSEP && PRIVSEP[2] in PRIVSEP;
    r := if kept != 0 && kept != |PRIVSEP| then Err(0, PrivsepSplit) else Ok(p);
  }

  datatype NetworkMode = NoNetwork | Routed | Nic

  /** Only the zone that owns the NIC may keep `NIC_ONLY` capabilities. */
  predicate CheckForZone(p: Policy, mode: NetworkMode) {
    mode == Nic || forall c | c in p.keepCaps :: c !in NIC_ONLY
  }

  // ---- The allowlist a zone's filter is built from ----

  /** `list`, then each of `more` it does not hold yet. */
  function AddMissing(list: seq<int>, more: seq<int>): (r: seq<int>)
    ensures forall x :: x in r <==> x in list || x in more
    decreases |more|
  {
    if more == [] then list
    else
      assert more == [more[0]] + more[1..];
      AddMissing(if more[0] in list then list else list + [more[0]], more[1..])
  }

  /** Whether a kept capability opens call `x`. */
  predicate Opened(table: seq<(int, seq<int>)>, caps: seq<u32>, x: int) {
    table != [] && ((table[0].0 in caps && x in table[0].1) || Opened(table[1..], caps, x))
  }

  /** The calls of every entry of `table` whose capability is kept, added in order. */
  function AddKept(list: seq<int>, table: seq<(int, seq<int>)>, caps: seq<u32>): (r: seq<int>)
    ensures forall x :: x in r <==> x in list || Opened(table, caps, x)
    decreases |table|
  {
    if table == [] then list
    else AddKept(if table[0].0 in caps then AddMissing(list, table[0].1) else list, table[1..], caps)
  }

  /** The base list widened by a policy's own calls and by those its kept capabilities open. */
  function Allowlist(base: seq<int>, extra: seq<u32>, caps: seq<u32>): seq<int> {
    AddKept(AddMissing(base, extra), CAP_CALLS, caps)
  }

  datatype Widening = Widened(allow: seq<int>) | Denied(nr: int)

  /** Each extra call checked again against the denied list: the first denied one refuses it. */
  method Widen(base: seq<int>, extra: seq<u32>, caps: seq<u32>) returns (r: Widening)
    ensures r.Widened? <==> forall i | 0 <= i < |extra| :: !IsDenied(extra[i])
    ensures r.Widened? ==> r.allow == Allowlist(base, extra, caps)
    ensures r.Denied? ==> exists i | 0 <= i < |extra| :: extra[i] == r.nr && IsDenied(r.nr) &&
                                                          forall j | 0 <= j < i :: !IsDenied(extra[j])
  {
    hide IsDenied, IsBase;
    var allow := base;
    assert extra[0..] == extra;
    for i := 0 to |extra|
      invariant forall j | 0 <= j < i :: !IsDenied(extra[j])
      invariant AddMissing(allow, extra[i..]) == AddMissing(base, extra)
    {
      assert extra[i..][0] == extra[i] && extra[i..][1..] == extra[i + 1..];
      if IsDenied(extra[i]) {
        return Denied(extra[i]);
      }
      if extra[i] !in allow {
        allow := allow + [extra[i]];
      }
    }
    assert CAP_CALLS[0..] == CAP_CALLS;
    for k := 0 to |CAP_CALLS|
      invariant AddKept(allow, CAP_CALLS[k..], caps) == Allowlist(base, extra, caps)
    {
      var (cap, calls) := CAP_CALLS[k];
      assert CAP_CALLS[k..][0] == (cap, calls) && CAP_CALLS[k..][1..] == CAP_CALLS[k + 1..];
      if cap in caps {
        allow := AddCalls(allow, calls);
      }
    }
    r := Widened(allow);
  }

  method AddCalls(list: seq<int>, calls: seq<int>) returns (allow: seq<int>)
    ensures allow == AddMissing(list, calls)
  {
    allow := list;
    assert calls[0..] == calls;
    for i := 0 to |calls|
      invariant AddMissing(allow, calls[i..]) == AddMissing(list, calls)
    {
      assert calls[i..][0] == calls[i] && calls[i..][1..] == calls[i + 1..];
      if calls[i] !in allow {
        allow := allow + [calls[i]];
      }
    }
  }
}
