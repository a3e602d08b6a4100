/** The zone registry's lock protocol on one entry: any number of processes claim it, probe it,
    reclaim it, drop it and crash, one system call at a time and in any order. */
module Registry {
  import opened Wrappers

  type Proc = nat
  type Inode = nat

  /** What a look at the entry (`state`) is for. */
  datatype Probe = StateOnly | InClaim(attempt: nat)

  /** What follows a sweep: the end of the operation, or the claim that reclaimed a stale entry. */
  datatype After = Done | ThenClaim

  datatype Why = ForClaim(attempt: nat) | ForReclaim(after: After)

  /** The system call a process makes next. */
  datatype Pc =
    | Idle
    | Mkdir(attempt: nat)
    | SetMode(attempt: nat)
    | LookExists(probe: Probe)
    | LookOpen(probe: Probe)
    | LookFlock(probe: Probe, fd: Inode)
    | LookClose(probe: Probe, fd: Inode, held: bool)
    | ReclaimExists(after: After)
    | OpenLock(why: Why, tries: nat)
    | FlockLock(why: Why, tries: nat, fd: Inode)
    | CheckLock(why: Why, fd: Inode)
    | Owner(fd: Inode)                                   // a `Handle` is held
    | SweepList(fd: Inode, after: After)
    | SweepFiles(fd: Inode, todo: set<string>, after: After)
    | SweepUnlink(fd: Inode, after: After)
    | SweepRmdir(fd: Inode, after: After)
    | CloseFd(fd: Inode, next: Pc)

  /** The entry's directory, the inode its name `lock` links to, its other files, and the flocks:
      an inode's exclusive holder, and its shared ones. */
  datatype State = State(
    dir: bool, link: Option<Inode>, files: set<string>,
    ex: map<Inode, Proc>, sh: set<(Inode, Proc)>, pcs: map<Proc, Pc>)
  {
    function At(p: Proc): Pc {
      if p in pcs then pcs[p] else Idle
    }

    function Go(p: Proc, pc: Pc): State {
      this.(pcs := pcs[p := pc])
    }

    /** p's descriptor on `i` closed: its flock on it goes. */
    function Release(p: Proc, i: Inode): State {
      this.(ex := if i in ex && ex[i] == p then ex - {i} else ex, sh := sh - {(i, p)})
    }
  }

  /** The inode a process has open. */
  function Fd(pc: Pc): Option<Inode> {
    match pc
    case LookFlock(_, i) => Some(i)
    case LookClose(_, i, _) => Some(i)
    case FlockLock(_, _, i) => Some(i)
    case CheckLock(_, i) => Some(i)
    case Owner(i) => Some(i)
    case SweepList(i, _) => Some(i)
    case SweepFiles(i, _, _) => Some(i)
    case SweepUnlink(i, _) => Some(i)
    case SweepRmdir(i, _) => Some(i)
    case CloseFd(i, _) => Some(i)
    case _ => None
  }

  /** A new file's inode number: one no name links to and no process has open, so a number can
      come back once its file is gone. */
  ghost predicate Fresh(s: State, i: Inode) {
    s.link != Some(i) && forall p: Proc :: Fd(s.At(p)) != Some(i)
  }

  predicate CanLockShared(s: State, p: Proc, i: Inode) {
    i !in s.ex || s.ex[i] == p
  }

  predicate CanLockExclusive(s: State, p: Proc, i: Inode) {
    (i !in s.ex || s.ex[i] == p) && forall x | x in s.sh :: x.0 != i || x.1 == p
  }

  /** After a reclaim: back to the claim that asked for it, at its second attempt. */
  function AfterReclaim(after: After, ok: bool): Pc {
    if after == ThenClaim && ok then Mkdir(1) else Idle
  }

  /** A claim starts over, three attempts in all. */
  function Again(attempt: nat): Pc {
    if attempt + 1 < 3 then Mkdir(attempt + 1) else Idle
  }

  /** What a claim makes of the entry's state; `launcher` is whether a launcher pid was read. */
  function AfterLook(probe: Probe, held: bool, launcher: bool): Pc {
    match probe
    case StateOnly => Idle
    case InClaim(attempt) =>
      if held then (if attempt == 0 && !launcher then Mkdir(1) else Idle)
      else if attempt == 0 then ReclaimExists(ThenClaim)
      else Idle
  }

  /** The entry's lock is free of its name: what the operation does then. */
  function AfterGone(why: Why): Pc {
    match why
    case ForClaim(attempt) => Again(attempt)
    case ForReclaim(after) => AfterReclaim(after, true)
  }

  datatype Action =
    | BeginClaim | BeginProbe | BeginReclaim
    | Write(name: string)                          // a field, through the handle
    | Drop                                         // of the handle
    | Call(inode: Inode, name: string, flag: bool) // the next call, with what the kernel chooses
    | Crash

  ghost predicate Enabled(s: State, p: Proc, a: Action) {
    match a
    case BeginClaim => s.At(p) == Idle
    case BeginProbe => s.At(p) == Idle
    case BeginReclaim => s.At(p) == Idle
    case Write(name) => s.At(p).Owner? && name != "lock"
    case Drop => s.At(p).Owner?
    case Crash => true
    case Call(i, name, _) =>
      match s.At(p)
      case Idle => false
      case Owner(_) => false
      case OpenLock(_, _) => s.dir && s.link.None? ==> Fresh(s, i)
      case SweepFiles(_, todo, _) => todo != {} ==> name in todo
      case _ => true
  }

  /** A claim's directory, a look at the entry, and a reclaim's first look. */
  function LookCall(s: State, p: Proc, flag: bool): State {
    match s.At(p)
    case Mkdir(k) =>
      if s.dir then s.Go(p, LookExists(InClaim(k)))
      else s.(dir := true, files := {}, link := None).Go(p, SetMode(k))
    case SetMode(k) => s.Go(p, if s.dir then OpenLock(ForClaim(k), 0) else Idle)
    case LookExists(probe) => s.Go(p, if s.dir then LookOpen(probe) else AfterLook(probe, false, false))
    case LookOpen(probe) =>
      (match s.link
       case None => s.Go(p, AfterLook(probe, false, flag))
       case Some(i) => s.Go(p, LookFlock(probe, i)))
    case LookFlock(probe, i) =>
      if CanLockShared(s, p, i) then s.(sh := s.sh + {(i, p)}).Go(p, LookClose(probe, i, false))
      else s.Go(p, LookClose(probe, i, true))
    case ReclaimExists(after) =>
      s.Go(p, if s.dir then OpenLock(ForReclaim(after), 0) else AfterReclaim(after, true))
    case _ => s
  }

  /** `try_lock`, and `lock_owner`'s retries: open, flock, and the check that the name still
      links to what was locked. */
  function LockCall(s: State, p: Proc, newInode: Inode): State {
    match s.At(p)
    case OpenLock(why, tries) =>
      if !s.dir then s.Go(p, AfterGone(why))
      else if s.link.None? then s.(link := Some(newInode)).Go(p, FlockLock(why, tries, newInode))
      else s.Go(p, FlockLock(why, tries, s.link.value))
    case FlockLock(why, tries, i) =>
      if CanLockExclusive(s, p, i) then s.(ex := s.ex[i := p]).Go(p, CheckLock(why, i))
      else s.Go(p, CloseFd(i, if tries < 20 then OpenLock(why, tries + 1) else Idle))
    case CheckLock(why, i) =>
      if s.link != Some(i) then s.Go(p, CloseFd(i, AfterGone(why)))
      else if why.ForClaim? then s.Go(p, Owner(i))
      else s.Go(p, SweepList(i, why.after))
    case _ => s
  }

  /** `sweep`: each file but the lock, then the lock, then the directory, all by path. */
  function SweepCall(s: State, p: Proc, name: string, flag: bool): State {
    match s.At(p)
    case SweepList(i, after) =>
      s.Go(p, if !s.dir then CloseFd(i, AfterReclaim(after, true))
              else if !flag then CloseFd(i, Idle)
              else SweepFiles(i, s.files, after))
    case SweepFiles(i, todo, after) =>
      if todo == {} then s.Go(p, SweepUnlink(i, after))
      else s.(files := if flag then s.files - {name} else s.files).Go(p, SweepFiles(i, todo - {name}, after))
    case SweepUnlink(i, after) => s.(link := if flag then None else s.link).Go(p, SweepRmdir(i, after))
    case SweepRmdir(i, after) =>
      if s.dir && s.link.None? && s.files == {}
      then s.(dir := false).Go(p, CloseFd(i, AfterReclaim(after, true)))
      else s.Go(p, CloseFd(i, AfterReclaim(after, !s.dir)))
    case _ => s
  }

  predicate Sweeping(pc: Pc) {
    pc.SweepList? || pc.SweepFiles? || pc.SweepUnlink? || pc.SweepRmdir?
  }

  predicate Locking(pc: Pc) {
    pc.OpenLock? || pc.FlockLock? || pc.CheckLock?
  }

  /** One system call. A flag that is false is a failure the code ignores or passes on. */
  function Step(s: State, p: Proc, a: Action): State {
    var pc := s.At(p);
    match a
    case BeginClaim => s.Go(p, Mkdir(0))
    case BeginProbe => s.Go(p, LookExists(StateOnly))
    case BeginReclaim => s.Go(p, ReclaimExists(Done))
    case Write(name) => if s.dir then s.(files := s.files + {name}) else s
    case Drop => if pc.Owner? then s.Go(p, SweepList(pc.fd, Done)) else s
    case Crash => (match Fd(pc) case Some(i) => s.Release(p, i) case None => s).Go(p, Idle)
    case Call(newInode, name, flag) =>
      if pc.LookClose? then s.Release(p, pc.fd).Go(p, AfterLook(pc.probe, pc.held, flag))
      else if pc.CloseFd? then s.Release(p, pc.fd).Go(p, pc.next)
      else if Locking(pc) then LockCall(s, p, newInode)
      else if Sweeping(pc) then SweepCall(s, p, name, flag)
      else LookCall(s, p, flag)
  }

  // ---- What every state of every run keeps ----

  /** Past its check: the process that may touch the entry, until it unlinks the lock itself. */
  predicate Verified(pc: Pc) {
    pc.Owner? || pc.SweepList? || pc.SweepFiles? || pc.SweepUnlink?
  }

  predicate Locked(pc: Pc) {
    Verified(pc) || pc.CheckLock? || pc.SweepRmdir?
  }

  /** What holds of each process: a locked one has its inode's exclusive flock, and a verified
      one's inode is the one the path names. */
  ghost predicate Keeps(s: State, p: Proc) {
    var pc := s.At(p);
    && (Locked(pc) ==> Fd(pc).value in s.ex && s.ex[Fd(pc).value] == p)
    && (Verified(pc) ==> s.dir && s.link == Fd(pc))
    && (pc.CloseFd? ==> Fd(pc.next) == None)
  }

  /** A flock is its holder's, who has the inode open. */
  ghost predicate HeldOpen(s: State) {
    forall i | i in s.ex :: Fd(s.At(s.ex[i])) == Some(i)
  }

  ghost predicate SharedOpen(s: State) {
    forall x | x in s.sh :: s.At(x.1).LookClose? && s.At(x.1).fd == x.0
  }

  ghost predicate Inv(s: State) {
    && (s.link.Some? || s.files != {} ==> s.dir)
    && HeldOpen(s)
    && SharedOpen(s)
    && forall p: Proc :: Keeps(s, p)
  }

  /** The path names the locked inode of the one process past its check. */
  lemma OneVerified(s: State, p: Proc, q: Proc)
    requires Inv(s) && Verified(s.At(p)) && Verified(s.At(q))
    ensures p == q
  {
    assert Keeps(s, p) && Keeps(s, q);
  }

  /** The flocks after a step of p: as they were, with p's taken on what it has open, or with it
      released. */
  predicate FlocksFollow(s: State, t: State, p: Proc) {
    var f := Fd(s.At(p));
    var holds := f.Some? && f.value in s.ex && s.ex[f.value] == p;
    || (t.ex == s.ex && (holds ==> Fd(t.At(p)) == f))
    || (f.Some? && Fd(t.At(p)) == f && (f.value in s.ex ==> holds) && t.ex == s.ex[f.value := p])
    || (holds && t.ex == s.ex - {f.value})
  }

  /** The same for its shared flock, which a look takes just before it closes. */
  predicate SharedFollow(s: State, t: State, p: Proc) {
    var f := Fd(s.At(p));
    || (t.sh == s.sh && !s.At(p).LookClose?)
    || (f.Some? && t.At(p).LookClose? && t.At(p).fd == f.value && t.sh == s.sh + {(f.value, p)})
    || (f.Some? && t.sh == s.sh - {(f.value, p)})
  }

  /** What p answers for when it goes from s to t. The directory and the lock's name are its own
      to change only past its check, or while no lock is there. */
  ghost predicate Guarantees(s: State, t: State, p: Proc) {
    && t.pcs == s.pcs[p := t.At(p)]
    && FlocksFollow(s, t, p)
    && SharedFollow(s, t, p)
    && ((t.dir == s.dir && t.link == s.link) || Verified(s.At(p)) || s.link.None?)
    && (t.link.Some? || t.files != {} ==> t.dir)
    && Keeps(t, p)
  }

  lemma NoneVerified(s: State, q: Proc)
    requires Inv(s) && s.link.None?
    ensures !Verified(s.At(q))
  {
    assert Keeps(s, q);
  }

  /** Rely and guarantee: a step that is p's own keeps every other process's part. */
  lemma GuaranteesKeepInv(s: State, t: State, p: Proc)
    requires Inv(s) && Guarantees(s, t, p)
    ensures Inv(t)
  {
    assert forall q: Proc | q != p :: t.At(q) == s.At(q);
    forall i | i in t.ex ensures Fd(t.At(t.ex[i])) == Some(i) {
      assert i in s.ex ==> Fd(s.At(s.ex[i])) == Some(i);
    }
    forall x | x in t.sh ensures t.At(x.1).LookClose? && t.At(x.1).fd == x.0 {
      if x in s.sh { assert s.At(x.1).LookClose?; }
    }
    forall q: Proc ensures Keeps(t, q) {
      if q != p {
        assert Keeps(s, q);
        if Verified(s.At(q)) {
          if Verified(s.At(p)) { OneVerified(s, p, q); }
          if s.link.None? { NoneVerified(s, q); }
        }
      }
    }
  }

  lemma LookGuarantees(s: State, p: Proc, flag: bool)
    requires Inv(s) && !Locking(s.At(p)) && !Sweeping(s.At(p)) && s.At(p) != Idle && !s.At(p).Owner?
    requires !s.At(p).LookClose? && !s.At(p).CloseFd?
    ensures Guarantees(s, LookCall(s, p, flag), p)
  {
    assert Keeps(s, p);
    hide Inv;
  }

  lemma OpenGuarantees(s: State, p: Proc, i: Inode)
    requires Inv(s) && s.At(p).OpenLock?
    ensures Guarantees(s, LockCall(s, p, i), p)
  {
    assert Keeps(s, p);
    hide Inv;
  }

  lemma FlockGuarantees(s: State, p: Proc, i: Inode)
    requires Inv(s) && s.At(p).FlockLock?
    ensures Guarantees(s, LockCall(s, p, i), p)
  {
    assert Keeps(s, p);
    hide Inv;
  }

  lemma CheckGuarantees(s: State, p: Proc, i: Inode)
    requires Inv(s) && s.At(p).CheckLock?
    ensures Guarantees(s, LockCall(s, p, i), p)
  {
    assert Keeps(s, p);
    hide Inv;
  }

  lemma SweepGuarantees(s: State, p: Proc, name: string, flag: bool)
    requires Inv(s) && Sweeping(s.At(p))
    ensures Guarantees(s, SweepCall(s, p, name, flag), p)
  {
    assert Keeps(s, p);
    hide Inv;
  }

  lemma ReleaseGuarantees(s: State, p: Proc, i: Inode, pc: Pc)
    requires Inv(s) && Fd(s.At(p)) == Some(i) && Fd(pc).None?
    ensures Guarantees(s, s.Release(p, i).Go(p, pc), p)
  {
    assert Keeps(s, p);
    hide Inv;
  }

  lemma StepGuarantees(s: State, p: Proc, a: Action)
    requires Inv(s) && Enabled(s, p, a)
    ensures Guarantees(s, Step(s, p, a), p)
  {
    var pc := s.At(p);
    assert Keeps(s, p);
    hide Inv, LookCall, LockCall, SweepCall;
    if a.Call? {
      hide Guarantees;
      if pc.LookClose? { ReleaseGuarantees(s, p, pc.fd, AfterLook(pc.probe, pc.held, a.flag)); }
      else if pc.CloseFd? { ReleaseGuarantees(s, p, pc.fd, pc.next); }
      else if pc.OpenLock? { OpenGuarantees(s, p, a.inode); }
      else if pc.FlockLock? { FlockGuarantees(s, p, a.inode); }
      else if pc.CheckLock? { CheckGuarantees(s, p, a.inode); }
      else if Sweeping(pc) { SweepGuarantees(s, p, a.name, a.flag); }
      else { LookGuarantees(s, p, a.flag); }
    } else if a.Crash? && Fd(pc).Some? {
      hide Guarantees;
      ReleaseGuarantees(s, p, Fd(pc).value, Idle);
    }
  }

  // ---- Runs ----

  datatype Move = Move(p: Proc, a: Action)

  ghost predicate Possible(s: State, moves: seq<Move>)
    decreases |moves|
  {
    moves == [] ||
    (Enabled(s, moves[0].p, moves[0].a) && Possible(Step(s, moves[0].p, moves[0].a), moves[1..]))
  }

  function Final(s: State, moves: seq<Move>): State
    decreases |moves|
  {
    if moves == [] then s else Final(Step(s, moves[0].p, moves[0].a), moves[1..])
  }

  /** No entry, and nobody doing anything. */
  const INIT := State(false, None, {}, map[], {}, map[])

  lemma {:induction false} RunKeepsInv(s: State, moves: seq<Move>)
    requires Inv(s) && Possible(s, moves)
    ensures Inv(Final(s, moves))
    decreases |moves|
  {
    if moves != [] {
      var (p, a) := (moves[0].p, moves[0].a);
      StepGuarantees(s, p, a);
      GuaranteesKeepInv(s, Step(s, p, a), p);
      RunKeepsInv(Step(s, p, a), moves[1..]);
    }
  }

  /** In every interleaving at most one process holds a handle. */
  lemma AtMostOneHandle(moves: seq<Move>, p: Proc, q: Proc)
    requires Possible(INIT, moves)
    requires Final(INIT, moves).At(p).Owner? && Final(INIT, moves).At(q).Owner?
    ensures p == q
  {
    RunKeepsInv(INIT, moves);
    OneVerified(Final(INIT, moves), p, q);
  }

  /** The lock path names the inode that the handle's holder has locked. */
  lemma LockPathNamesTheHolder(moves: seq<Move>, p: Proc)
    requires Possible(INIT, moves) && Final(INIT, moves).At(p).Owner?
    ensures var s := Final(INIT, moves); var i := s.At(p).fd;
            s.dir && s.link == Some(i) && i in s.ex && s.ex[i] == p
  {
    RunKeepsInv(INIT, moves);
    assert Keeps(Final(INIT, moves), p);
  }

  /** However the others run on, and whoever of them reclaims, sweeps or crashes, an entry stays
      as its holder left it until the holder itself moves. */
  lemma {:induction false} OthersLeaveTheEntryAlone(s: State, moves: seq<Move>, p: Proc)
    requires Inv(s) && Possible(s, moves) && s.At(p).Owner?
    requires forall k | 0 <= k < |moves| :: moves[k].p != p
    ensures var t := Final(s, moves);
            && t.dir && t.link == s.link == Some(s.At(p).fd) && t.files == s.files
            && t.At(p) == s.At(p) && s.At(p).fd in t.ex && t.ex[s.At(p).fd] == p
    decreases |moves|
  {
    if moves == [] {
      assert Keeps(s, p);
    } else {
      var (q, a) := (moves[0].p, moves[0].a);
      var t := Step(s, q, a);
      StepGuarantees(s, q, a);
      GuaranteesKeepInv(s, t, q);
      OneStepLeavesIt(s, q, a, p);
      OthersLeaveTheEntryAlone(t, moves[1..], p);
    }
  }

  lemma OneStepLeavesIt(s: State, q: Proc, a: Action, p: Proc)
    requires Inv(s) && Enabled(s, q, a) && s.At(p).Owner? && q != p
    ensures var t := Step(s, q, a); t.dir == s.dir && t.link == s.link && t.files == s.files && t.At(p) == s.At(p)
  {
    assert Keeps(s, p) && Keeps(s, q);
    if Verified(s.At(q)) { OneVerified(s, p, q); }
    hide Inv;
  }

  /** A sweep takes a file only while no other process holds a handle, and none is left holding
      one when the lock's name or the directory goes. */
  lemma OnlyTheSweeperRemoves(s: State, p: Proc, a: Action, q: Proc)
    requires Inv(s) && Enabled(s, p, a) && q != p
    requires var t := Step(s, p, a);
             !(s.files <= t.files) || (s.link.Some? && t.link != s.link) || (s.dir && !t.dir)
    ensures Sweeping(s.At(p)) && !s.At(q).Owner?
  {
    assert Keeps(s, p) && Keeps(s, q);
    if s.At(q).Owner? { OneStepLeavesIt(s, p, a, q); }
    hide Inv;
  }

  // ---- A claim that meets nobody wins ----

  ghost predicate Alone(s: State, p: Proc) {
    forall q: Proc | q != p :: s.At(q) == Idle
  }

  predicate Claims(why: Why) {
    why.ForClaim? || why == ForReclaim(ThenClaim)
  }

  /** Where a claim that meets nobody can be: what holds of the entry at each of its calls. */
  predicate OnCourse(s: State, p: Proc) {
    match s.At(p)
    case Mkdir(k) => k == 0 || !s.dir
    case SetMode(_) => s.dir
    case LookExists(probe) => s.dir && probe == InClaim(0)
    case LookOpen(probe) => s.dir && probe == InClaim(0)
    case LookFlock(probe, _) => s.dir && probe == InClaim(0)
    case LookClose(probe, _, held) => s.dir && probe == InClaim(0) && !held
    case ReclaimExists(after) => s.dir && after == ThenClaim
    case OpenLock(why, _) => s.dir && Claims(why)
    case FlockLock(why, _, i) => s.dir && s.link == Some(i) && Claims(why)
    case CheckLock(why, i) => s.dir && s.link == Some(i) && Claims(why)
    case Owner(_) => true
    case SweepList(_, after) => s.dir && after == ThenClaim
    case SweepFiles(_, todo, after) => s.dir && s.files <= todo && after == ThenClaim
    case SweepUnlink(_, after) => s.dir && s.files == {} && after == ThenClaim
    case SweepRmdir(_, after) => s.dir && s.files == {} && s.link.None? && after == ThenClaim
    case CloseFd(_, next) => next == Mkdir(1) && !s.dir
    case Idle => false
  }

  function Locks(why: Why, files: nat): nat {
    if why.ForClaim? then 0 else 10 + files
  }

  /** The calls it is from its handle. */
  function Calls(s: State, p: Proc): nat {
    var n := |s.files|;
    match s.At(p)
    case Owner(_) => 0
    case CheckLock(why, _) => 1 + Locks(why, n)
    case FlockLock(why, _, _) => 2 + Locks(why, n)
    case OpenLock(why, _) => 3 + Locks(why, n)
    case SetMode(_) => 4
    case Mkdir(_) => if !s.dir then 5 else if s.link.Some? then 19 + n else 17 + n
    case CloseFd(_, _) => 6
    case SweepRmdir(_, _) => 7
    case SweepUnlink(_, _) => 8
    case SweepFiles(_, todo, _) => 9 + |todo|
    case SweepList(_, _) => 10 + n
    case ReclaimExists(_) => 14 + n
    case LookClose(_, _, _) => 15 + n
    case LookFlock(_, _) => 16 + n
    case LookOpen(_) => if s.link.Some? then 17 + n else 15 + n
    case LookExists(_) => if s.link.Some? then 18 + n else 16 + n
    case Idle => 0
  }

  /** A call, with no failure of a sweep's removals. */
  predicate Clean(s: State, p: Proc, a: Action) {
    a.Call? && (Sweeping(s.At(p)) ==> a.flag)
  }

  /** With nobody else there, no flock stands in p's way. */
  lemma NothingLocked(s: State, p: Proc)
    requires Inv(s) && Alone(s, p) && !s.At(p).LookClose?
    ensures (forall i | i in s.ex :: s.ex[i] == p) && s.sh == {}
  {}

  ghost predicate Nearer(s: State, t: State, p: Proc) {
    OnCourse(t, p) && Calls(t, p) + 1 == Calls(s, p)
  }

  lemma IsNearer(s: State, t: State, p: Proc)
    requires Nearer(s, t, p)
    ensures OnCourse(t, p) && Calls(t, p) + 1 == Calls(s, p)
  {}

  lemma LoneLook(s: State, p: Proc, flag: bool)
    requires OnCourse(s, p) && !Locking(s.At(p)) && !Sweeping(s.At(p)) && !s.At(p).Owner?
    requires !s.At(p).LookClose? && !s.At(p).CloseFd? && (forall i | i in s.ex :: s.ex[i] == p)
    ensures Nearer(s, LookCall(s, p, flag), p)
  {}

  lemma LoneLock(s: State, p: Proc, i: Inode)
    requires OnCourse(s, p) && Locking(s.At(p)) && (forall i | i in s.ex :: s.ex[i] == p) && s.sh == {}
    ensures Nearer(s, LockCall(s, p, i), p)
  {}

  lemma LoneSweep(s: State, p: Proc, name: string)
    requires OnCourse(s, p) && Sweeping(s.At(p)) && (s.At(p).SweepFiles? && s.At(p).todo != {} ==> name in s.At(p).todo)
    ensures Nearer(s, SweepCall(s, p, name, true), p)
  {}

  lemma LoneClose(s: State, p: Proc, flag: bool)
    requires OnCourse(s, p) && (s.At(p).LookClose? || s.At(p).CloseFd?)
    ensures Nearer(s, Step(s, p, Call(0, "", flag)), p)
  {
    hide LookCall, LockCall, SweepCall;
  }

  /** Each call of a claim alone is on its course and one nearer its handle, whatever the kernel
      chooses. */
  lemma LoneCall(s: State, p: Proc, a: Action)
    requires Inv(s) && Alone(s, p) && OnCourse(s, p) && Enabled(s, p, a) && Clean(s, p, a)
    ensures Nearer(s, Step(s, p, a), p)
  {
    hide LookCall, LockCall, SweepCall, Nearer, Inv, Alone, OnCourse;
    var pc := s.At(p);
    if pc.LookClose? || pc.CloseFd? {
      LoneClose(s, p, a.flag);
    } else {
      NothingLocked(s, p);
      if Locking(pc) { LoneLock(s, p, a.inode); }
      else if Sweeping(pc) { LoneSweep(s, p, a.name); }
      else { LoneLook(s, p, a.flag); }
    }
  }

  lemma LoneStays(s: State, p: Proc, a: Action)
    requires Inv(s) && Alone(s, p) && Enabled(s, p, a)
    ensures Inv(Step(s, p, a)) && Alone(Step(s, p, a), p)
  {
    var t := Step(s, p, a);
    StepGuarantees(s, p, a);
    GuaranteesKeepInv(s, t, p);
    hide Inv, Step, Enabled;
    assert forall q: Proc | q != p :: t.At(q) == s.At(q);
  }

  ghost predicate LoneRun(s: State, p: Proc, moves: seq<Move>)
    decreases |moves|
  {
    moves == [] ||
    (&& moves[0].p == p && Enabled(s, p, moves[0].a) && Clean(s, p, moves[0].a)
     && LoneRun(Step(s, p, moves[0].a), p, moves[1..]))
  }

  lemma {:induction false} LoneRunGoes(s: State, p: Proc, moves: seq<Move>)
    requires Inv(s) && Alone(s, p) && OnCourse(s, p) && LoneRun(s, p, moves)
    ensures var t := Final(s, moves); OnCourse(t, p) && Calls(t, p) + |moves| == Calls(s, p)
    ensures Inv(Final(s, moves)) && Alone(Final(s, moves), p)
    decreases |moves|
  {
    hide Inv, Alone, OnCourse, Calls, Step, Enabled, Clean;
    if moves != [] {
      LoneCall(s, p, moves[0].a);
      IsNearer(s, Step(s, p, moves[0].a), p);
      LoneStays(s, p, moves[0].a);
      LoneRunGoes(Step(s, p, moves[0].a), p, moves[1..]);
    }
  }

  lemma NoCallsLeft(s: State, p: Proc)
    requires OnCourse(s, p)
    ensures Calls(s, p) == 0 <==> s.At(p).Owner?
  {}

  /** A call is always possible until the handle is held. */
  lemma CanGoOn(s: State, p: Proc) returns (a: Action)
    requires Inv(s) && Alone(s, p) && OnCourse(s, p) && !s.At(p).Owner?
    ensures Enabled(s, p, a) && Clean(s, p, a)
  {
    var pc := s.At(p);
    var i := if s.link == Some(0) then 1 else 0;
    assert pc.OpenLock? ==> Fresh(s, i);
    hide Inv, Alone;
    if pc.SweepFiles? && pc.todo != {} {
      var f :| f in pc.todo;
      a := Call(i, f, true);
    } else {
      a := Call(i, "", true);
    }
  }

  /** With nobody else at work every claim gets the handle, whatever a crash left of the entry and
      whatever the kernel chooses: each of its runs holds it after exactly so many calls, none goes
      wrong before, and none stops short. */
  lemma LoneClaimWins(s: State, p: Proc, moves: seq<Move>)
    requires Inv(s) && (forall q: Proc :: s.At(q) == Idle) && LoneRun(Step(s, p, BeginClaim), p, moves)
    ensures var t := Step(s, p, BeginClaim); var u := Final(t, moves);
            && |moves| <= Calls(t, p) && (u.At(p).Owner? <==> |moves| == Calls(t, p))
            && (!u.At(p).Owner? ==> exists a :: Enabled(u, p, a) && Clean(u, p, a))
  {
    var t := Step(s, p, BeginClaim);
    assert Alone(s, p);
    LoneStays(s, p, BeginClaim);
    assert OnCourse(t, p);
    hide Inv, Alone, OnCourse, Calls, Step, Enabled, Clean, LoneRun;
    LoneRunGoes(t, p, moves);
    var u := Final(t, moves);
    NoCallsLeft(u, p);
    if !u.At(p).Owner? { var a := CanGoOn(u, p); }
  }
}
