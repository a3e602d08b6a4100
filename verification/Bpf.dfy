/** Classic BPF as a seccomp filter uses it: one accumulator, absolute word loads from
    `struct seccomp_data`, forward conditional jumps with one-byte offsets, and `ret`. */
module Bpf {
  import opened Bytes
  import opened Wrappers

  datatype Test = Eq | Gt | Ge | AnyBit

  datatype Instr =
    | Load(at: u32)
    | Jump(test: Test, k: u32, jt: u8, jf: u8)
    | Ret(k: u32)

  /** A 64-bit word as the two little-endian halves a filter can load. */
  datatype Word = Word(lo: u32, hi: u32)

  /** `struct seccomp_data`: the number at offset 0, the architecture at 4, the instruction
      address at 8 and the six arguments from 16. */
  datatype CallData = CallData(nr: u32, arch: u32, ip: Word, args: seq<Word>)
  type Call = c: CallData | |c.args| == 6
    witness CallData(0, 0, Word(0, 0), [Word(0, 0), Word(0, 0), Word(0, 0), Word(0, 0), Word(0, 0), Word(0, 0)])

  function Fetch(d: Call, at: u32): Option<u32> {
    if at % 4 != 0 || at >= 64 then None
    else if at == 0 then Some(d.nr)
    else if at == 4 then Some(d.arch)
    else if at == 8 then Some(d.ip.lo)
    else if at == 12 then Some(d.ip.hi)
    else if (at - 16) % 8 == 0 then Some(d.args[(at - 16) / 8].lo)
    else Some(d.args[(at - 20) / 8].hi)
  }

  function BitAnd(a: nat, b: nat): nat {
    if a == 0 || b == 0 then 0
    else 2 * BitAnd(a / 2, b / 2) + (if a % 2 == 1 && b % 2 == 1 then 1 else 0)
  }

  predicate Holds(t: Test, acc: u32, k: u32) {
    match t
    case Eq => acc == k
    case Gt => acc > k
    case Ge => acc >= k
    case AnyBit => BitAnd(acc, k) != 0
  }

  /** What the filter returns from instruction `pc` on; None for a load or a jump outside the
      data or the program, which the kernel's checker refuses. */
  function Run(p: seq<Instr>, pc: nat, acc: u32, d: Call): Option<u32>
    decreases |p| - pc
  {
    if pc >= |p| then None
    else match p[pc]
      case Load(at) =>
        var w := Fetch(d, at);
        if w.None? then None else Run(p, pc + 1, w.value, d)
      case Jump(t, k, jt, jf) => Run(p, pc + 1 + (if Holds(t, acc, k) then jt else jf), acc, d)
      case Ret(k) => Some(k)
  }

  /** `block` stands in `p` at `pc`. */
  ghost predicate At(p: seq<Instr>, pc: nat, block: seq<Instr>) {
    pc + |block| <= |p| && forall i {:trigger block[i]} | 0 <= i < |block| :: p[pc + i] == block[i]
  }

  lemma AtWhole(p: seq<Instr>)
    ensures At(p, 0, p)
  {}

  lemma AtIndex(p: seq<Instr>, pc: nat, block: seq<Instr>, i: nat)
    requires At(p, pc, block) && i < |block|
    ensures pc + i < |p| && p[pc + i] == block[i]
  {}

  lemma AtParts(p: seq<Instr>, pc: nat, a: seq<Instr>, b: seq<Instr>)
    requires At(p, pc, a + b)
    ensures At(p, pc, a) && At(p, pc + |a|, b)
  {
    forall i | 0 <= i < |a| ensures p[pc + i] == a[i] { assert (a + b)[i] == a[i]; }
    forall i | 0 <= i < |b| ensures p[pc + |a| + i] == b[i] { assert (a + b)[|a| + i] == b[i]; }
  }

  /** A guarded block, `jeq nr, 0, |body|` and then the body: another number skips it. */
  lemma Guarded(p: seq<Instr>, pc: nat, nr: u32, body: seq<Instr>, acc: u32, d: Call)
    requires |body| <= 255 && At(p, pc, [Jump(Eq, nr, 0, |body|)] + body)
    ensures At(p, pc + 1, body)
    ensures Run(p, pc, acc, d) == Run(p, if acc == nr then pc + 1 else pc + 1 + |body|, acc, d)
  {
    hide At;
    AtParts(p, pc, [Jump(Eq, nr, 0, |body|)], body);
    AtIndex(p, pc, [Jump(Eq, nr, 0, |body|)], 0);
  }
}
