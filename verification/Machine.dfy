/**
 A hart as a generated program sees it. Addresses, memory, control flow and the
 operations that build addresses are exact; what any other instruction computes is
 left open, so whatever holds of every run here holds of every real one.
 */
module Machine {
  import opened Wrappers
  import opened Encoding
  import opened Compressed

  const U64: nat := 0x1_0000_0000_0000_0000
  const BASE: nat := 0x8000_0000
  const SCRATCH_OFF: nat := 0x2000
  const PAGE: nat := 0x1000
  const IMAGE_LEN: nat := 0x3000

  type Regs = Reg -> nat

  datatype State = State(pc: nat, regs: Regs, mem: seq<bv8>)

  type Doubleword = d: seq<bv8> | |d| == 8 witness [0, 0, 0, 0, 0, 0, 0, 0]

  /** The little-endian doubleword at an offset. */
  function DoublewordAt(mem: seq<bv8>, off: nat): (v: nat)
    requires off + 8 <= |mem|
    ensures v < U64
  {
    LowWordAt(mem, off) + 0x1_0000_0000 * LowWordAt(mem, off + 4)
  }

  function LowWordAt(mem: seq<bv8>, off: nat): (v: nat)
    requires off + 4 <= |mem|
    ensures v < 0x1_0000_0000
  {
    Number(mem[off]) + 0x100 * Number(mem[off + 1]) + 0x1_0000 * Number(mem[off + 2]) + 0x100_0000 * Number(mem[off + 3])
  }

  function Number(b: bv8): (v: nat)
    ensures v < 0x100
  {
    b as nat
  }

  /** What one step leaves open: a computed value, a condition, and bytes to store. */
  datatype Open = Open(value: nat, flag: bool, data: Doubleword)

  function Wrap(n: int): (r: nat)
    ensures r < U64 && (0 <= n < U64 ==> r == n)
  {
    n % U64
  }

  function Signed(imm: bv32): int {
    if imm < 0x8000_0000 then imm as int else imm as int - 0x1_0000_0000
  }

  /** Bitwise and. */
  function And(a: nat, b: nat): nat {
    if a == 0 || b == 0 then 0 else a % 2 * (b % 2) + 2 * And(a / 2, b / 2)
  }

  function Get(regs: Regs, r: Reg): (v: nat)
    ensures v < U64
  {
    if r == 0 then 0 else regs(r) % U64
  }

  function Set(regs: Regs, r: Reg, v: nat): Regs {
    (x: Reg) => if x == r then v else regs(x)
  }

  // ---- instructions in memory ----

  /** An emitted instruction: a word, or a halfword in its low half. */
  datatype Ins = Word(word: bv32) | Half(half: bv16)

  function Size(i: Ins): nat { if i.Word? then 4 else 2 }

  function BytesOf(i: Ins): (b: seq<bv8>)
    ensures |b| == Size(i)
  {
    match i
    case Word(w) => [(w & 0xFF) as bv8, ((w >> 8) & 0xFF) as bv8, ((w >> 16) & 0xFF) as bv8, ((w >> 24) & 0xFF) as bv8]
    case Half(h) => [(h & 0xFF) as bv8, ((h >> 8) & 0xFF) as bv8]
  }

  function Decoded(i: Ins): Option<Instr> {
    match i
    case Word(w) => if w & 3 == 3 then Decode(w) else None
    case Half(h) => DecodeC(h)
  }

  /** What an instruction does, so far as addresses, memory and control flow go. */
  datatype Action =
    | Compute(rd: Reg)                               // any result at all
    | AddPc(rd: Reg, imm: int)
    | AddImm(rd: Reg, rs1: Reg, imm: int)
    | AndImm(rd: Reg, rs1: Reg, imm: int)
    | AddRegs(rd: Reg, rs1: Reg, rs2: Reg)
    | Load(rd: Reg, rs1: Reg, imm: int, w: nat)
    | Store(rs1: Reg, imm: int, w: nat)
    | Atomic(rd: Reg, rs1: Reg, f5: bv5, w: nat)
    | Branch(imm: int)
    | Jump(rd: Reg, imm: int)
    | JumpReg(rd: Reg, rs1: Reg, imm: int)
    | WriteCsr(csr: bv32, rs1: Reg)
    | Nothing
    | Trap

  function Width(f3: bv3): (w: nat)
    ensures w == 1 || w == 2 || w == 4 || w == 8
  {
    if f3 & 3 == 0 then 1 else if f3 & 3 == 1 then 2 else if f3 & 3 == 2 then 4 else 8
  }

  function ActionOf(i: Instr): Action {
    match i
    case Lui(rd, _) => Compute(rd)
    case Auipc(rd, imm) => AddPc(rd, Signed(imm << 12))
    case OpImm(f3, rd, rs1, imm) =>
      if f3 == 0 then AddImm(rd, rs1, Signed(imm)) else if f3 == 7 then AndImm(rd, rs1, Signed(imm)) else Compute(rd)
    case OpImm32(_, rd, _, _) => Compute(rd)
    case Op(f3, f7, rd, rs1, rs2) => if f3 == 0 && f7 == 0 then AddRegs(rd, rs1, rs2) else Compute(rd)
    case Op32(_, _, rd, _, _) => Compute(rd)
    case Load(f3, rd, rs1, imm) => Action.Load(rd, rs1, Signed(imm), Width(f3))
    case Store(f3, rs1, _, imm) => Action.Store(rs1, Signed(imm), Width(f3))
    case Amo(f5, f3, rd, rs1, _) => Atomic(rd, rs1, f5, Width(f3))
    case Branch(_, _, _, imm) => Action.Branch(Signed(imm))
    case Jal(rd, imm) => Jump(rd, Signed(imm))
    case Jalr(rd, rs1, imm) => JumpReg(rd, rs1, Signed(imm))
    case CsrWrite(csr, rs1) => WriteCsr(csr, rs1)
    case Fence => Nothing
    case Ecall => Trap
  }

  function Meaning(i: Ins): Option<Action> {
    match Decoded(i) case Some(what) => Some(ActionOf(what)) case None => None
  }

  function HalfAt(mem: seq<bv8>, off: nat): bv16
    requires off + 2 <= |mem|
  {
    (mem[off] as bv16) | ((mem[off + 1] as bv16) << 8)
  }

  function WordAt(mem: seq<bv8>, off: nat): bv32
    requires off + 4 <= |mem|
  {
    (mem[off] as bv32) | ((mem[off + 1] as bv32) << 8) | ((mem[off + 2] as bv32) << 16) | ((mem[off + 3] as bv32) << 24)
  }

  /** The instruction at an offset, and its length. */
  function Fetch(mem: seq<bv8>, off: nat): Option<(Action, nat)> {
    if off + 2 > |mem| then None
    else if HalfAt(mem, off) & 3 != 3 then
      match DecodeC(HalfAt(mem, off)) case Some(i) => Some((ActionOf(i), 2)) case None => None
    else if off + 4 > |mem| then None
    else
      match Decode(WordAt(mem, off)) case Some(i) => Some((ActionOf(i), 4)) case None => None
  }

  /** An emitted instruction is at this offset. */
  predicate InsAt(mem: seq<bv8>, off: nat, i: Ins) {
    off + Size(i) <= |mem| && mem[off..off + Size(i)] == BytesOf(i)
  }

  /** An instruction set: when an emitted instruction is in memory, what it means, and how memory is read as instructions. */
  datatype Isa = Isa(at: (seq<bv8>, nat, Ins) -> bool, meaning: Ins -> Option<Action>, fetch: (seq<bv8>, nat) -> Option<(Action, nat)>)

  const RV64GC: Isa := Isa(InsAt, Meaning, Fetch)

  ghost predicate OnlyScratch(mem: seq<bv8>, mem': seq<bv8>) {
    |mem'| == |mem| && forall k :: 0 <= k < |mem| && !(SCRATCH_OFF <= k < SCRATCH_OFF + PAGE) ==> mem'[k] == mem[k]
  }

  /** What was emitted is what is fetched, and code below the scratch page stays as long as only that page changes. */
  ghost predicate Sound(isa: Isa) {
    && (forall mem, off: nat, i {:trigger isa.at(mem, off, i), isa.meaning(i)} :: isa.at(mem, off, i) && isa.meaning(i).Some? ==>
          isa.fetch(mem, off) == Some((isa.meaning(i).value, Size(i))))
    && (forall mem, mem', off: nat, i {:trigger OnlyScratch(mem, mem'), isa.at(mem', off, i)} ::
          isa.at(mem, off, i) && OnlyScratch(mem, mem') && off + Size(i) <= SCRATCH_OFF ==> isa.at(mem', off, i))
  }

  lemma {:induction false} WordBack(w: bv32)
    ensures ((w & 0xFF) as bv8 as bv32) | (((w >> 8) & 0xFF) as bv8 as bv32 << 8) | (((w >> 16) & 0xFF) as bv8 as bv32 << 16) | (((w >> 24) & 0xFF) as bv8 as bv32 << 24) == w
    ensures (((w & 0xFF) as bv8 as bv16) | (((w >> 8) & 0xFF) as bv8 as bv16 << 8)) & 3 == 3 <==> w & 3 == 3
  {
  }

  lemma {:induction false} HalfBack(h: bv16)
    ensures ((h & 0xFF) as bv8 as bv16) | (((h >> 8) & 0xFF) as bv8 as bv16 << 8) == h
  {
  }

  lemma {:induction false} NotAWord(h: bv16)
    ensures DecodeC(h).Some? ==> h & 3 != 3
  {
  }

  lemma {:induction false} BytesThere(mem: seq<bv8>, off: nat, i: Ins, k: nat)
    requires InsAt(mem, off, i) && k < Size(i)
    ensures mem[off + k] == BytesOf(i)[k]
  {
    assert mem[off..off + Size(i)][k] == mem[off + k];
  }

  lemma {:induction false} WordThere(mem: seq<bv8>, off: nat, w: bv32)
    requires InsAt(mem, off, Word(w))
    ensures WordAt(mem, off) == w && (HalfAt(mem, off) & 3 == 3 <==> w & 3 == 3)
  {
    BytesThere(mem, off, Word(w), 0);
    BytesThere(mem, off, Word(w), 1);
    BytesThere(mem, off, Word(w), 2);
    BytesThere(mem, off, Word(w), 3);
    WordBack(w);
  }

  lemma {:induction false} HalfThere(mem: seq<bv8>, off: nat, h: bv16)
    requires InsAt(mem, off, Half(h))
    ensures HalfAt(mem, off) == h
  {
    BytesThere(mem, off, Half(h), 0);
    BytesThere(mem, off, Half(h), 1);
    HalfBack(h);
  }

  lemma {:induction false} FetchBack(mem: seq<bv8>, off: nat, i: Ins)
    requires InsAt(mem, off, i) && Meaning(i).Some?
    ensures Fetch(mem, off) == Some((Meaning(i).value, Size(i)))
  {
    match i {
      case Word(w) => WordThere(mem, off, w);
      case Half(h) =>
        HalfThere(mem, off, h);
        NotAWord(h);
    }
  }

  lemma {:induction false} SameInstruction(mem: seq<bv8>, mem': seq<bv8>, off: nat, i: Ins)
    requires InsAt(mem, off, i) && OnlyScratch(mem, mem') && off + Size(i) <= SCRATCH_OFF
    ensures InsAt(mem', off, i)
  {
    assert mem'[off..off + Size(i)] == mem[off..off + Size(i)];
  }

  lemma {:induction false} RealIsSound()
    ensures Sound(RV64GC)
  {
    forall mem, off: nat, i | RV64GC.at(mem, off, i) && RV64GC.meaning(i).Some?
      ensures RV64GC.fetch(mem, off) == Some((RV64GC.meaning(i).value, Size(i))) {
      FetchBack(mem, off, i);
    }
    forall mem, mem', off: nat, i | RV64GC.at(mem, off, i) && OnlyScratch(mem, mem') && off + Size(i) <= SCRATCH_OFF ensures RV64GC.at(mem', off, i) {
      SameInstruction(mem, mem', off, i);
    }
  }

  // ---- one step ----

  /** The memory operand an action is about to use. */
  function OperandOf(regs: Regs, i: Action): Option<(nat, nat)> {
    match i
    case Load(_, rs1, imm, w) => Some((Wrap(Get(regs, rs1) + imm), w))
    case Store(rs1, imm, w) => Some((Wrap(Get(regs, rs1) + imm), w))
    case Atomic(_, rs1, _, w) => Some((Get(regs, rs1), w))
    case _ => None
  }

  predicate Accessible(mem: seq<bv8>, at: (nat, nat)) {
    0 < at.1 <= 8 && at.0 % at.1 == 0 && BASE <= at.0 && at.0 + at.1 <= BASE + |mem|
  }

  function Stored(mem: seq<bv8>, at: (nat, nat), data: Doubleword): (r: seq<bv8>)
    requires Accessible(mem, at)
    ensures |r| == |mem|
    ensures forall k :: 0 <= k < |mem| && !(at.0 <= BASE + k < at.0 + at.1) ==> r[k] == mem[k]
  {
    mem[..at.0 - BASE] + data[..at.1] + mem[at.0 - BASE + at.1..]
  }

  /** A load-reserved never stores, and a store-conditional need not. */
  function Writes(i: Action, c: Open): bool {
    i.Store? || (i.Atomic? && i.f5 != 2 && (i.f5 == 3 ==> c.flag))
  }

  /** What goes to the destination register. */
  function ResultOf(s: State, i: Action, len: nat, c: Open): nat {
    match i
    case AddPc(_, imm) => Wrap(s.pc + imm)
    case AddImm(_, rs1, imm) => Wrap(Get(s.regs, rs1) + imm)
    case AndImm(_, rs1, imm) => And(Get(s.regs, rs1), Wrap(imm))
    case AddRegs(_, rs1, rs2) => Wrap(Get(s.regs, rs1) + Get(s.regs, rs2))
    case Jump(_, _) => Wrap(s.pc + len)
    case JumpReg(_, _, _) => Wrap(s.pc + len)
    case Load(_, rs1, imm, w) =>
      var a := Wrap(Get(s.regs, rs1) + imm);
      if w == 8 && Accessible(s.mem, (a, w)) then DoublewordAt(s.mem, a - BASE) else c.value
    case _ => c.value
  }

  function NextPc(s: State, i: Action, len: nat, c: Open): nat {
    match i
    case Branch(imm) => if c.flag then Wrap(s.pc + imm) else Wrap(s.pc + len)
    case Jump(_, imm) => Wrap(s.pc + imm)
    case JumpReg(_, rs1, imm) => var t := Wrap(Get(s.regs, rs1) + imm); t - t % 2
    case _ => Wrap(s.pc + len)
  }

  function NextRegs(s: State, i: Action, len: nat, c: Open): Regs {
    if i.Store? || i.Branch? || i.WriteCsr? || i.Nothing? || i.Trap? then s.regs else Set(s.regs, i.rd, ResultOf(s, i, len, c))
  }

  /** One instruction; `None` when it traps. */
  function Execute(s: State, i: Action, len: nat, c: Open): Option<State> {
    var at := OperandOf(s.regs, i);
    if i.Trap? || (at.Some? && !Accessible(s.mem, at.value)) then None
    else
      Some(State(NextPc(s, i, len, c), NextRegs(s, i, len, c),
                 if at.Some? && Writes(i, c) then Stored(s.mem, at.value, c.data) else s.mem))
  }

  function Step(isa: Isa, s: State, c: Open): Option<State> {
    if s.pc < BASE || s.pc % 2 != 0 then None
    else
      match isa.fetch(s.mem, s.pc - BASE)
      case None => None
      case Some((i, len)) => Execute(s, i, len, c)
  }

  // ---- safe runs ----

  ghost predicate InScratch(at: (nat, nat)) {
    at.1 > 0 && at.0 % at.1 == 0 && BASE + SCRATCH_OFF <= at.0 && at.0 + at.1 <= BASE + SCRATCH_OFF + PAGE
  }

  /** The memory operand the next instruction uses, if any, is aligned and in the scratch page. */
  ghost predicate OperandSafe(isa: Isa, s: State) {
    s.pc >= BASE && isa.fetch(s.mem, s.pc - BASE).Some? ==>
      var at := OperandOf(s.regs, isa.fetch(s.mem, s.pc - BASE).value.0);
      at.Some? ==> InScratch(at.value)
  }

  ghost predicate SafeStep(isa: Isa, s: State, c: Open, s': State) {
    OperandSafe(isa, s) && Step(isa, s, c) == Some(s') && OnlyScratch(s.mem, s'.mem)
  }

  /** A run in which no step traps or touches memory outside the scratch page. */
  ghost predicate Safe(isa: Isa, os: nat -> Open, t: nat, run: seq<State>) {
    run != [] && forall k :: 0 <= k < |run| - 1 ==> SafeAt(isa, os, t, run, k)
  }

  ghost predicate SafeAt(isa: Isa, os: nat -> Open, t: nat, run: seq<State>, k: nat)
    requires k + 1 < |run|
  {
    SafeStep(isa, run[k], os(t + k), run[k + 1])
  }

  lemma {:induction false} SafeJoin(isa: Isa, os: nat -> Open, t: nat, a: seq<State>, b: seq<State>)
    requires Safe(isa, os, t, a) && Safe(isa, os, t + |a| - 1, b) && a[|a| - 1] == b[0]
    ensures Safe(isa, os, t, a + b[1..])
  {
    var run := a + b[1..];
    forall k | 0 <= k < |run| - 1 ensures SafeAt(isa, os, t, run, k) {
      if k >= |a| - 1 {
        assert run[k] == b[k - (|a| - 1)] && run[k + 1] == b[k + 1 - (|a| - 1)];
        assert SafeAt(isa, os, t + |a| - 1, b, k - (|a| - 1));
      } else {
        assert SafeAt(isa, os, t, a, k);
      }
    }
  }

  lemma {:induction false} SafeKeepsMemory(isa: Isa, os: nat -> Open, t: nat, run: seq<State>, k: nat)
    requires Safe(isa, os, t, run) && k < |run|
    ensures OnlyScratch(run[0].mem, run[k].mem)
  {
    if k > 0 {
      SafeKeepsMemory(isa, os, t, run, k - 1);
      assert SafeAt(isa, os, t, run, k - 1);
    }
  }

  /** Running an emitted instruction that is there. */
  lemma {:induction false} StepAt(isa: Isa, s: State, i: Ins, c: Open)
    requires Sound(isa) && BASE <= s.pc && s.pc % 2 == 0 && isa.at(s.mem, s.pc - BASE, i) && isa.meaning(i).Some?
    ensures isa.fetch(s.mem, s.pc - BASE) == Some((isa.meaning(i).value, Size(i)))
    ensures Step(isa, s, c) == Execute(s, isa.meaning(i).value, Size(i), c)
  {
  }

  // ---- masks ----

  function Pow2(n: nat): (p: nat)
    ensures p > 0
  {
    if n == 0 then 1 else 2 * Pow2(n - 1)
  }

  lemma {:induction false} ModUnique(x: nat, d: nat, q: nat, r: nat)
    requires d > 0 && x == q * d + r && r < d
    ensures x % d == r
  {
    var q', r' := x / d, x % d;
    assert x == q' * d + r';
    if q' < q {
      SpreadOut(q', q, d);
    } else if q < q' {
      SpreadOut(q, q', d);
    }
  }

  lemma {:induction false} SpreadOut(a: nat, b: nat, d: nat)
    requires a < b
    ensures a * d + d <= b * d
  {
    assert (b - a - 1) * d >= 0;
    assert b * d == a * d + d + (b - a - 1) * d;
  }

  lemma {:induction false} ModHalf(x: nat, m: nat)
    requires m > 0
    ensures x % (2 * m) == 2 * (x / 2 % m) + x % 2
  {
    var q, r := x / 2 / m, x / 2 % m;
    assert x == q * (2 * m) + (2 * r + x % 2);
    ModUnique(x, 2 * m, q, 2 * r + x % 2);
  }

  lemma {:induction false} Pow2Grows(k: nat, n: nat)
    requires k <= n
    ensures Pow2(k) <= Pow2(n)
  {
    if k < n {
      Pow2Grows(k, n - 1);
    }
  }

  /** One bit of a mask: the lowest. */
  lemma {:induction false} AndLowBit(x: nat, half: nat, odd: nat)
    requires odd < 2
    ensures And(x, 2 * half + odd) == 2 * And(x / 2, half) + x % 2 * odd
  {
    var b := 2 * half + odd;
    assert b / 2 == half && b % 2 == odd;
  }

  /** Masking with ones from bit `k` to bit `n` keeps those bits. */
  lemma {:induction false} AndMask(x: nat, n: nat, k: nat)
    requires k <= n
    ensures Pow2(k) <= Pow2(n) && And(x, Pow2(n) - Pow2(k)) == x % Pow2(n) - x % Pow2(k)
    decreases n
  {
    Pow2Grows(k, n);
    if n == 0 {
      assert And(x, 0) == 0;
    } else if k == 0 {
      MaskFromZero(x, n);
    } else {
      var p, q := Pow2(n - 1), Pow2(k - 1);
      Pow2Grows(k - 1, n - 1);
      AndMask(x / 2, n - 1, k - 1);
      AndLowBit(x, p - q, 0);
      ModHalf(x, p);
      ModHalf(x, q);
      assert 2 * (p - q) == Pow2(n) - Pow2(k);
    }
  }

  lemma {:induction false} MaskFromZero(x: nat, n: nat)
    ensures And(x, Pow2(n) - 1) == x % Pow2(n)
    decreases n
  {
    if n == 0 {
      assert And(x, 0) == 0;
    } else {
      var p := Pow2(n - 1);
      MaskFromZero(x / 2, n - 1);
      AndLowBit(x, p - 1, 1);
      ModHalf(x, p);
      assert 2 * (p - 1) + 1 == Pow2(n) - 1;
    }
  }
}
