/** The shapes of code a generated body is made of, and how each runs, under any sound instruction set. */
module Blocks {
  import opened Wrappers
  import opened Encoding
  import opened Machine

  const CODE_LIMIT: nat := 0x1000
  const MAX_OFFSET: nat := 504

  /** How many bytes the first `k` instructions take. */
  function Before(v: seq<Ins>, k: nat): nat
    requires k <= |v|
  {
    if k == 0 then 0 else Before(v, k - 1) + Size(v[k - 1])
  }

  function SizeOf(v: seq<Ins>): nat {
    Before(v, |v|)
  }

  /** Instructions laid out one after another from an offset. */
  ghost predicate LaidOut(isa: Isa, mem: seq<bv8>, off: nat, v: seq<Ins>) {
    forall k :: 0 <= k < |v| ==> PlacedAt(isa, mem, off, v, k)
  }

  ghost predicate PlacedAt(isa: Isa, mem: seq<bv8>, off: nat, v: seq<Ins>, k: nat)
    requires k < |v|
  {
    isa.at(mem, off + Before(v, k), v[k])
  }

  ghost predicate Means(isa: Isa, i: Ins, what: Action) {
    isa.meaning(i) == Some(what)
  }

  // ---- shapes ----

  /** Neither touches memory nor transfers control. */
  predicate Tame(i: Action) {
    i.Compute? || i.AddPc? || i.AddImm? || i.AndImm? || i.AddRegs? || i.Nothing?
  }

  /** Uses memory through `rt` with this width, at an offset the window leaves room for. */
  predicate Uses(i: Action, rt: Reg, w: nat)
    requires w > 0
  {
    match i
    case Load(_, rs1, imm, n) => rs1 == rt && n == w && 0 <= imm <= MAX_OFFSET && imm % w == 0
    case Store(rs1, imm, n) => rs1 == rt && n == w && 0 <= imm <= MAX_OFFSET && imm % w == 0
    case Atomic(_, rs1, _, n) => rs1 == rt && n == w
    case _ => false
  }

  predicate IsWidth(w: nat) { w == 1 || w == 2 || w == 4 || w == 8 }

  /** Four instructions that leave an aligned scratch address in `rt`. */
  ghost predicate Addressing(isa: Isa, v: seq<Ins>, rt: Reg, ru: Reg, rs: Reg, w: nat) {
    && |v| >= 4 && IsWidth(w) && rt != 0 && ru != 0 && rt != ru
    && v[0].Word? && Means(isa, v[0], AddPc(rt, 0x2000))
    && v[1].Word? && Means(isa, v[1], AndImm(rt, rt, -2048))
    && v[2].Word? && Means(isa, v[2], AndImm(ru, rs, 256 - w))
    && v[3].Word? && Means(isa, v[3], AddRegs(rt, rt, ru))
  }

  ghost predicate MemBlock(isa: Isa, v: seq<Ins>) {
    exists rt, ru, rs, w :: MemBlockBy(isa, v, rt, ru, rs, w)
  }

  ghost predicate MemBlockBy(isa: Isa, v: seq<Ins>, rt: Reg, ru: Reg, rs: Reg, w: nat) {
    && Addressing(isa, v, rt, ru, rs, w)
    && 5 <= |v| <= 6
    && UsedAt(isa, v[4], rt, w)
    && (|v| == 6 ==> UsedAt(isa, v[5], rt, w) && Keeps(isa.meaning(v[4]).value, rt))
  }

  ghost predicate UsedAt(isa: Isa, i: Ins, rt: Reg, w: nat)
    requires w > 0
  {
    isa.meaning(i).Some? && Uses(isa.meaning(i).value, rt, w)
  }

  predicate Keeps(i: Action, rt: Reg) {
    i.Store? || ((i.Load? || i.Atomic?) && i.rd != rt)
  }

  /** One instruction, or three that build the target in a register, that may transfer control `d` bytes forward. */
  ghost predicate ControlBlock(isa: Isa, v: seq<Ins>, d: nat) {
    || (|v| == 1 && isa.meaning(v[0]).Some? &&
        var i := isa.meaning(v[0]).value;
        (i.Branch? || i.Jump?) && i.imm == d)
    || (|v| == 3 && v[0].Word? && v[1].Word? && exists rt, rd, i1, i2 :: FarJump(isa, v, rt, rd, i1, i2, d))
  }

  ghost predicate FarJump(isa: Isa, v: seq<Ins>, rt: Reg, rd: Reg, i1: int, i2: int, d: nat) {
    && |v| == 3 && rt != 0 && i1 + i2 == d
    && Means(isa, v[0], AddPc(rt, 0)) && Means(isa, v[1], AddImm(rt, rt, i1)) && Means(isa, v[2], JumpReg(rd, rt, i2))
  }

  ghost predicate TameBlock(isa: Isa, v: seq<Ins>) {
    |v| == 1 && isa.meaning(v[0]).Some? && Tame(isa.meaning(v[0]).value)
  }

  ghost predicate Block(isa: Isa, v: seq<Ins>, d: nat) {
    TameBlock(isa, v) || MemBlock(isa, v) || ControlBlock(isa, v, d)
  }

  // ---- running them ----

  ghost predicate Ready(isa: Isa, s: State, v: seq<Ins>) {
    && |s.mem| == IMAGE_LEN && BASE <= s.pc && s.pc % 2 == 0
    && s.pc - BASE + SizeOf(v) <= CODE_LIMIT && LaidOut(isa, s.mem, s.pc - BASE, v)
  }

  /** A run from `s` through this code, ending past it or `d` bytes on. */
  ghost predicate Through(isa: Isa, os: nat -> Open, t: nat, s: State, v: seq<Ins>, d: nat, run: seq<State>) {
    && Safe(isa, os, t, run) && run[0] == s && 2 <= |run| <= |v| + 1
    && (run[|run| - 1].pc == s.pc + SizeOf(v) || (ControlBlock(isa, v, d) && run[|run| - 1].pc == s.pc + d))
  }

  lemma {:induction false} Sizes(v: seq<Ins>)
    requires 1 <= |v| <= 6
    ensures Before(v, 0) == 0 && Before(v, 1) == Size(v[0])
    ensures |v| >= 2 ==> Before(v, 2) == Before(v, 1) + Size(v[1])
    ensures |v| >= 3 ==> Before(v, 3) == Before(v, 2) + Size(v[2])
    ensures |v| >= 4 ==> Before(v, 4) == Before(v, 3) + Size(v[3])
    ensures |v| >= 5 ==> Before(v, 5) == Before(v, 4) + Size(v[4])
    ensures |v| >= 6 ==> Before(v, 6) == Before(v, 5) + Size(v[5])
  {
  }

  /** One instruction that uses no memory. */
  lemma {:induction false} PlainStep(isa: Isa, s: State, i: Ins, what: Action, c: Open)
    requires Sound(isa) && BASE <= s.pc < BASE + CODE_LIMIT && s.pc % 2 == 0 && isa.at(s.mem, s.pc - BASE, i) && Means(isa, i, what)
    requires OperandOf(s.regs, what).None? && !what.Trap?
    ensures Step(isa, s, c) == Some(State(NextPc(s, what, Size(i), c), NextRegs(s, what, Size(i), c), s.mem))
    ensures SafeStep(isa, s, c, Step(isa, s, c).value)
  {
    StepAt(isa, s, i, c);
  }

  /** One instruction that uses an aligned operand in the scratch page. */
  lemma {:induction false} MemStep(isa: Isa, s: State, i: Ins, what: Action, c: Open)
    requires Sound(isa) && |s.mem| == IMAGE_LEN && BASE <= s.pc < BASE + CODE_LIMIT && s.pc % 2 == 0 && isa.at(s.mem, s.pc - BASE, i) && Means(isa, i, what)
    requires OperandOf(s.regs, what).Some? && InScratch(OperandOf(s.regs, what).value) && OperandOf(s.regs, what).value.1 <= 8
    ensures Step(isa, s, c).Some? && SafeStep(isa, s, c, Step(isa, s, c).value)
    ensures Step(isa, s, c).value.pc == s.pc + Size(i) && Step(isa, s, c).value.regs == NextRegs(s, what, Size(i), c)
  {
    StepAt(isa, s, i, c);
  }

  lemma {:induction false} One(isa: Isa, os: nat -> Open, t: nat, s: State, s': State)
    requires SafeStep(isa, s, os(t), s')
    ensures Safe(isa, os, t, [s, s'])
  {
  }

  lemma {:induction false} OneMore(isa: Isa, os: nat -> Open, t: nat, run: seq<State>, s': State)
    requires Safe(isa, os, t, run) && SafeStep(isa, run[|run| - 1], os(t + |run| - 1), s')
    ensures Safe(isa, os, t, run + [s'])
  {
    var all := run + [s'];
    forall k | 0 <= k < |all| - 1 ensures SafeAt(isa, os, t, all, k) {
      if k < |run| - 1 {
        assert SafeAt(isa, os, t, run, k);
      }
    }
  }

  /** The code stays where it is as long as only the scratch page changes. */
  lemma {:induction false} StillLaidOut(isa: Isa, mem: seq<bv8>, mem': seq<bv8>, off: nat, v: seq<Ins>)
    requires Sound(isa) && LaidOut(isa, mem, off, v) && OnlyScratch(mem, mem') && off + SizeOf(v) <= SCRATCH_OFF
    ensures LaidOut(isa, mem', off, v)
  {
    forall k | 0 <= k < |v| ensures PlacedAt(isa, mem', off, v, k) {
      PrefixFits(v, k);
      assert PlacedAt(isa, mem, off, v, k);
    }
  }

  lemma {:induction false} PrefixFits(v: seq<Ins>, k: nat)
    requires k < |v|
    ensures Before(v, k) + Size(v[k]) <= SizeOf(v)
  {
    BeforeGrows(v, k + 1, |v|);
  }

  lemma {:induction false} BeforeGrows(v: seq<Ins>, j: nat, k: nat)
    requires j <= k <= |v|
    ensures Before(v, j) <= Before(v, k)
  {
    if j < k {
      BeforeGrows(v, j, k - 1);
    }
  }

  // ---- control ----

  lemma {:induction false} SimpleRuns(isa: Isa, os: nat -> Open, t: nat, s: State, v: seq<Ins>, d: nat) returns (run: seq<State>)
    requires Sound(isa) && Ready(isa, s, v) && d < CODE_LIMIT
    requires TameBlock(isa, v) || (|v| == 1 && ControlBlock(isa, v, d))
    ensures Through(isa, os, t, s, v, d, run)
  {
    Sizes(v);
    assert PlacedAt(isa, s.mem, s.pc - BASE, v, 0);
    var what := isa.meaning(v[0]).value;
    PlainStep(isa, s, v[0], what, os(t));
    var s' := Step(isa, s, os(t)).value;
    One(isa, os, t, s, s');
    run := [s, s'];
  }

  /** An instruction that only computes: the next state, register by register. */
  ghost predicate Computes(s: State, i: Ins, rd: Reg, v: nat, s': State) {
    && s'.pc == s.pc + Size(i) && s'.mem == s.mem && Get(s'.regs, rd) == v
    && forall r {:trigger Get(s'.regs, r)} :: r != rd ==> Get(s'.regs, r) == Get(s.regs, r)
  }

  lemma {:induction false} ComputeStep(isa: Isa, os: nat -> Open, t: nat, s: State, i: Ins, what: Action) returns (s': State)
    requires Sound(isa) && BASE <= s.pc < BASE + CODE_LIMIT && s.pc % 2 == 0 && isa.at(s.mem, s.pc - BASE, i) && Means(isa, i, what)
    requires what.AddPc? || what.AddImm? || what.AndImm? || what.AddRegs?
    requires what.rd != 0 && ResultOf(s, what, Size(i), os(t)) < U64
    ensures SafeStep(isa, s, os(t), s') && Computes(s, i, what.rd, ResultOf(s, what, Size(i), os(t)), s')
  {
    PlainStep(isa, s, i, what, os(t));
    s' := Step(isa, s, os(t)).value;
    SetGet(s.regs, what.rd, ResultOf(s, what, Size(i), os(t)));
  }

  lemma {:induction false} SetGet(regs: Regs, rd: Reg, v: nat)
    requires rd != 0 && v < U64
    ensures Get(Set(regs, rd, v), rd) == v
    ensures forall r :: r != rd ==> Get(Set(regs, rd, v), r) == Get(regs, r)
  {
  }

  lemma {:induction false} JumpStep(isa: Isa, os: nat -> Open, t: nat, s: State, i: Ins, rd: Reg, rs1: Reg, imm: int, target: nat) returns (s': State)
    requires Sound(isa) && BASE <= s.pc < BASE + CODE_LIMIT && s.pc % 2 == 0 && isa.at(s.mem, s.pc - BASE, i) && Means(isa, i, JumpReg(rd, rs1, imm))
    requires target % 2 == 0 && Wrap(Get(s.regs, rs1) + imm) == target
    ensures SafeStep(isa, s, os(t), s') && s'.pc == target
  {
    PlainStep(isa, s, i, JumpReg(rd, rs1, imm), os(t));
    s' := Step(isa, s, os(t)).value;
  }

  /** `auipc` with nothing to add: the register holds the address of the instruction. */
  lemma {:induction false} HereStep(isa: Isa, os: nat -> Open, t: nat, s: State, i: Ins, rt: Reg) returns (s': State)
    requires Sound(isa) && BASE <= s.pc < BASE + CODE_LIMIT && s.pc % 2 == 0 && isa.at(s.mem, s.pc - BASE, i) && Means(isa, i, AddPc(rt, 0))
    requires i.Word? && rt != 0
    ensures SafeStep(isa, s, os(t), s') && s'.pc == s.pc + 4 && s'.mem == s.mem && Get(s'.regs, rt) == s.pc
  {
    s' := ComputeStep(isa, os, t, s, i, AddPc(rt, 0));
    assert Wrap(s.pc + 0) == s.pc;
  }

  lemma {:induction false} AddStep(isa: Isa, os: nat -> Open, t: nat, s: State, i: Ins, rt: Reg, imm: int) returns (s': State)
    requires Sound(isa) && BASE <= s.pc < BASE + CODE_LIMIT && s.pc % 2 == 0 && isa.at(s.mem, s.pc - BASE, i) && Means(isa, i, AddImm(rt, rt, imm))
    requires i.Word? && rt != 0
    ensures SafeStep(isa, s, os(t), s') && s'.pc == s.pc + 4 && s'.mem == s.mem && Get(s'.regs, rt) == Wrap(Get(s.regs, rt) + imm)
  {
    s' := ComputeStep(isa, os, t, s, i, AddImm(rt, rt, imm));
  }

  lemma {:induction false} InPlace(isa: Isa, s: State, v: seq<Ins>, k: nat)
    requires Ready(isa, s, v) && k < |v|
    ensures isa.at(s.mem, s.pc - BASE + Before(v, k), v[k])
    ensures Before(v, k) + Size(v[k]) <= SizeOf(v)
  {
    PrefixFits(v, k);
    assert PlacedAt(isa, s.mem, s.pc - BASE, v, k);
  }

  /** The two instructions that build the target. */
  lemma {:induction false} BuildTarget(isa: Isa, os: nat -> Open, t: nat, s: State, i0: Ins, i1: Ins, rt: Reg, d1: int)
    returns (s1: State, s2: State)
    requires Sound(isa) && BASE <= s.pc && s.pc + 4 < BASE + CODE_LIMIT && s.pc % 2 == 0 && rt != 0
    requires isa.at(s.mem, s.pc - BASE, i0) && isa.at(s.mem, s.pc - BASE + 4, i1) && i0.Word? && i1.Word?
    requires Means(isa, i0, AddPc(rt, 0)) && Means(isa, i1, AddImm(rt, rt, d1))
    ensures SafeStep(isa, s, os(t), s1) && SafeStep(isa, s1, os(t + 1), s2)
    ensures s2.pc == s.pc + 8 && s2.mem == s.mem && Get(s2.regs, rt) == Wrap(s.pc + d1)
  {
    s1 := HereStep(isa, os, t, s, i0, rt);
    s2 := AddStep(isa, os, t + 1, s1, i1, rt, d1);
  }

  lemma {:induction false} ThreePlaces(isa: Isa, s: State, v: seq<Ins>)
    requires Ready(isa, s, v) && |v| == 3 && v[0].Word? && v[1].Word?
    ensures isa.at(s.mem, s.pc - BASE, v[0]) && isa.at(s.mem, s.pc - BASE + 4, v[1]) && isa.at(s.mem, s.pc - BASE + 8, v[2])
    ensures s.pc + 8 < BASE + CODE_LIMIT
  {
    Sizes(v);
    InPlace(isa, s, v, 0);
    InPlace(isa, s, v, 1);
    InPlace(isa, s, v, 2);
  }

  lemma {:induction false} FarJumpRuns(isa: Isa, os: nat -> Open, t: nat, s: State, v: seq<Ins>, d: nat) returns (run: seq<State>)
    requires Sound(isa) && Ready(isa, s, v) && d < CODE_LIMIT && d % 2 == 0
    requires |v| == 3 && ControlBlock(isa, v, d)
    ensures Through(isa, os, t, s, v, d, run)
  {
    ThreePlaces(isa, s, v);
    var rt, rd, d1, d2 :| FarJump(isa, v, rt, rd, d1, d2, d);
    run := FarJumpBy(isa, os, t, s, v[0], v[1], v[2], rt, rd, d1, d2, d);
  }

  lemma {:induction false} LastPart(isa: Isa, os: nat -> Open, t: nat, s: State, i: Ins, rd: Reg, rt: Reg, imm: int, pc: nat, a: int, d: nat) returns (s': State)
    requires Sound(isa) && BASE <= s.pc < BASE + CODE_LIMIT && s.pc % 2 == 0 && isa.at(s.mem, s.pc - BASE, i) && Means(isa, i, JumpReg(rd, rt, imm))
    requires BASE <= pc < BASE + CODE_LIMIT && pc % 2 == 0 && d % 2 == 0 && d < CODE_LIMIT
    requires a + imm == d && Get(s.regs, rt) == Wrap(pc + a)
    ensures SafeStep(isa, s, os(t), s') && s'.pc == pc + d
  {
    var b := imm;
    TwoParts(pc, Get(s.regs, rt), a, b, d);
    s' := JumpStep(isa, os, t, s, i, rd, rt, imm, pc + d);
  }

  lemma {:induction false} FarJumpBy(isa: Isa, os: nat -> Open, t: nat, s: State, i0: Ins, i1: Ins, i2: Ins, rt: Reg, rd: Reg, d1: int, d2: int, d: nat)
    returns (run: seq<State>)
    requires Sound(isa) && BASE <= s.pc && s.pc + 8 < BASE + CODE_LIMIT && s.pc % 2 == 0
    requires isa.at(s.mem, s.pc - BASE, i0) && isa.at(s.mem, s.pc - BASE + 4, i1) && isa.at(s.mem, s.pc - BASE + 8, i2)
    requires i0.Word? && i1.Word? && rt != 0 && d % 2 == 0 && d < CODE_LIMIT && d1 + d2 == d
    requires Means(isa, i0, AddPc(rt, 0)) && Means(isa, i1, AddImm(rt, rt, d1)) && Means(isa, i2, JumpReg(rd, rt, d2))
    ensures Safe(isa, os, t, run) && |run| == 4 && run[0] == s && run[3].pc == s.pc + d
  {
    var s1, s2 := BuildTarget(isa, os, t, s, i0, i1, rt, d1);
    var s3 := LastPart(isa, os, t + 2, s2, i2, rd, rt, d2, s.pc, d1, d);
    run := ThreeSteps(isa, os, t, s, s1, s2, s3);
  }

  lemma {:induction false} ThreeSteps(isa: Isa, os: nat -> Open, t: nat, s: State, s1: State, s2: State, s3: State) returns (run: seq<State>)
    requires SafeStep(isa, s, os(t), s1) && SafeStep(isa, s1, os(t + 1), s2) && SafeStep(isa, s2, os(t + 2), s3)
    ensures Safe(isa, os, t, run) && |run| == 4 && run[0] == s && run[3] == s3
  {
    One(isa, os, t, s, s1);
    OneMore(isa, os, t, [s, s1], s2);
    OneMore(isa, os, t, [s, s1] + [s2], s3);
    run := [s, s1] + [s2] + [s3];
  }

  lemma {:induction false} TwoParts(pc: nat, v: nat, a: int, b: int, d: nat)
    requires BASE <= pc < BASE + CODE_LIMIT && a + b == d < CODE_LIMIT && v == Wrap(pc + a)
    requires pc % 2 == 0 && d % 2 == 0
    ensures Wrap(v + b) == pc + d && (pc + d) % 2 == 0
  {
    assert (v + b) % U64 == (pc + a + b) % U64;
  }

  // ---- memory ----

  lemma {:induction false} Powers()
    ensures Pow2(64) == U64 && Pow2(11) == 2048 && Pow2(8) == 256 && Pow2(0) == 1 && Pow2(1) == 2 && Pow2(2) == 4 && Pow2(3) == 8
  {
    assert Pow2(8) == 256;
    assert Pow2(16) == 0x1_0000 by { assert Pow2(12) == 4096; }
    assert Pow2(32) == 0x1_0000_0000 by { assert Pow2(24) == 0x100_0000; }
    assert Pow2(64) == U64 by { assert Pow2(40) == 0x100_0000_0000; assert Pow2(48) == 0x1_0000_0000_0000; assert Pow2(56) == 0x100_0000_0000_0000; }
  }

  lemma {:induction false} AndHigh(x: nat)
    requires x < U64
    ensures And(x, U64 - 2048) == x - x % 2048
  {
    Powers();
    AndMask(x, 64, 11);
    assert x % U64 == x;
  }

  lemma {:induction false} AndLow(x: nat, w: nat)
    requires IsWidth(w)
    ensures And(x, 256 - w) == x % 256 - x % w
  {
    Powers();
    AndMask(x, 8, if w == 1 then 0 else if w == 2 then 1 else if w == 4 then 2 else 3);
  }

  /** The base the first two instructions leave. */
  lemma {:induction false} PageHalf(pc: nat)
    requires BASE <= pc < BASE + CODE_LIMIT
    ensures var base := And(pc + 0x2000, U64 - 2048); base == BASE + SCRATCH_OFF || base == BASE + SCRATCH_OFF + 0x800
  {
    AndHigh(pc + 0x2000);
  }

  /** The offset the third leaves. */
  lemma {:induction false} Window(x: nat, w: nat)
    requires IsWidth(w)
    ensures And(x, 256 - w) <= 256 - w && And(x, 256 - w) % w == 0
  {
    AndLow(x, w);
    if w == 1 {
      Rounded1(x);
    } else if w == 2 {
      Rounded2(x);
    } else if w == 4 {
      Rounded4(x);
    } else {
      Rounded8(x);
    }
  }

  lemma {:induction false} Rounded1(x: nat)
    ensures x % 256 - x % 1 <= 255
  {
  }

  lemma {:induction false} Rounded2(x: nat)
    ensures 0 <= x % 256 - x % 2 <= 254 && (x % 256 - x % 2) % 2 == 0
  {
    var y := x % 256;
    var k := y / 2;
    ModUnique(x, 2, 128 * (x / 256) + k, y % 2);
    ModUnique(2 * k, 2, k, 0);
  }

  lemma {:induction false} Rounded4(x: nat)
    ensures 0 <= x % 256 - x % 4 <= 252 && (x % 256 - x % 4) % 4 == 0
  {
    var y := x % 256;
    var k := y / 4;
    ModUnique(x, 4, 64 * (x / 256) + k, y % 4);
    ModUnique(4 * k, 4, k, 0);
  }

  lemma {:induction false} Rounded8(x: nat)
    ensures 0 <= x % 256 - x % 8 <= 248 && (x % 256 - x % 8) % 8 == 0
  {
    var y := x % 256;
    var k := y / 8;
    ModUnique(x, 8, 32 * (x / 256) + k, y % 8);
    ModUnique(8 * k, 8, k, 0);
  }

  /** An address the window and any offset up to the largest keep inside the scratch page. */
  predicate Aimed(a: nat, w: nat)
    requires w > 0
  {
    BASE + SCRATCH_OFF <= a && a + MAX_OFFSET + w <= BASE + SCRATCH_OFF + PAGE && a % w == 0
  }

  lemma {:induction false} Aim(base: nat, off: nat, w: nat)
    requires IsWidth(w) && off <= 256 - w && off % w == 0 && (base == BASE + SCRATCH_OFF || base == BASE + SCRATCH_OFF + 0x800)
    ensures Wrap(base + off) == base + off && Aimed(base + off, w)
  {
    HalfAligned(base, w);
    SumAligned(base, off, w);
  }

  lemma {:induction false} HalfAligned(base: nat, w: nat)
    requires IsWidth(w) && (base == BASE + SCRATCH_OFF || base == BASE + SCRATCH_OFF + 0x800)
    ensures base % w == 0
  {
    if w == 1 {
    } else if w == 2 {
    } else if w == 4 {
    } else {
    }
  }

  /** Four instructions at their places. */
  ghost predicate FourAt(isa: Isa, s: State, v: seq<Ins>) {
    && |v| >= 4 && BASE <= s.pc && s.pc + 16 <= BASE + CODE_LIMIT && s.pc % 2 == 0
    && isa.at(s.mem, s.pc - BASE, v[0]) && isa.at(s.mem, s.pc - BASE + 4, v[1])
    && isa.at(s.mem, s.pc - BASE + 8, v[2]) && isa.at(s.mem, s.pc - BASE + 12, v[3])
  }

  lemma {:induction false} BaseSteps(isa: Isa, os: nat -> Open, t: nat, s: State, v: seq<Ins>, rt: Reg, ru: Reg, rs: Reg, w: nat) returns (s1: State, s2: State)
    requires Sound(isa) && FourAt(isa, s, v) && Addressing(isa, v, rt, ru, rs, w)
    ensures SafeStep(isa, s, os(t), s1) && SafeStep(isa, s1, os(t + 1), s2)
    ensures s2.pc == s.pc + 8 && s2.mem == s.mem
    ensures Get(s2.regs, rt) == BASE + SCRATCH_OFF || Get(s2.regs, rt) == BASE + SCRATCH_OFF + 0x800
  {
    PageHalf(s.pc);
    s1 := ComputeStep(isa, os, t, s, v[0], AddPc(rt, 0x2000));
    assert Get(s1.regs, rt) == s.pc + 0x2000;
    assert Wrap(-2048) == U64 - 2048;
    s2 := ComputeStep(isa, os, t + 1, s1, v[1], AndImm(rt, rt, -2048));
  }

  lemma {:induction false} OffsetSteps(isa: Isa, os: nat -> Open, t: nat, s: State, i: Ins, j: Ins, rt: Reg, ru: Reg, rs: Reg, w: nat) returns (s1: State, s2: State)
    requires Sound(isa) && IsWidth(w) && rt != 0 && ru != 0 && rt != ru && i.Word? && j.Word?
    requires BASE <= s.pc && s.pc + 8 <= BASE + CODE_LIMIT && s.pc % 2 == 0 && isa.at(s.mem, s.pc - BASE, i) && isa.at(s.mem, s.pc - BASE + 4, j)
    requires Means(isa, i, AndImm(ru, rs, 256 - w)) && Means(isa, j, AddRegs(rt, rt, ru))
    requires Get(s.regs, rt) == BASE + SCRATCH_OFF || Get(s.regs, rt) == BASE + SCRATCH_OFF + 0x800
    ensures SafeStep(isa, s, os(t), s1) && SafeStep(isa, s1, os(t + 1), s2)
    ensures s2.pc == s.pc + 8 && s2.mem == s.mem && Aimed(Get(s2.regs, rt), w)
  {
    Window(Get(s.regs, rs), w);
    var off := And(Get(s.regs, rs), 256 - w);
    assert Wrap(256 - w) == 256 - w;
    s1 := ComputeStep(isa, os, t, s, i, AndImm(ru, rs, 256 - w));
    Aim(Get(s.regs, rt), off, w);
    assert Get(s1.regs, rt) == Get(s.regs, rt);
    s2 := ComputeStep(isa, os, t + 1, s1, j, AddRegs(rt, rt, ru));
  }

  /** A memory instruction through an aimed register. */
  lemma {:induction false} UseStep(isa: Isa, os: nat -> Open, t: nat, s: State, i: Ins, rt: Reg, w: nat) returns (s': State)
    requires Sound(isa) && |s.mem| == IMAGE_LEN && BASE <= s.pc < BASE + CODE_LIMIT && s.pc % 2 == 0 && isa.at(s.mem, s.pc - BASE, i)
    requires IsWidth(w) && UsedAt(isa, i, rt, w) && Aimed(Get(s.regs, rt), w)
    ensures SafeStep(isa, s, os(t), s') && s'.pc == s.pc + Size(i) && |s'.mem| == |s.mem| && OnlyScratch(s.mem, s'.mem)
    ensures Keeps(isa.meaning(i).value, rt) ==> Aimed(Get(s'.regs, rt), w)
  {
    var what := isa.meaning(i).value;
    OperandAimed(s.regs, what, rt, w);
    MemStep(isa, s, i, what, os(t));
    s' := Step(isa, s, os(t)).value;
  }

  lemma {:induction false} OperandAimed(regs: Regs, what: Action, rt: Reg, w: nat)
    requires IsWidth(w) && Uses(what, rt, w) && Aimed(Get(regs, rt), w)
    ensures OperandOf(regs, what).Some? && InScratch(OperandOf(regs, what).value) && OperandOf(regs, what).value.1 <= 8
  {
    if !what.Atomic? {
      assert Wrap(Get(regs, rt) + what.imm) == Get(regs, rt) + what.imm;
      SumAligned(Get(regs, rt), what.imm, w);
    }
  }

  lemma {:induction false} SumAligned(a: nat, b: nat, w: nat)
    requires IsWidth(w) && a % w == 0 && b % w == 0
    ensures (a + b) % w == 0
  {
    if w == 1 {
    } else if w == 2 {
    } else if w == 4 {
    } else {
    }
  }

  lemma {:induction false} FirstFour(isa: Isa, s: State, v: seq<Ins>)
    requires Ready(isa, s, v) && 5 <= |v| <= 6 && v[0].Word? && v[1].Word? && v[2].Word? && v[3].Word?
    ensures FourAt(isa, s, v) && Before(v, 4) == 16
  {
    Sizes(v);
    InPlace(isa, s, v, 0);
    InPlace(isa, s, v, 1);
    InPlace(isa, s, v, 2);
    InPlace(isa, s, v, 3);
  }

  lemma {:induction false} FifthPlace(isa: Isa, s: State, v: seq<Ins>)
    requires Ready(isa, s, v) && 5 <= |v| <= 6 && Before(v, 4) == 16
    ensures isa.at(s.mem, s.pc - BASE + 16, v[4]) && s.pc + 16 + Size(v[4]) <= BASE + CODE_LIMIT
    ensures |v| == 5 ==> SizeOf(v) == 16 + Size(v[4])
  {
    InPlace(isa, s, v, 4);
  }

  lemma {:induction false} SixthPlace(isa: Isa, s: State, v: seq<Ins>)
    requires Ready(isa, s, v) && |v| == 6 && Before(v, 4) == 16
    ensures SizeOf(v) == 16 + Size(v[4]) + Size(v[5]) && isa.at(s.mem, s.pc - BASE + 16 + Size(v[4]), v[5])
    ensures s.pc + 16 + Size(v[4]) + Size(v[5]) <= BASE + CODE_LIMIT
  {
    assert Before(v, 5) == 16 + Size(v[4]);
    InPlace(isa, s, v, 5);
  }

  /** The address is built, whatever the registers held. */
  lemma {:induction false} AddressRuns(isa: Isa, os: nat -> Open, t: nat, s: State, v: seq<Ins>, rt: Reg, ru: Reg, rs: Reg, w: nat) returns (run: seq<State>)
    requires Sound(isa) && FourAt(isa, s, v) && Addressing(isa, v, rt, ru, rs, w)
    ensures Safe(isa, os, t, run) && |run| == 5 && run[0] == s
    ensures run[4].pc == s.pc + 16 && run[4].mem == s.mem && Aimed(Get(run[4].regs, rt), w)
  {
    var s1, s2 := BaseSteps(isa, os, t, s, v, rt, ru, rs, w);
    var s3, s4 := OffsetSteps(isa, os, t + 2, s2, v[2], v[3], rt, ru, rs, w);
    run := FourSteps(isa, os, t, s, s1, s2, s3, s4);
  }

  lemma {:induction false} FourSteps(isa: Isa, os: nat -> Open, t: nat, s: State, s1: State, s2: State, s3: State, s4: State) returns (run: seq<State>)
    requires SafeStep(isa, s, os(t), s1) && SafeStep(isa, s1, os(t + 1), s2) && SafeStep(isa, s2, os(t + 2), s3) && SafeStep(isa, s3, os(t + 3), s4)
    ensures Safe(isa, os, t, run) && |run| == 5 && run[0] == s && run[4] == s4
  {
    var three := ThreeSteps(isa, os, t, s, s1, s2, s3);
    OneMore(isa, os, t, three, s4);
    run := three + [s4];
  }

  lemma {:induction false} FiveRun(isa: Isa, os: nat -> Open, t: nat, s: State, v: seq<Ins>, rt: Reg, ru: Reg, rs: Reg, w: nat) returns (run: seq<State>)
    requires Sound(isa) && |s.mem| == IMAGE_LEN && FourAt(isa, s, v) && Addressing(isa, v, rt, ru, rs, w)
    requires |v| > 4 && UsedAt(isa, v[4], rt, w) && isa.at(s.mem, s.pc - BASE + 16, v[4]) && s.pc + 16 + Size(v[4]) <= BASE + CODE_LIMIT
    ensures Safe(isa, os, t, run) && |run| == 6 && run[0] == s
    ensures run[5].pc == s.pc + 16 + Size(v[4]) && OnlyScratch(s.mem, run[5].mem)
    ensures Keeps(isa.meaning(v[4]).value, rt) ==> Aimed(Get(run[5].regs, rt), w)
  {
    var addressed := AddressRuns(isa, os, t, s, v, rt, ru, rs, w);
    var s4 := addressed[4];
    var s5 := UseStep(isa, os, t + 4, s4, v[4], rt, w);
    OneMore(isa, os, t, addressed, s5);
    run := addressed + [s5];
  }

  lemma {:induction false} SixthStep(isa: Isa, os: nat -> Open, t: nat, s: State, v: seq<Ins>, s5: State, rt: Reg, w: nat) returns (s6: State)
    requires Sound(isa) && Ready(isa, s, v) && |v| == 6 && Before(v, 4) == 16 && IsWidth(w) && UsedAt(isa, v[5], rt, w)
    requires s5.pc == s.pc + 16 + Size(v[4]) && OnlyScratch(s.mem, s5.mem) && Aimed(Get(s5.regs, rt), w)
    ensures SafeStep(isa, s5, os(t), s6) && s6.pc == s.pc + SizeOf(v)
  {
    SixthPlace(isa, s, v);
    assert isa.at(s5.mem, s5.pc - BASE, v[5]);
    s6 := UseStep(isa, os, t, s5, v[5], rt, w);
  }

  lemma {:induction false} MemBlockRuns(isa: Isa, os: nat -> Open, t: nat, s: State, v: seq<Ins>, d: nat) returns (run: seq<State>)
    requires Sound(isa) && Ready(isa, s, v) && MemBlock(isa, v)
    ensures Through(isa, os, t, s, v, d, run)
  {
    var rt, ru, rs, w :| MemBlockBy(isa, v, rt, ru, rs, w);
    FirstFour(isa, s, v);
    FifthPlace(isa, s, v);
    run := FiveRun(isa, os, t, s, v, rt, ru, rs, w);
    if |v| == 6 {
      var s6 := SixthStep(isa, os, t + 5, s, v, run[5], rt, w);
      OneMore(isa, os, t, run, s6);
      run := run + [s6];
    }
  }

  /** Any block, from any registers and whatever its instructions compute, runs safely to its end or to its target. */
  lemma {:induction false} BlockRuns(isa: Isa, os: nat -> Open, t: nat, s: State, v: seq<Ins>, d: nat) returns (run: seq<State>)
    requires Sound(isa) && Ready(isa, s, v) && Block(isa, v, d) && d < CODE_LIMIT && d % 2 == 0
    ensures Through(isa, os, t, s, v, d, run)
  {
    if MemBlock(isa, v) {
      run := MemBlockRuns(isa, os, t, s, v, d);
    } else if |v| == 1 {
      run := SimpleRuns(isa, os, t, s, v, d);
    } else {
      run := FarJumpRuns(isa, os, t, s, v, d);
    }
  }
}
