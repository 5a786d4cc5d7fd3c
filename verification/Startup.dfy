/** A generated program from its entry point: the prologue loads every register, and the body follows. */
module Startup {
  import opened Wrappers
  import opened Encoding
  import opened Machine
  import opened Blocks
  import opened Chunks
  import opened Assembler

  // ---- runs that leave memory alone ----

  ghost predicate StillAt(isa: Isa, os: nat -> Open, t: nat, run: seq<State>, k: nat)
    requires k + 1 < |run|
  {
    Step(isa, run[k], os(t + k)) == Some(run[k + 1]) && run[k + 1].mem == run[k].mem
  }

  /** No step traps, and none stores. */
  ghost predicate Still(isa: Isa, os: nat -> Open, t: nat, run: seq<State>) {
    run != [] && forall k :: 0 <= k < |run| - 1 ==> StillAt(isa, os, t, run, k)
  }

  lemma {:induction false} StillOne(isa: Isa, os: nat -> Open, s: State, s': State)
    requires Step(isa, s, os(0)) == Some(s') && s'.mem == s.mem
    ensures Still(isa, os, 0, [s, s'])
  {
  }

  lemma {:induction false} StillMore(isa: Isa, os: nat -> Open, t: nat, run: seq<State>, s': State)
    requires Still(isa, os, t, run) && Step(isa, run[|run| - 1], os(t + |run| - 1)) == Some(s') && s'.mem == run[|run| - 1].mem
    ensures Still(isa, os, t, run + [s'])
  {
    var all := run + [s'];
    forall k | 0 <= k < |all| - 1 ensures StillAt(isa, os, t, all, k) {
      if k < |run| - 1 {
        assert StillAt(isa, os, t, run, k);
      }
    }
  }

  // ---- the prologue, under any sound instruction set ----

  /** The action of the prologue's `k`th instruction, when `rs` lists the registers. */
  function PrologueDoes(rs: seq<Reg>, k: nat): Action
    requires |rs| == 32 && k < 36
  {
    if k == 0 then AddPc(5, 0)
    else if k == 1 then AddImm(5, 5, -64)
    else if k == 2 then WriteCsr(MTVEC, 5)
    else if k == 3 then AddPc(31, 0x1000)
    else if k == 4 then AddImm(31, 31, TO_TABLE)
    else Action.Load(rs[k - 4], 31, 8 * (k - 5), 8)
  }

  /** Registers 0 to 31, in order. */
  ghost predicate AllRegs(rs: seq<Reg>) {
    |rs| == 32 && rs[31] == 31 && forall n :: 0 <= n < 32 ==> Numbered(rs, n)
  }

  predicate Numbered(rs: seq<Reg>, n: nat)
    requires n < |rs|
  {
    rs[n] as nat == n
  }

  lemma {:induction false} Apart(rs: seq<Reg>, i: nat, j: nat)
    requires AllRegs(rs) && i < 32 && j < 32 && i != j
    ensures rs[i] != rs[j]
  {
    assert Numbered(rs, i) && Numbered(rs, j);
  }

  lemma {:induction false} NotZero(rs: seq<Reg>, n: nat)
    requires AllRegs(rs) && 1 <= n < 32
    ensures rs[n] != 0
  {
    assert Numbered(rs, n);
  }

  ghost predicate IsPrologue(isa: Isa, v: seq<Ins>, rs: seq<Reg>) {
    |v| == 36 && |rs| == 32 && AllWords(v) && forall k :: 0 <= k < 36 ==> DoesAt(isa, v, rs, k)
  }

  ghost predicate DoesAt(isa: Isa, v: seq<Ins>, rs: seq<Reg>, k: nat)
    requires k < 36 && |v| == 36 && |rs| == 32
  {
    Means(isa, v[k], PrologueDoes(rs, k))
  }

  /** The table's entry for register `n`. */
  function Entry(mem: seq<bv8>, n: nat): (v: nat)
    requires |mem| == IMAGE_LEN && 1 <= n < 32
    ensures v < U64
  {
    DoublewordAt(mem, TABLE_OFF + 8 * (n - 1))
  }

  /** The prologue is in memory and `k` of its instructions have run. */
  ghost predicate Within(isa: Isa, s: State, v: seq<Ins>, k: nat) {
    && |s.mem| == IMAGE_LEN && LaidOut(isa, s.mem, ENTRY_OFF, v)
    && k <= 36 && s.pc == BASE + ENTRY_OFF + 4 * k
  }

  /** And registers 1 to `n` hold their entries, while the base register still leads to the table. */
  ghost predicate Loading(isa: Isa, s: State, v: seq<Ins>, rs: seq<Reg>, n: nat) {
    && |rs| == 32 && n < 32 && Within(isa, s, v, 5 + n)
    && (n < 31 ==> Get(s.regs, 31) == BASE + TABLE_OFF)
    && forall j :: 1 <= j <= n ==> Holds(s, rs, j)
  }

  ghost predicate Holds(s: State, rs: seq<Reg>, j: nat)
    requires |s.mem| == IMAGE_LEN && 1 <= j < 32 && |rs| == 32
  {
    Get(s.regs, rs[j]) == Entry(s.mem, j)
  }

  /** The next instruction, and where it leads. */
  lemma {:induction false} NextStep(isa: Isa, s: State, v: seq<Ins>, rs: seq<Reg>, k: nat, c: Open)
    requires Sound(isa) && IsPrologue(isa, v, rs) && Within(isa, s, v, k) && k < 36
    ensures isa.fetch(s.mem, s.pc - BASE) == Some((PrologueDoes(rs, k), 4))
    ensures Step(isa, s, c) == Execute(s, PrologueDoes(rs, k), 4, c)
  {
    WordsSize(v, k);
    assert PlacedAt(isa, s.mem, ENTRY_OFF, v, k) && DoesAt(isa, v, rs, k);
    StepAt(isa, s, v[k], c);
  }

  /** A step that uses no memory. */
  lemma {:induction false} EarlyStep(isa: Isa, s: State, v: seq<Ins>, rs: seq<Reg>, k: nat, c: Open) returns (s': State)
    requires Sound(isa) && IsPrologue(isa, v, rs) && Within(isa, s, v, k) && k < 5
    ensures Step(isa, s, c) == Some(s') && s'.mem == s.mem && Within(isa, s', v, k + 1)
    ensures s'.regs == NextRegs(s, PrologueDoes(rs, k), 4, c)
  {
    NextStep(isa, s, v, rs, k, c);
    s' := Step(isa, s, c).value;
  }

  /** The first two instructions leave the stub's address in `x5`. */
  lemma {:induction false} StubAddress(isa: Isa, os: nat -> Open, s: State, v: seq<Ins>, rs: seq<Reg>) returns (run: seq<State>)
    requires Sound(isa) && IsPrologue(isa, v, rs) && Within(isa, s, v, 0)
    ensures Still(isa, os, 0, run) && |run| == 3 && run[0] == s && run[2].mem == s.mem
    ensures Get(run[2].regs, 5) == BASE + EXIT_OFF && Within(isa, run[2], v, 2)
    ensures isa.fetch(run[2].mem, run[2].pc - BASE) == Some((WriteCsr(MTVEC, 5), 4))
  {
    var s1 := EarlyStep(isa, s, v, rs, 0, os(0));
    SetGet(s.regs, 5, Wrap(s.pc + 0));
    var s2 := EarlyStep(isa, s1, v, rs, 1, os(1));
    SetGet(s1.regs, 5, Wrap(BASE + ENTRY_OFF - 64));
    StillOne(isa, os, s, s1);
    StillMore(isa, os, 0, [s, s1], s2);
    run := [s, s1] + [s2];
    NextStep(isa, s2, v, rs, 2, os(2));
  }

  /** The next three hand it over, and leave the table's address in `x31`. */
  lemma {:induction false} TableAddress(isa: Isa, os: nat -> Open, run: seq<State>, v: seq<Ins>, rs: seq<Reg>) returns (all: seq<State>)
    requires Sound(isa) && IsPrologue(isa, v, rs) && Still(isa, os, 0, run) && |run| == 3 && Within(isa, run[2], v, 2)
    ensures Still(isa, os, 0, all) && |all| == 6 && all[0] == run[0] && all[2] == run[2] && all[5].mem == run[2].mem
    ensures Loading(isa, all[5], v, rs, 0)
  {
    var s3 := EarlyStep(isa, run[2], v, rs, 2, os(2));
    var s4, s5 := TableBase(isa, os, s3, v, rs);
    all := ThreeMore(isa, os, run, s3, s4, s5);
  }

  lemma {:induction false} ThreeMore(isa: Isa, os: nat -> Open, run: seq<State>, a: State, b: State, c: State) returns (all: seq<State>)
    requires Still(isa, os, 0, run) && |run| == 3 && a.mem == b.mem == c.mem == run[2].mem
    requires Step(isa, run[2], os(2)) == Some(a) && Step(isa, a, os(3)) == Some(b) && Step(isa, b, os(4)) == Some(c)
    ensures Still(isa, os, 0, all) && |all| == 6 && all[0] == run[0] && all[2] == run[2] && all[5] == c
  {
    StillMore(isa, os, 0, run, a);
    var four := run + [a];
    StillMore(isa, os, 0, four, b);
    var five := four + [b];
    StillMore(isa, os, 0, five, c);
    all := five + [c];
  }

  lemma {:induction false} TableBase(isa: Isa, os: nat -> Open, s: State, v: seq<Ins>, rs: seq<Reg>) returns (s4: State, s5: State)
    requires Sound(isa) && IsPrologue(isa, v, rs) && Within(isa, s, v, 3)
    ensures Step(isa, s, os(3)) == Some(s4) && s4.mem == s.mem
    ensures Step(isa, s4, os(4)) == Some(s5) && s5.mem == s.mem && Loading(isa, s5, v, rs, 0)
  {
    s4 := EarlyStep(isa, s, v, rs, 3, os(3));
    SetGet(s.regs, 31, Wrap(s.pc + 0x1000));
    s5 := EarlyStep(isa, s4, v, rs, 4, os(4));
    SetGet(s4.regs, 31, Wrap(Get(s4.regs, 31) + TO_TABLE));
  }

  /** One load from the table. */
  lemma {:induction false} LoadOne(isa: Isa, s: State, v: seq<Ins>, rs: seq<Reg>, n: nat, c: Open) returns (s': State)
    requires Sound(isa) && IsPrologue(isa, v, rs) && Loading(isa, s, v, rs, n) && n < 31
    ensures Step(isa, s, c) == Some(s') && s'.mem == s.mem && Within(isa, s', v, 6 + n)
    ensures s'.regs == Set(s.regs, rs[n + 1], Entry(s.mem, n + 1))
  {
    NextStep(isa, s, v, rs, 5 + n, c);
    TableOperand(s, rs[n + 1], n, c);
    s' := Step(isa, s, c).value;
  }

  lemma {:induction false} TableOperand(s: State, rd: Reg, n: nat, c: Open)
    requires |s.mem| == IMAGE_LEN && BASE <= s.pc < BASE + CODE_LIMIT && n < 31 && Get(s.regs, 31) == BASE + TABLE_OFF
    ensures Execute(s, Action.Load(rd, 31, 8 * n, 8), 4, c) == Some(State(s.pc + 4, Set(s.regs, rd, Entry(s.mem, n + 1)), s.mem))
  {
    var a := BASE + TABLE_OFF + 8 * n;
    TableAligned(s.mem, n);
    LoadExecutes(s, rd, 31, 8 * n, a, c);
  }

  lemma {:induction false} TableAligned(mem: seq<bv8>, n: nat)
    requires |mem| == IMAGE_LEN && n < 31
    ensures Accessible(mem, (BASE + TABLE_OFF + 8 * n, 8))
  {
    assert BASE + TABLE_OFF + 8 * n == 8 * (0x1000_0220 + n);
  }

  lemma {:induction false} LoadExecutes(s: State, rd: Reg, rs1: Reg, imm: int, a: nat, c: Open)
    requires Wrap(Get(s.regs, rs1) + imm) == a && Accessible(s.mem, (a, 8))
    ensures Execute(s, Action.Load(rd, rs1, imm, 8), 4, c) == Some(State(Wrap(s.pc + 4), Set(s.regs, rd, DoublewordAt(s.mem, a - BASE)), s.mem))
  {
  }

  /** The earlier registers keep their entries. */
  lemma {:induction false} LoadStep(isa: Isa, s: State, v: seq<Ins>, rs: seq<Reg>, n: nat, c: Open) returns (s': State)
    requires Sound(isa) && IsPrologue(isa, v, rs) && AllRegs(rs) && Loading(isa, s, v, rs, n) && n < 31
    ensures Step(isa, s, c) == Some(s') && s'.mem == s.mem && Loading(isa, s', v, rs, n + 1)
  {
    s' := LoadOne(isa, s, v, rs, n, c);
    NotZero(rs, n + 1);
    SetGet(s.regs, rs[n + 1], Entry(s.mem, n + 1));
    forall j | 1 <= j <= n + 1 ensures Holds(s', rs, j) {
      if j <= n {
        Apart(rs, j, n + 1);
        assert Holds(s, rs, j);
      }
    }
    if n < 30 {
      Apart(rs, 31, n + 1);
    }
  }

  lemma {:induction false} LoadsRun(isa: Isa, os: nat -> Open, run: seq<State>, v: seq<Ins>, rs: seq<Reg>, n: nat) returns (all: seq<State>)
    requires Sound(isa) && IsPrologue(isa, v, rs) && AllRegs(rs)
    requires Still(isa, os, 0, run) && |run| == 6 + n && Loading(isa, run[|run| - 1], v, rs, n)
    ensures Still(isa, os, 0, all) && |all| == 37 && all[0] == run[0] && all[2] == run[2]
    ensures all[36].mem == run[|run| - 1].mem && Loading(isa, all[36], v, rs, 31)
    decreases 31 - n
  {
    if n == 31 {
      all := run;
    } else {
      var s' := LoadStep(isa, run[|run| - 1], v, rs, n, os(|run| - 1));
      StillMore(isa, os, 0, run, s');
      all := LoadsRun(isa, os, run + [s'], v, rs, n + 1);
    }
  }

  lemma {:induction false} AnyPrologue(isa: Isa, os: nat -> Open, s: State, v: seq<Ins>, rs: seq<Reg>) returns (run: seq<State>)
    requires Sound(isa) && IsPrologue(isa, v, rs) && AllRegs(rs) && Within(isa, s, v, 0)
    ensures Still(isa, os, 0, run) && |run| == 37 && run[0] == s && run[36].mem == s.mem
    ensures Get(run[2].regs, 5) == BASE + EXIT_OFF && run[2].pc >= BASE
    ensures isa.fetch(run[2].mem, run[2].pc - BASE) == Some((WriteCsr(MTVEC, 5), 4))
    ensures Loading(isa, run[36], v, rs, 31)
  {
    var first := StubAddress(isa, os, s, v, rs);
    var second := TableAddress(isa, os, first, v, rs);
    run := LoadsRun(isa, os, second, v, rs, 0);
  }

  // ---- what the prologue's instructions mean ----

  const REGS: seq<Reg> := seq(32, n requires 0 <= n => RegOf(n))

  lemma {:induction false} RegBack(n: nat)
    requires n < 32
    ensures RegOf(n) as nat == n
  {
    BitsBack(n);
    FiveBits(ToBits(n));
  }

  lemma {:induction false} FiveBits(x: bv32)
    requires x as nat < 32
    ensures ((x & 0x1F) as bv5) as nat == x as nat
  {
    SmallBits(x);
  }

  lemma {:induction false} SmallBits(x: bv32)
    requires x as nat < 32
    ensures x < 32 && x & 0x1F == x
  {
  }

  lemma {:induction false} Forward12(n: nat)
    requires n < 0x800
    ensures Imm12(ToBits(n)) && Signed(ToBits(n)) == n
  {
    BitsBack(n);
    Below800(ToBits(n));
    SignedSmall(ToBits(n));
  }

  lemma {:induction false} Constants()
    ensures Imm12(TO_STUB) && Signed(TO_STUB) == -64
    ensures Upper20(0) && Upper20(1) && Signed(0) == 0 && (0 as bv32) << 12 == 0 && (1 as bv32) << 12 == 0x1000 && Signed(0x1000) == 0x1000
  {
  }

  lemma {:induction false} PrologueMeans(k: nat)
    requires k < 36
    ensures Means(RV64GC, PrologueAt(k), PrologueDoes(REGS, k))
  {
    if k < 3 {
      StubMeans();
    } else if k < 5 {
      BaseMeans();
    } else {
      LoadMeans(k);
    }
  }

  lemma {:induction false} StubMeans()
    ensures Means(RV64GC, Word(UType(0x17, 5, 0)), AddPc(5, 0))
    ensures Means(RV64GC, Word(IType(0x13, 0, 5, 5, TO_STUB)), AddImm(5, 5, -64))
    ensures Means(RV64GC, Word(IType(0x73, 1, 0, 5, MTVEC)), WriteCsr(MTVEC, 5))
  {
    Constants();
    WordMeans(Auipc(5, 0));
    WordMeans(OpImm(0, 5, 5, TO_STUB));
    WordMeans(CsrWrite(MTVEC, 5));
  }

  lemma {:induction false} BaseMeans()
    ensures Means(RV64GC, Word(UType(0x17, 31, 1)), AddPc(31, 0x1000))
    ensures Means(RV64GC, Word(IType(0x13, 0, 31, 31, ToBits(TO_TABLE))), AddImm(31, 31, TO_TABLE))
  {
    Constants();
    WordMeans(Auipc(31, 1));
    Forward12(TO_TABLE);
    WordMeans(OpImm(0, 31, 31, ToBits(TO_TABLE)));
  }

  lemma {:induction false} LoadMeans(k: nat)
    requires 5 <= k < 36
    ensures Means(RV64GC, PrologueAt(k), PrologueDoes(REGS, k))
  {
    Forward12(8 * (k - 5));
    TableLoad(REGS[k - 4], ToBits(8 * (k - 5)));
  }

  lemma {:induction false} TableLoad(rd: Reg, imm: bv32)
    requires Imm12(imm)
    ensures Means(RV64GC, Word(IType(0x03, 3, rd, 31, imm)), Action.Load(rd, 31, Signed(imm), 8))
  {
    WordMeans(Instr.Load(3, rd, 31, imm));
  }

  lemma {:induction false} RegsInOrder()
    ensures AllRegs(REGS)
  {
    forall n | 0 <= n < 32 ensures Numbered(REGS, n) {
      RegBack(n);
    }
    RegBack(31);
    ThirtyOne(REGS[31]);
  }

  lemma {:induction false} ThirtyOne(r: Reg)
    requires r as nat == 31
    ensures r == 31
  {
  }

  lemma {:induction false} PrologueIsOne()
    ensures IsPrologue(RV64GC, PrologueIns(36), REGS)
  {
    var v := PrologueIns(36);
    forall k | 0 <= k < 36 ensures DoesAt(RV64GC, v, REGS, k) {
      PrologueMeans(k);
    }
  }

  /**
   From the entry point, whatever the registers hold, the prologue runs without a trap or a
   store, hands the exit stub's address to the trap vector, and reaches the body with each
   register but the zero one holding its table entry.
   */
  lemma {:induction false} PrologueRuns(p: Program, cs: seq<Chunk>, s: State, os: nat -> Open) returns (run: seq<State>)
    requires IsProgram(p, cs) && s.pc == BASE + ENTRY_OFF && s.mem == p.image
    ensures Still(RV64GC, os, 0, run) && |run| == 37 && run[0] == s
    ensures run[2].pc >= BASE && RV64GC.fetch(run[2].mem, run[2].pc - BASE) == Some((WriteCsr(MTVEC, 5), 4)) && Get(run[2].regs, 5) == BASE + EXIT_OFF
    ensures run[36].pc == p.bodyStart && run[36].mem == p.image
    ensures AllRegs(REGS) && forall n :: 1 <= n < 32 ==> Holds(run[36], REGS, n)
  {
    RealIsSound();
    RegsInOrder();
    PrologueIsOne();
    run := AnyPrologue(RV64GC, os, s, PrologueIns(36), REGS);
  }

  // ---- the whole program ----

  ghost predicate GoesAt(isa: Isa, os: nat -> Open, run: seq<State>, k: nat)
    requires k + 1 < |run|
  {
    Step(isa, run[k], os(k)) == Some(run[k + 1])
  }

  /** No step traps. */
  ghost predicate Goes(isa: Isa, os: nat -> Open, run: seq<State>) {
    run != [] && forall k :: 0 <= k < |run| - 1 ==> GoesAt(isa, os, run, k)
  }

  lemma {:induction false} Both(isa: Isa, os: nat -> Open, a: seq<State>, b: seq<State>)
    requires Still(isa, os, 0, a) && Safe(isa, Later(os, |a| - 1), 0, b) && a[|a| - 1] == b[0]
    ensures Goes(isa, os, a + b[1..])
  {
    var run := a + b[1..];
    forall k | 0 <= k < |run| - 1 ensures GoesAt(isa, os, run, k) {
      if k < |a| - 1 {
        assert StillAt(isa, os, 0, a, k);
      } else {
        assert run[k] == b[k - (|a| - 1)] && run[k + 1] == b[k + 1 - (|a| - 1)];
        assert SafeAt(isa, Later(os, |a| - 1), 0, b, k - (|a| - 1));
      }
    }
  }

  /** The open results from a later step on. */
  function Later(os: nat -> Open, n: nat): nat -> Open {
    (t: nat) => os(n + t)
  }

  /** A generated program, started at its entry, reaches its `ecall` with no trap on the way and its code, table and stub as they were. */
  lemma {:induction false} ProgramRuns(p: Program, cs: seq<Chunk>, s: State, os: nat -> Open) returns (run: seq<State>)
    requires IsProgram(p, cs) && s.pc == BASE + ENTRY_OFF && s.mem == p.image
    ensures Goes(RV64GC, os, run) && run[0] == s && run[|run| - 1].pc == p.ecallPc && |run| - 1 < 36 + p.bodyLen
    ensures |run| > 36 && run[36].pc == p.bodyStart && run[36].mem == p.image && |p.image| == IMAGE_LEN
    ensures forall n :: 1 <= n < 32 ==> Holds(run[36], REGS, n)
    ensures OnlyScratch(p.image, run[|run| - 1].mem)
  {
    var first := PrologueRuns(p, cs, s, os);
    var rest := EveryRunIsSafe(p, cs, first[36], Later(os, 36));
    Both(RV64GC, os, first, rest);
    run := first + rest[1..];
    assert run[36] == first[36] && run[|run| - 1] == rest[|rest| - 1];
  }
}
