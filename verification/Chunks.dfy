/** What the generator emits: chunks, their lengths, and how each resolves to instructions once its target is known. */
module Chunks {
  import opened Wrappers
  import opened Encoding
  import Compressed
  import opened Machine
  import opened Blocks

  const MAX_CHUNK: nat := 24
  const MAX_SKIP: nat := 6
  const ECALL: bv32 := 0x0000_0073

  datatype Chunk =
    | Plain(ins: seq<Ins>)
    | CondBranch(f3: bv3, rs1: Reg, rs2: Reg, skip: nat)
    | JumpLink(rd: Reg, skip: nat)
    | JumpFar(rt: Reg, rd: Reg, skip: nat)
    | ShortBranch(ne: bool, rs1: Reg, skip: nat)
    | ShortJump(skip: nat)
    | ShortFar(rt: Reg, link: bool, skip: nat)

  function Len(c: Chunk): nat {
    match c
    case Plain(v) => SizeOf(v)
    case CondBranch(_, _, _, _) => 4
    case JumpLink(_, _) => 4
    case JumpFar(_, _, _) => 12
    case ShortBranch(_, _, _) => 2
    case ShortJump(_) => 2
    case ShortFar(_, _, _) => 10
  }

  predicate Skips(c: Chunk) {
    !c.Plain? ==> 1 <= c.skip <= MAX_SKIP
  }

  /** What the generator may produce. */
  ghost predicate ChunkOk(c: Chunk) {
    && Skips(c)
    && Len(c) <= MAX_CHUNK
    && match c
       case Plain(v) => TameBlock(RV64GC, v) || MemBlock(RV64GC, v)
       case CondBranch(f3, _, _, _) => f3 != 2 && f3 != 3
       case JumpFar(rt, _, _) => rt != 0
       case ShortBranch(_, rs1, _) => Compressed.Popular(rs1)
       case ShortFar(rt, _, _) => rt != 0
       case _ => true
  }

  /** One compressed instruction that touches no memory and transfers no control. */
  ghost predicate ShortArithmetic(c: Chunk) {
    c.Plain? && |c.ins| == 1 && c.ins[0].Half? && TameBlock(RV64GC, c.ins)
  }

  /** An address sequence and one compressed access through it. */
  ghost predicate ShortAccess(c: Chunk) {
    c.Plain? && |c.ins| == 5 && c.ins[4].Half? && MemBlock(RV64GC, c.ins)
  }

  // ---- numbers as bits ----

  function Bit(odd: bool): bv32 { if odd then 1 else 0 }

  function Next(x: bv32, odd: bool): bv32 { (x << 1) | Bit(odd) }

  /** A displacement as the bits of an immediate. */
  function ToBits(n: nat): bv32 {
    if n == 0 then 0 else Next(ToBits(n / 2), n % 2 == 1)
  }

  lemma {:induction false} NextValue(x: bv32, odd: bool)
    requires x < 0x800
    ensures Next(x, odd) as nat == 2 * (x as nat) + if odd then 1 else 0
  {
  }

  lemma {:induction false} NextParity(x: bv32, odd: bool)
    ensures (Next(x, odd) & 1 == 0) == !odd
  {
  }

  lemma {:induction false} Below800(x: bv32)
    requires x as nat < 0x800
    ensures x < 0x800
  {
  }

  lemma {:induction false} Below100(x: bv32)
    requires x as nat < 0x100
    ensures x < 0x100
  {
  }

  lemma {:induction false} NextOf(n: nat, x: bv32)
    requires x < 0x800 && x as nat == n / 2
    ensures Next(x, n % 2 == 1) as nat == n
  {
    NextValue(x, n % 2 == 1);
  }

  lemma {:induction false} BitsBack(n: nat)
    requires n < 0x1000
    ensures ToBits(n) as nat == n
  {
    if n > 0 {
      BitsBack(n / 2);
      Below800(ToBits(n / 2));
      NextOf(n, ToBits(n / 2));
    }
  }

  lemma {:induction false} BitsEven(n: nat)
    ensures (ToBits(n) & 1 == 0) == (n % 2 == 0)
  {
    if n > 0 {
      NextParity(ToBits(n / 2), n % 2 == 1);
    }
  }

  lemma {:induction false} SignedSmall(x: bv32)
    requires x < 0x800
    ensures Signed(x) == x as nat
  {
  }

  /** A forward displacement below 256 fits every format, and reads back as itself. */
  lemma {:induction false} Displacement(d: nat)
    requires d < 0x100 && d % 2 == 0
    ensures var x := ToBits(d); x < 0x100 && x & 1 == 0 && Imm12(x) && Imm13(x) && Imm21(x) && Signed(x) == d
  {
    BitsBack(d);
    BitsEven(d);
    Below100(ToBits(d));
    FitsAll(ToBits(d));
    SignedSmall(ToBits(d));
  }

  lemma {:induction false} FitsAll(x: bv32)
    requires x < 0x100 && x & 1 == 0
    ensures Imm12(x) && Imm13(x) && Imm21(x) && x < 0x800
  {
  }

  // ---- what emitted instructions mean ----

  lemma {:induction false} LowBits(w: bv32)
    requires Decode(w).Some?
    ensures w & 3 == 3
  {
    OpcodeLow(w);
  }

  lemma {:induction false} OpcodeLow(w: bv32)
    ensures Opcode(w) & 3 == 3 ==> w & 3 == 3
  {
  }

  lemma {:induction false} WordMeans(i: Instr)
    requires Legal(i)
    ensures Means(RV64GC, Word(Encode(i)), ActionOf(i))
  {
    DecodeEncode(i);
    LowBits(Encode(i));
  }

  lemma {:induction false} HalfMeans(h: bv16, i: Instr)
    requires Compressed.DecodeC(h) == Some(i)
    ensures Means(RV64GC, Half(h), ActionOf(i))
  {
  }

  // ---- resolution ----

  /** The instructions of a chunk whose target lies `d` bytes from its start. */
  function Resolve(c: Chunk, d: nat): (v: seq<Ins>)
    requires ChunkOk(c)
  {
    match c
    case Plain(v) => v
    case CondBranch(f3, rs1, rs2, _) => [Word(BType(f3, rs1, rs2, ToBits(d)))]
    case JumpLink(rd, _) => [Word(JType(rd, ToBits(d)))]
    case JumpFar(rt, rd, _) =>
      var d1 := Clamped(d);
      [Word(UType(0x17, rt, 0)), Word(IType(0x13, 0, rt, rt, ToBits(d1))), Word(IType(0x67, 0, rd, rt, ToBits(d - d1)))]
    case ShortBranch(ne, rs1, _) => [Half(Compressed.CBranch(ne, rs1, ToBits(d)))]
    case ShortJump(_) => [Half(Compressed.CJump(ToBits(d)))]
    case ShortFar(rt, link, _) =>
      [Word(UType(0x17, rt, 0)), Word(IType(0x13, 0, rt, rt, ToBits(d))), Half(Compressed.CR(if link then Compressed.ADD else Compressed.MOVE, rt, 0))]
  }

  /** What one twelve-bit field takes of a displacement. */
  function Clamped(d: nat): (r: nat)
    ensures r <= d
  {
    if d > 2047 then 2047 else d
  }

  lemma {:induction false} ResolveSize(c: Chunk, d: nat)
    requires ChunkOk(c)
    ensures SizeOf(Resolve(c, d)) == Len(c)
  {
    if !c.Plain? {
      Sizes(Resolve(c, d));
    }
  }

  lemma {:induction false} OneJump(i: Ins, what: Action, d: nat)
    requires Means(RV64GC, i, what) && (what.Branch? || what.Jump?) && what.imm == d
    ensures ControlBlock(RV64GC, [i], d)
  {
  }

  lemma {:induction false} ThreeJump(i: Ins, j: Ins, k: Ins, rt: Reg, rd: Reg, i1: int, i2: int, d: nat)
    requires i.Word? && j.Word? && rt != 0 && i1 + i2 == d
    requires Means(RV64GC, i, AddPc(rt, 0)) && Means(RV64GC, j, AddImm(rt, rt, i1)) && Means(RV64GC, k, JumpReg(rd, rt, i2))
    ensures ControlBlock(RV64GC, [i, j, k], d)
  {
    assert FarJump(RV64GC, [i, j, k], rt, rd, i1, i2, d);
  }

  lemma {:induction false} HereMeans(rt: Reg)
    ensures Means(RV64GC, Word(UType(0x17, rt, 0)), AddPc(rt, 0))
  {
    WordMeans(Auipc(rt, 0));
    ShiftedZero();
  }

  lemma {:induction false} ShiftedZero()
    ensures (0 as bv32) << 12 == 0 && Signed(0) == 0
  {
  }

  lemma {:induction false} AddMeans(rt: Reg, x: bv32)
    requires Imm12(x)
    ensures Means(RV64GC, Word(IType(0x13, 0, rt, rt, x)), AddImm(rt, rt, Signed(x)))
  {
    WordMeans(OpImm(0, rt, rt, x));
  }

  /** Every chunk the generator produces resolves to a block of a known shape, for any even displacement below 256. */
  lemma {:induction false} ResolveBlock(c: Chunk, d: nat)
    requires ChunkOk(c) && d < 0x100 && d % 2 == 0
    ensures Block(RV64GC, Resolve(c, d), d)
  {
    Displacement(d);
    var x := ToBits(d);
    match c {
      case Plain(v) =>
      case CondBranch(f3, rs1, rs2, _) => BranchBlock(f3, rs1, rs2, x, d);
      case JumpLink(rd, _) => JumpBlock(rd, x, d);
      case JumpFar(rt, rd, _) => FarBlock(rt, rd, x, d);
      case ShortBranch(ne, rs1, _) => ShortBranchBlock(ne, rs1, x, d);
      case ShortJump(_) => ShortJumpBlock(x, d);
      case ShortFar(rt, link, _) => ShortFarBlock(rt, link, x, d);
    }
  }

  // ---- and says what the chunk says ----

  function ImmOf(i: Option<Instr>): int
    requires i.Some? && (i.value.OpImm? || i.value.Jalr? || i.value.Jal? || i.value.Branch?)
  {
    Signed(i.value.imm)
  }

  predicate SaysBranch(i: Ins, f3: bv3, rs1: Reg, rs2: Reg, d: int) {
    var w := Decoded(i);
    w.Some? && w.value.Branch? && w.value.f3 == f3 && w.value.rs1 == rs1 && w.value.rs2 == rs2 && ImmOf(w) == d
  }

  predicate SaysJump(i: Ins, rd: Reg, d: int) {
    var w := Decoded(i);
    w.Some? && w.value.Jal? && w.value.rd == rd && ImmOf(w) == d
  }

  /** The address so far on, built in `rt` and jumped through. */
  predicate SaysFarJump(i: Ins, j: Ins, k: Ins, rt: Reg, rd: Reg, d: int) {
    var a, b, c := Decoded(i), Decoded(j), Decoded(k);
    && a == Some(Auipc(rt, 0))
    && b.Some? && b.value.OpImm? && b.value.f3 == 0 && b.value.rd == rt && b.value.rs1 == rt
    && c.Some? && c.value.Jalr? && c.value.rd == rd && c.value.rs1 == rt
    && ImmOf(b) + ImmOf(c) == d
  }

  /** The instructions, decoded, are the chunk's own: its condition, its registers, its link, this displacement. */
  predicate Says(c: Chunk, d: nat, v: seq<Ins>) {
    match c
    case Plain(ins) => v == ins
    case CondBranch(f3, rs1, rs2, _) => |v| == 1 && v[0].Word? && SaysBranch(v[0], f3, rs1, rs2, d)
    case JumpLink(rd, _) => |v| == 1 && v[0].Word? && SaysJump(v[0], rd, d)
    case JumpFar(rt, rd, _) => |v| == 3 && v[2].Word? && SaysFarJump(v[0], v[1], v[2], rt, rd, d)
    case ShortBranch(ne, rs1, _) => |v| == 1 && v[0].Half? && SaysBranch(v[0], if ne then 1 else 0, rs1, 0, d)
    case ShortJump(_) => |v| == 1 && v[0].Half? && SaysJump(v[0], 0, d)
    case ShortFar(rt, link, _) => |v| == 3 && v[2].Half? && SaysFarJump(v[0], v[1], v[2], rt, if link then 1 else 0, d)
  }

  lemma {:induction false} WordDecodes(i: Instr)
    requires Legal(i)
    ensures Decoded(Word(Encode(i))) == Some(i)
  {
    DecodeEncode(i);
    LowBits(Encode(i));
  }

  lemma {:induction false} ResolveSays(c: Chunk, d: nat)
    requires ChunkOk(c) && d < 0x100 && d % 2 == 0
    ensures Says(c, d, Resolve(c, d))
  {
    Displacement(d);
    var x := ToBits(d);
    match c {
      case Plain(v) =>
      case CondBranch(f3, rs1, rs2, _) => BranchSays(f3, rs1, rs2, x);
      case JumpLink(rd, _) => JumpSays(rd, x);
      case JumpFar(rt, rd, _) => FarSays(rt, rd, d);
      case ShortBranch(ne, rs1, _) => ShortBranchSays(ne, rs1, x);
      case ShortJump(_) => ShortJumpSays(x);
      case ShortFar(rt, link, _) => ShortFarSays(rt, link, d);
    }
  }

  lemma {:induction false} BranchSays(f3: bv3, rs1: Reg, rs2: Reg, x: bv32)
    requires f3 != 2 && f3 != 3 && Imm13(x)
    ensures SaysBranch(Word(BType(f3, rs1, rs2, x)), f3, rs1, rs2, Signed(x))
  {
    WordDecodes(Instr.Branch(f3, rs1, rs2, x));
  }

  lemma {:induction false} JumpSays(rd: Reg, x: bv32)
    requires Imm21(x)
    ensures SaysJump(Word(JType(rd, x)), rd, Signed(x))
  {
    WordDecodes(Jal(rd, x));
  }

  lemma {:induction false} ShortBranchSays(ne: bool, rs1: Reg, x: bv32)
    requires Compressed.Popular(rs1) && x < 0x100 && x & 1 == 0
    ensures SaysBranch(Half(Compressed.CBranch(ne, rs1, x)), if ne then 1 else 0, rs1, 0, Signed(x))
  {
    Compressed.CBranchBack(ne, rs1, x);
  }

  lemma {:induction false} ShortJumpSays(x: bv32)
    requires x < 0x800 && x & 1 == 0
    ensures SaysJump(Half(Compressed.CJump(x)), 0, Signed(x))
  {
    Compressed.CJumpBack(x);
  }

  lemma {:induction false} FarSays(rt: Reg, rd: Reg, d: nat)
    requires d < 0x100 && d % 2 == 0
    ensures SaysFarJump(Word(UType(0x17, rt, 0)), Word(IType(0x13, 0, rt, rt, ToBits(Clamped(d)))), Word(IType(0x67, 0, rd, rt, ToBits(d - Clamped(d)))), rt, rd, d)
  {
    Displacement(d);
    ZeroFits();
    ShiftedZero();
    WordDecodes(Auipc(rt, 0));
    WordDecodes(OpImm(0, rt, rt, ToBits(d)));
    WordDecodes(Jalr(rd, rt, 0));
  }

  lemma {:induction false} ShortFarSays(rt: Reg, link: bool, d: nat)
    requires rt != 0 && d < 0x100 && d % 2 == 0
    ensures SaysFarJump(Word(UType(0x17, rt, 0)), Word(IType(0x13, 0, rt, rt, ToBits(d))),
                        Half(Compressed.CR(if link then Compressed.ADD else Compressed.MOVE, rt, 0)), rt, if link then 1 else 0, d)
  {
    Displacement(d);
    ZeroFits();
    ShiftedZero();
    WordDecodes(Auipc(rt, 0));
    WordDecodes(OpImm(0, rt, rt, ToBits(d)));
    Compressed.CrBack(rt, 0);
  }

  // ---- blocks ----

  lemma {:induction false} BranchBlock(f3: bv3, rs1: Reg, rs2: Reg, x: bv32, d: nat)
    requires f3 != 2 && f3 != 3 && Imm13(x) && Signed(x) == d
    ensures ControlBlock(RV64GC, [Word(BType(f3, rs1, rs2, x))], d)
  {
    WordMeans(Instr.Branch(f3, rs1, rs2, x));
    OneJump(Word(BType(f3, rs1, rs2, x)), Action.Branch(Signed(x)), d);
  }

  lemma {:induction false} JumpBlock(rd: Reg, x: bv32, d: nat)
    requires Imm21(x) && Signed(x) == d
    ensures ControlBlock(RV64GC, [Word(JType(rd, x))], d)
  {
    WordMeans(Jal(rd, x));
    OneJump(Word(JType(rd, x)), Jump(rd, Signed(x)), d);
  }

  lemma {:induction false} FarBlock(rt: Reg, rd: Reg, x: bv32, d: nat)
    requires rt != 0 && Imm12(x) && Signed(x) == d && x == ToBits(d) && d < 0x100
    ensures ControlBlock(RV64GC, [Word(UType(0x17, rt, 0)), Word(IType(0x13, 0, rt, rt, ToBits(Clamped(d)))), Word(IType(0x67, 0, rd, rt, ToBits(d - Clamped(d))))], d)
  {
    HereMeans(rt);
    AddMeans(rt, x);
    ShiftedZero();
    ZeroFits();
    WordMeans(Jalr(rd, rt, 0));
    ThreeJump(Word(UType(0x17, rt, 0)), Word(IType(0x13, 0, rt, rt, x)), Word(IType(0x67, 0, rd, rt, 0)), rt, rd, Signed(x), 0, d);
  }

  lemma {:induction false} ZeroFits()
    ensures Imm12(0)
  {
  }

  lemma {:induction false} ShortBranchBlock(ne: bool, rs1: Reg, x: bv32, d: nat)
    requires Compressed.Popular(rs1) && x < 0x100 && x & 1 == 0 && Signed(x) == d
    ensures ControlBlock(RV64GC, [Half(Compressed.CBranch(ne, rs1, x))], d)
  {
    Compressed.CBranchBack(ne, rs1, x);
    HalfMeans(Compressed.CBranch(ne, rs1, x), Instr.Branch(if ne then 1 else 0, rs1, 0, x));
    OneJump(Half(Compressed.CBranch(ne, rs1, x)), Action.Branch(Signed(x)), d);
  }

  lemma {:induction false} ShortJumpBlock(x: bv32, d: nat)
    requires x < 0x100 && x & 1 == 0 && Signed(x) == d
    ensures ControlBlock(RV64GC, [Half(Compressed.CJump(x))], d)
  {
    Compressed.CJumpBack(x);
    HalfMeans(Compressed.CJump(x), Jal(0, x));
    OneJump(Half(Compressed.CJump(x)), Jump(0, Signed(x)), d);
  }

  lemma {:induction false} ShortFarBlock(rt: Reg, link: bool, x: bv32, d: nat)
    requires rt != 0 && Imm12(x) && Signed(x) == d
    ensures ControlBlock(RV64GC, [Word(UType(0x17, rt, 0)), Word(IType(0x13, 0, rt, rt, x)), Half(Compressed.CR(if link then Compressed.ADD else Compressed.MOVE, rt, 0))], d)
  {
    HereMeans(rt);
    AddMeans(rt, x);
    ShiftedZero();
    Compressed.CrBack(rt, 0);
    var h := Compressed.CR(if link then Compressed.ADD else Compressed.MOVE, rt, 0);
    HalfMeans(h, Jalr(if link then 1 else 0, rt, 0));
    ThreeJump(Word(UType(0x17, rt, 0)), Word(IType(0x13, 0, rt, rt, x)), Half(h), rt, if link then 1 else 0, Signed(x), 0, d);
  }
}
