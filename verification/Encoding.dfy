/** The 32-bit instruction formats: the generator's encoders, and the decoder of section 2.3 of the RISC-V Unprivileged ISA. */
module Encoding {
  import opened Wrappers

  type Reg = bv5

  // ---- encoders ----

  function RType(op: bv7, f3: bv3, f7: bv7, rd: Reg, rs1: Reg, rs2: Reg): bv32 {
    (op as bv32) | ((rd as bv32) << 7) | ((f3 as bv32) << 12) | ((rs1 as bv32) << 15) | ((rs2 as bv32) << 20) | ((f7 as bv32) << 25)
  }

  function IType(op: bv7, f3: bv3, rd: Reg, rs1: Reg, imm: bv32): bv32 {
    (op as bv32) | ((rd as bv32) << 7) | ((f3 as bv32) << 12) | ((rs1 as bv32) << 15) | ((imm & 0xFFF) << 20)
  }

  function SType(op: bv7, f3: bv3, rs1: Reg, rs2: Reg, imm: bv32): bv32 {
    var i := imm & 0xFFF;
    (op as bv32) | ((i & 0x1F) << 7) | ((f3 as bv32) << 12) | ((rs1 as bv32) << 15) | ((rs2 as bv32) << 20) | ((i >> 5) << 25)
  }

  function BType(f3: bv3, rs1: Reg, rs2: Reg, i: bv32): bv32 {
    0x63 | (((i >> 11) & 1) << 7) | (((i >> 1) & 0xF) << 8) | ((f3 as bv32) << 12) | ((rs1 as bv32) << 15) | ((rs2 as bv32) << 20)
    | (((i >> 5) & 0x3F) << 25) | (((i >> 12) & 1) << 31)
  }

  function UType(op: bv7, rd: Reg, imm: bv32): bv32 {
    (op as bv32) | ((rd as bv32) << 7) | ((imm & 0xF_FFFF) << 12)
  }

  function JType(rd: Reg, i: bv32): bv32 {
    0x6F | ((rd as bv32) << 7) | (((i >> 12) & 0xFF) << 12) | (((i >> 11) & 1) << 20) | (((i >> 1) & 0x3FF) << 21) | (((i >> 20) & 1) << 31)
  }

  // ---- fields ----

  function Opcode(w: bv32): bv7 { (w & 0x7F) as bv7 }

  function Rd(w: bv32): Reg { ((w >> 7) & 0x1F) as bv5 }

  function Rs1(w: bv32): Reg { ((w >> 15) & 0x1F) as bv5 }

  function Rs2(w: bv32): Reg { ((w >> 20) & 0x1F) as bv5 }

  function Funct3(w: bv32): bv3 { ((w >> 12) & 0x7) as bv3 }

  function Funct7(w: bv32): bv7 { ((w >> 25) & 0x7F) as bv7 }

  /** Arithmetic shift right by 20: the sign-extended top twelve bits. */
  function Asr20(w: bv32): bv32 {
    (w >> 20) | (if w & 0x8000_0000 != 0 then 0xFFFF_F000 else 0)
  }

  function ImmI(w: bv32): bv32 { Asr20(w) }

  /** The upper immediate, as the twenty bits the field holds. */
  function ImmU(w: bv32): bv32 { w >> 12 }

  /** The number of a control register, in the place of an immediate. */
  function CsrField(w: bv32): bv32 { w >> 20 }

  function ImmS(w: bv32): bv32 {
    (Asr20(w) & 0xFFFF_FFE0) | ((w >> 7) & 0x1F)
  }

  function ImmB(w: bv32): bv32 {
    var v := (((w >> 31) & 1) << 12) | (((w >> 7) & 1) << 11) | (((w >> 25) & 0x3F) << 5) | (((w >> 8) & 0xF) << 1);
    v | (if v & 0x1000 != 0 then 0xFFFF_E000 else 0)
  }

  function ImmJ(w: bv32): bv32 {
    var v := (((w >> 31) & 1) << 20) | (((w >> 12) & 0xFF) << 12) | (((w >> 20) & 1) << 11) | (((w >> 21) & 0x3FF) << 1);
    v | (if v & 0x10_0000 != 0 then 0xFFE0_0000 else 0)
  }

  // ---- the immediates each format can carry ----

  predicate Imm12(i: bv32) { i < 0x800 || i >= 0xFFFF_F800 }

  predicate Imm13(i: bv32) { i & 1 == 0 && (i < 0x1000 || i >= 0xFFFF_F000) }

  predicate Imm21(i: bv32) { i & 1 == 0 && (i < 0x10_0000 || i >= 0xFFF0_0000) }

  predicate Upper20(i: bv32) { i < 0x10_0000 }

  // ---- every field comes back ----

  lemma {:induction false} RTypeFields(op: bv7, f3: bv3, f7: bv7, rd: Reg, rs1: Reg, rs2: Reg)
    ensures var w := RType(op, f3, f7, rd, rs1, rs2);
            Opcode(w) == op && Funct3(w) == f3 && Funct7(w) == f7 && Rd(w) == rd && Rs1(w) == rs1 && Rs2(w) == rs2
  {
  }

  lemma {:induction false} ITypeFields(op: bv7, f3: bv3, rd: Reg, rs1: Reg, imm: bv32)
    ensures var w := IType(op, f3, rd, rs1, imm);
            Opcode(w) == op && Funct3(w) == f3 && Rd(w) == rd && Rs1(w) == rs1 && (Imm12(imm) ==> ImmI(w) == imm)
  {
  }

  lemma {:induction false} STypeFields(op: bv7, f3: bv3, rs1: Reg, rs2: Reg, imm: bv32)
    ensures var w := SType(op, f3, rs1, rs2, imm);
            Opcode(w) == op && Funct3(w) == f3 && Rs1(w) == rs1 && Rs2(w) == rs2 && (Imm12(imm) ==> ImmS(w) == imm)
  {
  }

  lemma {:induction false} BTypeFields(f3: bv3, rs1: Reg, rs2: Reg, imm: bv32)
    ensures var w := BType(f3, rs1, rs2, imm);
            Opcode(w) == 0x63 && Funct3(w) == f3 && Rs1(w) == rs1 && Rs2(w) == rs2 && (Imm13(imm) ==> ImmB(w) == imm)
  {
  }

  lemma {:induction false} UTypeFields(op: bv7, rd: Reg, imm: bv32)
    ensures var w := UType(op, rd, imm);
            Opcode(w) == op && Rd(w) == rd && (Upper20(imm) ==> ImmU(w) == imm)
  {
  }

  lemma {:induction false} JTypeFields(rd: Reg, imm: bv32)
    ensures var w := JType(rd, imm); Opcode(w) == 0x6F && Rd(w) == rd && (Imm21(imm) ==> ImmJ(w) == imm)
  {
  }

  // ---- instructions ----

  datatype Instr =
    | Lui(rd: Reg, imm: bv32)
    | Auipc(rd: Reg, imm: bv32)
    | OpImm(f3: bv3, rd: Reg, rs1: Reg, imm: bv32)
    | OpImm32(f3: bv3, rd: Reg, rs1: Reg, imm: bv32)
    | Op(f3: bv3, f7: bv7, rd: Reg, rs1: Reg, rs2: Reg)
    | Op32(f3: bv3, f7: bv7, rd: Reg, rs1: Reg, rs2: Reg)
    | Load(f3: bv3, rd: Reg, rs1: Reg, imm: bv32)
    | Store(f3: bv3, rs1: Reg, rs2: Reg, imm: bv32)
    | Amo(f5: bv5, f3: bv3, rd: Reg, rs1: Reg, rs2: Reg)
    | Branch(f3: bv3, rs1: Reg, rs2: Reg, imm: bv32)
    | Jal(rd: Reg, imm: bv32)
    | Jalr(rd: Reg, rs1: Reg, imm: bv32)
    | CsrWrite(csr: bv32, rs1: Reg)
    | Fence
    | Ecall

  predicate LegalOpImm(f3: bv3, imm: bv32) {
    Imm12(imm) && (f3 == 1 ==> imm < 64) && (f3 == 5 ==> imm & 0xFFFF_FBC0 == 0)
  }

  predicate LegalOpImm32(f3: bv3, imm: bv32) {
    Imm12(imm) && (f3 == 0 || (f3 == 1 && imm < 32) || (f3 == 5 && imm & 0xFFFF_FBE0 == 0))
  }

  predicate LegalOp(f3: bv3, f7: bv7) {
    f7 == 0 || f7 == 1 || (f7 == 0x20 && (f3 == 0 || f3 == 5))
  }

  predicate LegalOp32(f3: bv3, f7: bv7) {
    || (f7 == 0 && (f3 == 0 || f3 == 1 || f3 == 5))
    || (f7 == 0x20 && (f3 == 0 || f3 == 5))
    || (f7 == 1 && (f3 == 0 || f3 >= 4))
  }

  predicate LegalAmo(f5: bv5, f3: bv3, rs2: Reg) {
    (f3 == 2 || f3 == 3) && (f5 == 2 ==> rs2 == 0) && (f5 <= 4 || f5 & 3 == 0)
  }

  /** The instructions the base ISA and its M and A extensions define, so far as the generator draws on them. */
  predicate Legal(i: Instr) {
    match i
    case Lui(_, imm) => Upper20(imm)
    case Auipc(_, imm) => Upper20(imm)
    case OpImm(f3, _, _, imm) => LegalOpImm(f3, imm)
    case OpImm32(f3, _, _, imm) => LegalOpImm32(f3, imm)
    case Op(f3, f7, _, _, _) => LegalOp(f3, f7)
    case Op32(f3, f7, _, _, _) => LegalOp32(f3, f7)
    case Load(f3, _, _, imm) => f3 != 7 && Imm12(imm)
    case Store(f3, _, _, imm) => f3 < 4 && Imm12(imm)
    case Amo(f5, f3, _, _, rs2) => LegalAmo(f5, f3, rs2)
    case Branch(f3, _, _, imm) => f3 != 2 && f3 != 3 && Imm13(imm)
    case Jal(_, imm) => Imm21(imm)
    case Jalr(_, _, imm) => Imm12(imm)
    case CsrWrite(csr, _) => csr < 0x1000
    case Fence => true
    case Ecall => true
  }

  function Checked(i: Instr): (r: Option<Instr>) {
    if Legal(i) then Some(i) else None
  }

  /** What a word means; `None` when it is not one of these instructions. */
  function Decode(w: bv32): (r: Option<Instr>)
    ensures r.Some? ==> Legal(r.value)
  {
    var op, f3 := Opcode(w), Funct3(w);
    if op == 0x37 then Checked(Lui(Rd(w), ImmU(w)))
    else if op == 0x17 then Checked(Auipc(Rd(w), ImmU(w)))
    else if op == 0x13 then Checked(OpImm(f3, Rd(w), Rs1(w), ImmI(w)))
    else if op == 0x1B then Checked(OpImm32(f3, Rd(w), Rs1(w), ImmI(w)))
    else if op == 0x33 then Checked(Op(f3, Funct7(w), Rd(w), Rs1(w), Rs2(w)))
    else if op == 0x3B then Checked(Op32(f3, Funct7(w), Rd(w), Rs1(w), Rs2(w)))
    else if op == 0x03 then Checked(Load(f3, Rd(w), Rs1(w), ImmI(w)))
    else if op == 0x23 then Checked(Store(f3, Rs1(w), Rs2(w), ImmS(w)))
    else if op == 0x2F then Checked(Amo((Funct7(w) >> 2) as bv5, f3, Rd(w), Rs1(w), Rs2(w)))
    else if op == 0x63 then Checked(Branch(f3, Rs1(w), Rs2(w), ImmB(w)))
    else if op == 0x6F then Checked(Jal(Rd(w), ImmJ(w)))
    else if op == 0x67 && f3 == 0 then Checked(Jalr(Rd(w), Rs1(w), ImmI(w)))
    else if op == 0x0F && f3 == 0 then Some(Fence)
    else if op == 0x73 && f3 == 1 && Rd(w) == 0 then Checked(CsrWrite(CsrField(w), Rs1(w)))
    else if w == 0x73 then Some(Ecall)
    else None
  }

  function Encode(i: Instr): bv32 {
    match i
    case Lui(rd, imm) => UType(0x37, rd, imm)
    case Auipc(rd, imm) => UType(0x17, rd, imm)
    case OpImm(f3, rd, rs1, imm) => IType(0x13, f3, rd, rs1, imm)
    case OpImm32(f3, rd, rs1, imm) => IType(0x1B, f3, rd, rs1, imm)
    case Op(f3, f7, rd, rs1, rs2) => RType(0x33, f3, f7, rd, rs1, rs2)
    case Op32(f3, f7, rd, rs1, rs2) => RType(0x3B, f3, f7, rd, rs1, rs2)
    case Load(f3, rd, rs1, imm) => IType(0x03, f3, rd, rs1, imm)
    case Store(f3, rs1, rs2, imm) => SType(0x23, f3, rs1, rs2, imm)
    case Amo(f5, f3, rd, rs1, rs2) => RType(0x2F, f3, (f5 as bv7) << 2, rd, rs1, rs2)
    case Branch(f3, rs1, rs2, imm) => BType(f3, rs1, rs2, imm)
    case Jal(rd, imm) => JType(rd, imm)
    case Jalr(rd, rs1, imm) => IType(0x67, 0, rd, rs1, imm)
    case CsrWrite(csr, rs1) => IType(0x73, 1, 0, rs1, csr)
    case Fence => 0x0FF0_000F
    case Ecall => 0x0000_0073
  }

  lemma {:induction false} UpperDecodes(w: bv32, rd: Reg, imm: bv32)
    requires Rd(w) == rd && ImmU(w) == imm && Upper20(imm)
    ensures Opcode(w) == 0x37 ==> Decode(w) == Some(Lui(rd, imm))
    ensures Opcode(w) == 0x17 ==> Decode(w) == Some(Auipc(rd, imm))
  {
  }

  lemma {:induction false} DecodeLui(rd: Reg, imm: bv32)
    requires Upper20(imm)
    ensures Decode(UType(0x37, rd, imm)) == Some(Lui(rd, imm))
  {
    UTypeFields(0x37, rd, imm);
    UpperDecodes(UType(0x37, rd, imm), rd, imm);
  }

  lemma {:induction false} DecodeAuipc(rd: Reg, imm: bv32)
    requires Upper20(imm)
    ensures Decode(UType(0x17, rd, imm)) == Some(Auipc(rd, imm))
  {
    UTypeFields(0x17, rd, imm);
    UpperDecodes(UType(0x17, rd, imm), rd, imm);
  }

  lemma {:induction false} DecodeI(i: Instr)
    requires (i.OpImm? || i.OpImm32? || i.Load? || i.Jalr?) && Legal(i)
    ensures Decode(Encode(i)) == Some(i)
  {
    match i {
      case OpImm(f3, rd, rs1, imm) => ITypeFields(0x13, f3, rd, rs1, imm);
      case OpImm32(f3, rd, rs1, imm) => ITypeFields(0x1B, f3, rd, rs1, imm);
      case Load(f3, rd, rs1, imm) => ITypeFields(0x03, f3, rd, rs1, imm);
      case Jalr(rd, rs1, imm) => ITypeFields(0x67, 0, rd, rs1, imm);
    }
  }

  lemma {:induction false} DecodeR(i: Instr)
    requires (i.Op? || i.Op32?) && Legal(i)
    ensures Decode(Encode(i)) == Some(i)
  {
    RTypeFields(if i.Op? then 0x33 else 0x3B, i.f3, i.f7, i.rd, i.rs1, i.rs2);
  }

  lemma {:induction false} DecodeAmo(i: Instr)
    requires i.Amo? && Legal(i)
    ensures Decode(Encode(i)) == Some(i)
  {
    var f7 := (i.f5 as bv7) << 2;
    RTypeFields(0x2F, i.f3, f7, i.rd, i.rs1, i.rs2);
    assert (f7 >> 2) as bv5 == i.f5;
  }

  lemma {:induction false} DecodeS(i: Instr)
    requires i.Store? && Legal(i)
    ensures Decode(Encode(i)) == Some(i)
  {
    STypeFields(0x23, i.f3, i.rs1, i.rs2, i.imm);
  }

  lemma {:induction false} DecodeB(i: Instr)
    requires i.Branch? && Legal(i)
    ensures Decode(Encode(i)) == Some(i)
  {
    BTypeFields(i.f3, i.rs1, i.rs2, i.imm);
  }

  lemma {:induction false} DecodeJ(i: Instr)
    requires i.Jal? && Legal(i)
    ensures Decode(Encode(i)) == Some(i)
  {
    JTypeFields(i.rd, i.imm);
  }

  lemma {:induction false} CsrFieldBack(f3: bv3, rd: Reg, rs1: Reg, csr: bv32)
    requires csr < 0x1000
    ensures CsrField(IType(0x73, f3, rd, rs1, csr)) == csr
  {
  }

  lemma {:induction false} DecodeCsr(csr: bv32, rs1: Reg)
    requires csr < 0x1000
    ensures Decode(IType(0x73, 1, 0, rs1, csr)) == Some(CsrWrite(csr, rs1))
  {
    ITypeFields(0x73, 1, 0, rs1, csr);
    CsrFieldBack(1, 0, rs1, csr);
  }

  lemma {:induction false} DecodeU(i: Instr)
    requires (i.Lui? || i.Auipc?) && Legal(i)
    ensures Decode(Encode(i)) == Some(i)
  {
    match i {
      case Lui(rd, imm) => DecodeLui(rd, imm);
      case Auipc(rd, imm) => DecodeAuipc(rd, imm);
    }
  }

  lemma {:induction false} DecodeSystem(i: Instr)
    requires (i.CsrWrite? || i.Fence? || i.Ecall?) && Legal(i)
    ensures Decode(Encode(i)) == Some(i)
  {
    match i {
      case CsrWrite(csr, rs1) => DecodeCsr(csr, rs1);
      case Fence =>
      case Ecall =>
    }
  }

  /** Every instruction decodes back to itself, registers, function codes and immediate. */
  lemma {:induction false} DecodeEncode(i: Instr)
    requires Legal(i)
    ensures Decode(Encode(i)) == Some(i)
  {
    match i {
      case Lui(rd, imm) => DecodeU(i);
      case Auipc(rd, imm) => DecodeU(i);
      case OpImm(_, _, _, _) => DecodeI(i);
      case OpImm32(_, _, _, _) => DecodeI(i);
      case Op(_, _, _, _, _) => DecodeR(i);
      case Op32(_, _, _, _, _) => DecodeR(i);
      case Load(_, _, _, _) => DecodeI(i);
      case Store(_, _, _, _) => DecodeS(i);
      case Amo(_, _, _, _, _) => DecodeAmo(i);
      case Branch(_, _, _, _) => DecodeB(i);
      case Jal(_, _) => DecodeJ(i);
      case Jalr(_, _, _) => DecodeI(i);
      case CsrWrite(_, _) => DecodeSystem(i);
      case Fence => DecodeSystem(i);
      case Ecall => DecodeSystem(i);
    }
  }
}
