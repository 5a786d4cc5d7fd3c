/** The compressed formats: the generator's encoders, and the decoder of sections 16.2 to 16.5 of the RISC-V Unprivileged ISA. */
module Compressed {
  import opened Wrappers
  import opened Encoding

  // ---- encoders ----

  predicate Popular(r: Reg) { 8 <= r < 16 }

  function Prime(r: Reg): bv16
    requires Popular(r)
  {
    (r - 8) as bv16
  }

  function CI(f3: bv3, op: bv2, rd: Reg, imm: bv32): bv16 {
    var i := (imm & 0x3F) as bv16;
    ((f3 as bv16) << 13) | ((i >> 5) << 12) | ((rd as bv16) << 7) | ((i & 0x1F) << 2) | (op as bv16)
  }

  function CBImm(f2: bv2, rd: Reg, imm: bv32): bv16
    requires Popular(rd)
  {
    var i := (imm & 0x3F) as bv16;
    0x8000 | ((i >> 5) << 12) | ((f2 as bv16) << 10) | (Prime(rd) << 7) | ((i & 0x1F) << 2) | 1
  }

  function CA(w: bv1, f2: bv2, rd: Reg, rs2: Reg): bv16
    requires Popular(rd) && Popular(rs2)
  {
    0x8000 | ((w as bv16) << 12) | (3 << 10) | (Prime(rd) << 7) | ((f2 as bv16) << 5) | (Prime(rs2) << 2) | 1
  }

  /** `c.mv` and `c.add`, and with no second register `c.jr` and `c.jalr`. */
  function CR(base: bv16, rd: Reg, rs2: Reg): bv16 {
    base | ((rd as bv16) << 7) | ((rs2 as bv16) << 2)
  }

  const MOVE: bv16 := 0x8002
  const ADD: bv16 := 0x9002

  function CAddi4spn(rd: Reg, imm: bv32): bv16
    requires Popular(rd)
  {
    (((imm >> 4) & 0x3) as bv16 << 11) | (((imm >> 6) & 0xF) as bv16 << 7) | (((imm >> 2) & 1) as bv16 << 6)
    | (((imm >> 3) & 1) as bv16 << 5) | (Prime(rd) << 2)
  }

  function CAddi16sp(u: bv32): bv16 {
    0x6000 | (((u >> 9) & 1) as bv16 << 12) | (2 << 7) | (((u >> 4) & 1) as bv16 << 6) | (((u >> 6) & 1) as bv16 << 5)
    | (((u >> 7) & 0x3) as bv16 << 3) | (((u >> 5) & 1) as bv16 << 2) | 1
  }

  /** `c.lw`, `c.ld`, `c.sw` and `c.sd`. */
  function CMem(wide: bool, store: bool, base: Reg, r: Reg, off: bv32): bv16
    requires Popular(base) && Popular(r)
  {
    var f3: bv16 := if store then (if wide then 7 else 6) else (if wide then 3 else 2);
    var imm: bv16 :=
      if wide then (((off >> 3) & 0x7) as bv16 << 10) | (((off >> 6) & 0x3) as bv16 << 5)
      else (((off >> 3) & 0x7) as bv16 << 10) | (((off >> 2) & 1) as bv16 << 6) | (((off >> 6) & 1) as bv16 << 5);
    (f3 << 13) | imm | (Prime(base) << 7) | (Prime(r) << 2)
  }

  /** `c.swsp` and `c.sdsp`. */
  function CStoreSp(wide: bool, rs2: Reg, off: bv32): bv16 {
    if wide then (7 << 13) | (((off >> 3) & 0x7) as bv16 << 10) | (((off >> 6) & 0x7) as bv16 << 7) | ((rs2 as bv16) << 2) | 2
    else (6 << 13) | (((off >> 2) & 0xF) as bv16 << 9) | (((off >> 6) & 0x3) as bv16 << 7) | ((rs2 as bv16) << 2) | 2
  }

  /** `c.lwsp` and `c.ldsp`. */
  function CLoadSp(wide: bool, rd: Reg, off: bv32): bv16 {
    if wide then (3 << 13) | (((off >> 5) & 1) as bv16 << 12) | ((rd as bv16) << 7) | (((off >> 3) & 0x3) as bv16 << 5) | (((off >> 6) & 0x7) as bv16 << 2) | 2
    else (2 << 13) | (((off >> 5) & 1) as bv16 << 12) | ((rd as bv16) << 7) | (((off >> 2) & 0x7) as bv16 << 4) | (((off >> 6) & 0x3) as bv16 << 2) | 2
  }

  function CBranch(ne: bool, rs1: Reg, d: bv32): bv16
    requires Popular(rs1)
  {
    ((if ne then 7 else 6) << 13) | (((d >> 8) & 1) as bv16 << 12) | (((d >> 3) & 0x3) as bv16 << 10) | (Prime(rs1) << 7)
    | (((d >> 6) & 0x3) as bv16 << 5) | (((d >> 1) & 0x3) as bv16 << 3) | (((d >> 5) & 1) as bv16 << 2) | 1
  }

  function CJump(d: bv32): bv16 {
    (5 << 13) | (((d >> 11) & 1) as bv16 << 12) | (((d >> 4) & 1) as bv16 << 11) | (((d >> 8) & 0x3) as bv16 << 9) | (((d >> 10) & 1) as bv16 << 8)
    | (((d >> 6) & 1) as bv16 << 7) | (((d >> 7) & 1) as bv16 << 6) | (((d >> 1) & 0x7) as bv16 << 3) | (((d >> 5) & 1) as bv16 << 2) | 1
  }

  // ---- decoding ----

  function Sext(v: bv32, sign: bv32): bv32 {
    if v & sign != 0 then v | !(sign | (sign - 1)) else v
  }

  function RdC(h: bv32): Reg { ((h >> 7) & 0x1F) as bv5 }

  function Rs2C(h: bv32): Reg { ((h >> 2) & 0x1F) as bv5 }

  function Low(h: bv32): Reg { 8 + (((h >> 2) & 0x7) as bv5) }

  function High(h: bv32): Reg { 8 + (((h >> 7) & 0x7) as bv5) }

  function Six(h: bv32): bv32 {
    (((h >> 12) & 1) << 5) | ((h >> 2) & 0x1F)
  }

  function WordOff(h: bv32): bv32 {
    (((h >> 5) & 1) << 6) | (((h >> 10) & 0x7) << 3) | (((h >> 6) & 1) << 2)
  }

  function DoubleOff(h: bv32): bv32 {
    (((h >> 5) & 0x3) << 6) | (((h >> 10) & 0x7) << 3)
  }

  function BranchOff(h: bv32): bv32 {
    Sext((((h >> 12) & 1) << 8) | (((h >> 10) & 0x3) << 3) | (((h >> 5) & 0x3) << 6) | (((h >> 3) & 0x3) << 1) | (((h >> 2) & 1) << 5), 0x100)
  }

  function JumpOff(h: bv32): bv32 {
    Sext((((h >> 12) & 1) << 11) | (((h >> 11) & 1) << 4) | (((h >> 9) & 0x3) << 8) | (((h >> 8) & 1) << 10) | (((h >> 7) & 1) << 6)
         | (((h >> 6) & 1) << 7) | (((h >> 3) & 0x7) << 1) | (((h >> 2) & 1) << 5), 0x800)
  }

  function Quadrant0(h: bv32): Option<Instr> {
    var f3 := (h >> 13) & 7;
    if f3 == 0 then
      var imm := (((h >> 7) & 0xF) << 6) | (((h >> 11) & 0x3) << 4) | (((h >> 5) & 1) << 3) | (((h >> 6) & 1) << 2);
      if imm == 0 then None else Some(OpImm(0, Low(h), 2, imm))
    else if f3 == 2 then Some(Load(2, Low(h), High(h), WordOff(h)))
    else if f3 == 3 then Some(Load(3, Low(h), High(h), DoubleOff(h)))
    else if f3 == 6 then Some(Store(2, High(h), Low(h), WordOff(h)))
    else if f3 == 7 then Some(Store(3, High(h), Low(h), DoubleOff(h)))
    else None
  }

  function Arithmetic(h: bv32): Option<Instr> {
    var f2 := (h >> 10) & 3;
    if f2 == 0 then (if Six(h) == 0 then None else Some(OpImm(5, High(h), High(h), Six(h))))
    else if f2 == 1 then (if Six(h) == 0 then None else Some(OpImm(5, High(h), High(h), Six(h) | 0x400)))
    else if f2 == 2 then Some(OpImm(7, High(h), High(h), Sext(Six(h), 0x20)))
    else
      var sel := (h >> 5) & 3;
      if (h >> 12) & 1 == 0 then
        Some(if sel == 0 then Op(0, 0x20, High(h), High(h), Low(h)) else if sel == 1 then Op(4, 0, High(h), High(h), Low(h))
             else if sel == 2 then Op(6, 0, High(h), High(h), Low(h)) else Op(7, 0, High(h), High(h), Low(h)))
      else if sel == 0 then Some(Op32(0, 0x20, High(h), High(h), Low(h)))
      else if sel == 1 then Some(Op32(0, 0, High(h), High(h), Low(h)))
      else None
  }

  function Quadrant1(h: bv32): Option<Instr> {
    var f3 := (h >> 13) & 7;
    var rd := RdC(h);
    if f3 == 0 then (if rd == 0 || Six(h) == 0 then None else Some(OpImm(0, rd, rd, Sext(Six(h), 0x20))))
    else if f3 == 1 then (if rd == 0 then None else Some(OpImm32(0, rd, rd, Sext(Six(h), 0x20))))
    else if f3 == 2 then (if rd == 0 then None else Some(OpImm(0, rd, 0, Sext(Six(h), 0x20))))
    else if f3 == 3 then
      if rd == 2 then
        var imm := Sext((((h >> 12) & 1) << 9) | (((h >> 3) & 0x3) << 7) | (((h >> 5) & 1) << 6) | (((h >> 2) & 1) << 5) | (((h >> 6) & 1) << 4), 0x200);
        if imm == 0 then None else Some(OpImm(0, 2, 2, imm))
      else if rd == 0 || Six(h) == 0 then None
      else Some(Lui(rd, Sext(Six(h), 0x20) & 0xF_FFFF))
    else if f3 == 4 then Arithmetic(h)
    else if f3 == 5 then Some(Jal(0, JumpOff(h)))
    else Some(Branch(if f3 == 6 then 0 else 1, High(h), 0, BranchOff(h)))
  }

  function Quadrant2(h: bv32): Option<Instr> {
    var f3 := (h >> 13) & 7;
    var rd, rs2 := RdC(h), Rs2C(h);
    if f3 == 0 then (if rd == 0 || Six(h) == 0 then None else Some(OpImm(1, rd, rd, Six(h))))
    else if f3 == 2 then
      if rd == 0 then None else Some(Load(2, rd, 2, (((h >> 12) & 1) << 5) | (((h >> 4) & 0x7) << 2) | (((h >> 2) & 0x3) << 6)))
    else if f3 == 3 then
      if rd == 0 then None else Some(Load(3, rd, 2, (((h >> 12) & 1) << 5) | (((h >> 5) & 0x3) << 3) | (((h >> 2) & 0x7) << 6)))
    else if f3 == 6 then Some(Store(2, 2, rs2, (((h >> 9) & 0xF) << 2) | (((h >> 7) & 0x3) << 6)))
    else if f3 == 7 then Some(Store(3, 2, rs2, (((h >> 10) & 0x7) << 3) | (((h >> 7) & 0x7) << 6)))
    else if f3 == 4 then
      if rd == 0 then None
      else if (h >> 12) & 1 == 0 then Some(if rs2 == 0 then Jalr(0, rd, 0) else Op(0, 0, rd, 0, rs2))
      else Some(if rs2 == 0 then Jalr(1, rd, 0) else Op(0, 0, rd, rd, rs2))
    else None
  }

  /** The instruction a halfword stands for; `None` for a 32-bit one, and for what is reserved or a hint. */
  function DecodeC(half: bv16): Option<Instr> {
    var h := half as bv32;
    if h & 3 == 0 then Quadrant0(h) else if h & 3 == 1 then Quadrant1(h) else if h & 3 == 2 then Quadrant2(h) else None
  }

  // ---- every form comes back ----

  predicate Imm6(i: bv32) { i < 0x20 || i >= 0xFFFF_FFE0 }

  lemma {:induction false} CAddiBack(rd: Reg, imm: bv32)
    requires rd != 0 && Imm6(imm) && imm != 0
    ensures DecodeC(CI(0, 1, rd, imm)) == Some(OpImm(0, rd, rd, imm))
  {
  }

  lemma {:induction false} CAddiwBack(rd: Reg, imm: bv32)
    requires rd != 0 && Imm6(imm)
    ensures DecodeC(CI(1, 1, rd, imm)) == Some(OpImm32(0, rd, rd, imm))
  {
  }

  lemma {:induction false} CLiBack(rd: Reg, imm: bv32)
    requires rd != 0 && Imm6(imm)
    ensures DecodeC(CI(2, 1, rd, imm)) == Some(OpImm(0, rd, 0, imm))
  {
  }

  lemma {:induction false} CLuiBack(rd: Reg, imm: bv32)
    requires rd != 0 && rd != 2 && Imm6(imm) && imm != 0
    ensures DecodeC(CI(3, 1, rd, imm)) == Some(Lui(rd, imm & 0xF_FFFF))
  {
  }

  lemma {:induction false} SlliBack(rd: Reg, shamt: bv32)
    requires rd != 0 && 0 < shamt < 64
    ensures DecodeC(CI(0, 2, rd, shamt)) == Some(OpImm(1, rd, rd, shamt))
  {
  }

  lemma {:induction false} CSrliBack(rd: Reg, imm: bv32)
    requires Popular(rd) && 0 < imm < 64
    ensures DecodeC(CBImm(0, rd, imm)) == Some(OpImm(5, rd, rd, imm))
  {
  }

  lemma {:induction false} CSraiBack(rd: Reg, imm: bv32)
    requires Popular(rd) && 0 < imm < 64
    ensures DecodeC(CBImm(1, rd, imm)) == Some(OpImm(5, rd, rd, imm | 0x400))
  {
  }

  lemma {:induction false} CAndiBack(rd: Reg, imm: bv32)
    requires Popular(rd) && Imm6(imm)
    ensures DecodeC(CBImm(2, rd, imm)) == Some(OpImm(7, rd, rd, imm))
  {
  }

  lemma {:induction false} CaBack(rd: Reg, rs2: Reg)
    requires Popular(rd) && Popular(rs2)
    ensures DecodeC(CA(0, 0, rd, rs2)) == Some(Op(0, 0x20, rd, rd, rs2)) && DecodeC(CA(0, 1, rd, rs2)) == Some(Op(4, 0, rd, rd, rs2))
    ensures DecodeC(CA(0, 2, rd, rs2)) == Some(Op(6, 0, rd, rd, rs2)) && DecodeC(CA(0, 3, rd, rs2)) == Some(Op(7, 0, rd, rd, rs2))
    ensures DecodeC(CA(1, 0, rd, rs2)) == Some(Op32(0, 0x20, rd, rd, rs2)) && DecodeC(CA(1, 1, rd, rs2)) == Some(Op32(0, 0, rd, rd, rs2))
  {
  }

  lemma {:induction false} CrBack(rd: Reg, rs2: Reg)
    requires rd != 0
    ensures rs2 != 0 ==> DecodeC(CR(MOVE, rd, rs2)) == Some(Op(0, 0, rd, 0, rs2)) && DecodeC(CR(ADD, rd, rs2)) == Some(Op(0, 0, rd, rd, rs2))
    ensures DecodeC(CR(MOVE, rd, 0)) == Some(Jalr(0, rd, 0)) && DecodeC(CR(ADD, rd, 0)) == Some(Jalr(1, rd, 0))
  {
  }

  lemma {:induction false} Addi4spnBack(rd: Reg, imm: bv32)
    requires Popular(rd) && 0 < imm <= 1020 && imm & 3 == 0
    ensures DecodeC(CAddi4spn(rd, imm)) == Some(OpImm(0, rd, 2, imm))
  {
  }

  lemma {:induction false} Addi16spBack(imm: bv32)
    requires imm != 0 && imm & 0xF == 0 && (imm < 0x200 || imm >= 0xFFFF_FE00)
    ensures DecodeC(CAddi16sp(imm)) == Some(OpImm(0, 2, 2, imm))
  {
  }

  /** The offsets each width and form can carry. */
  predicate Scaled(wide: bool, off: bv32) { if wide then off & 7 == 0 else off & 3 == 0 }

  lemma {:induction false} CLwBack(base: Reg, r: Reg, off: bv32)
    requires Popular(base) && Popular(r) && off & 3 == 0 && off <= 124
    ensures DecodeC(CMem(false, false, base, r, off)) == Some(Load(2, r, base, off))
  {
  }

  lemma {:induction false} CLdBack(base: Reg, r: Reg, off: bv32)
    requires Popular(base) && Popular(r) && off & 7 == 0 && off <= 248
    ensures DecodeC(CMem(true, false, base, r, off)) == Some(Load(3, r, base, off))
  {
  }

  lemma {:induction false} CSwBack(base: Reg, r: Reg, off: bv32)
    requires Popular(base) && Popular(r) && off & 3 == 0 && off <= 124
    ensures DecodeC(CMem(false, true, base, r, off)) == Some(Store(2, base, r, off))
  {
  }

  lemma {:induction false} CSdBack(base: Reg, r: Reg, off: bv32)
    requires Popular(base) && Popular(r) && off & 7 == 0 && off <= 248
    ensures DecodeC(CMem(true, true, base, r, off)) == Some(Store(3, base, r, off))
  {
  }

  lemma {:induction false} CSpBack(wide: bool, r: Reg, off: bv32)
    requires Scaled(wide, off) && off <= if wide then 504 else 252
    ensures r != 0 ==> DecodeC(CLoadSp(wide, r, off)) == Some(Load(if wide then 3 else 2, r, 2, off))
    ensures DecodeC(CStoreSp(wide, r, off)) == Some(Store(if wide then 3 else 2, 2, r, off))
  {
  }

  lemma {:induction false} CBranchBack(ne: bool, rs1: Reg, d: bv32)
    requires Popular(rs1) && d & 1 == 0 && d < 256
    ensures DecodeC(CBranch(ne, rs1, d)) == Some(Branch(if ne then 1 else 0, rs1, 0, d))
  {
  }

  lemma {:induction false} CJumpBack(d: bv32)
    requires d & 1 == 0 && d < 2048
    ensures DecodeC(CJump(d)) == Some(Jal(0, d))
  {
  }
}
