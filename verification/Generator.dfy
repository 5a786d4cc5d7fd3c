/** The random program generator, for every sequence of draws. */
module Generator {
  import opened Wrappers
  import opened Encoding
  import opened Compressed
  import opened Machine
  import opened Blocks
  import opened Chunks

  // ---- draws: any value in range ----

  method Below(n: nat) returns (k: nat)
    requires n > 0
    ensures k < n
  {
    var x: int := *;
    k := if 0 <= x < n then x else 0;
  }

  method Coin() returns (b: bool) {
    b := *;
  }

  method AnyReg() returns (r: Reg) {
    r := *;
  }

  method NzReg() returns (r: Reg)
    ensures r != 0
  {
    r := *;
    if r == 0 {
      r := 1;
    }
  }

  method CReg() returns (r: Reg)
    ensures Popular(r)
  {
    var k: bv3 := *;
    r := 8 + (k as bv5);
  }

  /** A shift amount, or any other draw below a power of two. */
  method Bits(limit: bv32) returns (x: bv32)
    requires limit > 0
    ensures x < limit
  {
    x := *;
    if x >= limit {
      x := 0;
    }
  }

  /** The sign-extended top twelve bits of a draw. */
  method DrawImm12() returns (imm: bv32)
    ensures Imm12(imm)
  {
    var w: bv32 := *;
    imm := Asr20(w);
  }

  method DrawImm6() returns (imm: bv32)
    ensures Imm6(imm)
  {
    var x := Bits(64);
    imm := Sext(x, 0x20);
  }

  method NzImm6() returns (imm: bv32)
    ensures Imm6(imm) && imm != 0
  {
    imm := DrawImm6();
    if imm == 0 {
      imm := 1;
    }
  }

  // ---- chunks of one instruction ----

  lemma {:induction false} TameOne(i: Ins, what: Action)
    requires Means(RV64GC, i, what) && Tame(what)
    ensures ChunkOk(Plain([i]))
  {
    Sizes([i]);
  }

  lemma {:induction false} TameWord(i: Instr)
    requires Legal(i) && Tame(ActionOf(i))
    ensures ChunkOk(Plain([Word(Encode(i))]))
  {
    WordMeans(i);
    TameOne(Word(Encode(i)), ActionOf(i));
  }

  lemma {:induction false} TameHalf(h: bv16, i: Instr)
    requires DecodeC(h) == Some(i) && Tame(ActionOf(i))
    ensures ChunkOk(Plain([Half(h)])) && ShortArithmetic(Plain([Half(h)]))
  {
    HalfMeans(h, i);
    TameOne(Half(h), ActionOf(i));
  }

  const OPS: seq<(bv3, bv7)> := [(0, 0x00), (0, 0x20), (1, 0x00), (2, 0x00), (3, 0x00), (4, 0x00), (5, 0x00), (5, 0x20), (6, 0x00), (7, 0x00)]
  const OPS32: seq<(bv3, bv7)> := [(0, 0x00), (0, 0x20), (1, 0x00), (5, 0x00), (5, 0x20)]
  const IMM_OPS: seq<bv3> := [0, 2, 3, 4, 6, 7]
  const M64: seq<bv3> := [0, 1, 2, 3, 4, 5, 6, 7]
  const M32: seq<bv3> := [0, 4, 5, 6, 7]

  method GenOp() returns (c: Chunk)
    ensures ChunkOk(c)
  {
    var k := Below(|OPS|);
    var (f3, f7) := OPS[k];
    var rd, a, b := AnyReg3();
    TameWord(Op(f3, f7, rd, a, b));
    c := Plain([Word(RType(0x33, f3, f7, rd, a, b))]);
  }

  method AnyReg3() returns (rd: Reg, a: Reg, b: Reg) {
    rd := AnyReg();
    a := AnyReg();
    b := AnyReg();
  }

  method GenOp32() returns (c: Chunk)
    ensures ChunkOk(c)
  {
    var k := Below(|OPS32|);
    var (f3, f7) := OPS32[k];
    var rd, a, b := AnyReg3();
    TameWord(Op32(f3, f7, rd, a, b));
    c := Plain([Word(RType(0x3B, f3, f7, rd, a, b))]);
  }

  /** A shift immediate: the amount, and bit 10 when arithmetic. */
  method DrawShift(limit: bv32) returns (f3: bv3, imm: bv32)
    requires limit == 32 || limit == 64
    ensures f3 == 1 || f3 == 5
    ensures limit == 64 ==> LegalOpImm(f3, imm)
    ensures limit == 32 ==> LegalOpImm32(f3, imm)
  {
    var shamt := Bits(limit);
    var arith := Coin();
    imm := if arith then shamt | 0x400 else shamt;
    var left := Coin();
    f3 := if left && !arith then 1 else 5;
    ShiftLegal(shamt);
  }

  lemma {:induction false} ShiftLegal(shamt: bv32)
    ensures shamt < 64 ==> LegalOpImm(1, shamt) && LegalOpImm(5, shamt) && LegalOpImm(5, shamt | 0x400)
    ensures shamt < 32 ==> LegalOpImm32(1, shamt) && LegalOpImm32(5, shamt) && LegalOpImm32(5, shamt | 0x400)
  {
  }

  method GenOpImm() returns (c: Chunk)
    ensures ChunkOk(c)
  {
    var rd := AnyReg();
    var a := AnyReg();
    var f3: bv3, imm: bv32;
    var shift := Coin();
    if shift {
      f3, imm := DrawShift(64);
    } else {
      var k := Below(|IMM_OPS|);
      f3 := IMM_OPS[k];
      imm := DrawImm12();
    }
    TameWord(OpImm(f3, rd, a, imm));
    c := Plain([Word(IType(0x13, f3, rd, a, imm))]);
  }

  method GenOpImm32() returns (c: Chunk)
    ensures ChunkOk(c)
  {
    var rd := AnyReg();
    var a := AnyReg();
    var f3: bv3, imm: bv32;
    var shift := Coin();
    if shift {
      f3, imm := DrawShift(32);
    } else {
      f3 := 0;
      imm := DrawImm12();
    }
    TameWord(OpImm32(f3, rd, a, imm));
    c := Plain([Word(IType(0x1B, f3, rd, a, imm))]);
  }

  method GenUpper() returns (c: Chunk)
    ensures ChunkOk(c)
  {
    var rd := AnyReg();
    var imm := Bits(0x10_0000);
    var lui := Coin();
    if !lui {
      OneBit(imm);
      imm := imm & 1;
    }
    TameWord(if lui then Lui(rd, imm) else Auipc(rd, imm));
    c := Plain([Word(if lui then UType(0x37, rd, imm) else UType(0x17, rd, imm))]);
  }

  lemma {:induction false} OneBit(imm: bv32)
    ensures Upper20(imm & 1)
  {
  }

  method GenMul() returns (c: Chunk)
    ensures ChunkOk(c)
  {
    var rd, a, b := AnyReg3();
    var narrow := Coin();
    if narrow {
      var k := Below(|M32|);
      TameWord(Op32(M32[k], 1, rd, a, b));
      c := Plain([Word(RType(0x3B, M32[k], 1, rd, a, b))]);
    } else {
      var k := Below(|M64|);
      TameWord(Op(M64[k], 1, rd, a, b));
      c := Plain([Word(RType(0x33, M64[k], 1, rd, a, b))]);
    }
  }

  method GenFence() returns (c: Chunk)
    ensures ChunkOk(c)
  {
    TameWord(Fence);
    c := Plain([Word(0x0FF0_000F)]);
  }

  // ---- memory ----

  /** The bits of `WINDOW & !(align - 1)`. */
  function WindowMask(w: nat): bv32
    requires IsWidth(w)
  {
    var align: bv32 := if w == 1 then 1 else if w == 2 then 2 else if w == 4 then 4 else 8;
    0xFF & !(align - 1)
  }

  lemma {:induction false} WindowMaskValue(w: nat)
    requires IsWidth(w)
    ensures Imm12(WindowMask(w)) && Signed(WindowMask(w)) == 256 - w
  {
  }

  lemma {:induction false} AddressMeans(rt: Reg, ru: Reg, rs: Reg, w: nat)
    requires IsWidth(w)
    ensures Means(RV64GC, Word(UType(0x17, rt, 2)), AddPc(rt, 0x2000))
    ensures Means(RV64GC, Word(IType(0x13, 7, rt, rt, 0xFFFF_F800)), AndImm(rt, rt, -2048))
    ensures Means(RV64GC, Word(IType(0x13, 7, ru, rs, WindowMask(w))), AndImm(ru, rs, 256 - w))
    ensures Means(RV64GC, Word(RType(0x33, 0, 0, rt, rt, ru)), AddRegs(rt, rt, ru))
  {
    WindowMaskValue(w);
    PageMask();
    WordMeans(Auipc(rt, 2));
    WordMeans(OpImm(7, rt, rt, 0xFFFF_F800));
    WordMeans(OpImm(7, ru, rs, WindowMask(w)));
    WordMeans(Op(0, 0, rt, rt, ru));
  }

  lemma {:induction false} PageMask()
    ensures Imm12(0xFFFF_F800) && Signed(0xFFFF_F800) == -2048 && Upper20(2) && (2 as bv32) << 12 == 0x2000 && Signed(0x2000) == 0x2000
  {
  }

  /** Leaves an aligned scratch address in `rt`, whatever `rs` holds. */
  method ScratchAddrIn(w: nat, rt: Reg) returns (v: seq<Ins>, ghost ru: Reg, ghost rs: Reg)
    requires IsWidth(w) && rt != 0
    ensures |v| == 4 && Addressing(RV64GC, v, rt, ru, rs, w)
  {
    var u := NzReg();
    if u == rt {
      u := if rt == 1 then 2 else 1;
    }
    var s := AnyReg();
    ru, rs := u, s;
    AddressMeans(rt, u, s, w);
    v := [Word(UType(0x17, rt, 2)), Word(IType(0x13, 7, rt, rt, 0xFFFF_F800)), Word(IType(0x13, 7, u, s, WindowMask(w))), Word(RType(0x33, 0, 0, rt, rt, u))];
  }

  lemma {:induction false} UsedOnce(v: seq<Ins>, i: Ins, what: Action, rt: Reg, ru: Reg, rs: Reg, w: nat)
    requires |v| == 4 && Addressing(RV64GC, v, rt, ru, rs, w) && Means(RV64GC, i, what) && Uses(what, rt, w)
    ensures ChunkOk(Plain(v + [i])) && (i.Half? ==> ShortAccess(Plain(v + [i])))
  {
    var all := v + [i];
    Sizes(all);
    assert MemBlockBy(RV64GC, all, rt, ru, rs, w);
  }

  lemma {:induction false} UsedTwice(v: seq<Ins>, i: Ins, what: Action, j: Ins, after: Action, rt: Reg, ru: Reg, rs: Reg, w: nat)
    requires |v| == 4 && Addressing(RV64GC, v, rt, ru, rs, w)
    requires Means(RV64GC, i, what) && Uses(what, rt, w) && Keeps(what, rt)
    requires Means(RV64GC, j, after) && Uses(after, rt, w)
    ensures ChunkOk(Plain(v + [i] + [j]))
  {
    var all := v + [i] + [j];
    Sizes(all);
    assert MemBlockBy(RV64GC, all, rt, ru, rs, w);
  }

  const LOADS: seq<(bv3, nat)> := [(0, 1), (1, 2), (2, 4), (3, 8), (4, 1), (5, 2), (6, 4)]
  const STORES: seq<(bv3, nat)> := [(0, 1), (1, 2), (2, 4), (3, 8)]
  const AMOS: seq<bv5> := [0x00, 0x01, 0x04, 0x08, 0x0C, 0x10, 0x14, 0x18, 0x1C]

  lemma {:induction false} SignedOfZero()
    ensures Signed(0) == 0 && Imm12(0)
  {
  }

  method GenMem() returns (c: Chunk)
    ensures ChunkOk(c)
  {
    var load := Coin();
    var rt := NzReg();
    if load {
      var k := Below(|LOADS|);
      var (f3, w) := LOADS[k];
      c := GenLoad(f3, w, rt);
    } else {
      var k := Below(|STORES|);
      var (f3, w) := STORES[k];
      c := GenStore(f3, w, rt);
    }
  }

  method GenLoad(f3: bv3, w: nat, rt: Reg) returns (c: Chunk)
    requires f3 != 7 && w == Width(f3) && rt != 0
    ensures ChunkOk(c)
  {
    var v, ru, rs := ScratchAddrIn(w, rt);
    var rd := AnyReg();
    SignedOfZero();
    WordMeans(Instr.Load(f3, rd, rt, 0));
    UsedOnce(v, Word(IType(0x03, f3, rd, rt, 0)), Action.Load(rd, rt, 0, w), rt, ru, rs, w);
    c := Plain(v + [Word(IType(0x03, f3, rd, rt, 0))]);
  }

  method GenStore(f3: bv3, w: nat, rt: Reg) returns (c: Chunk)
    requires f3 < 4 && w == Width(f3) && rt != 0
    ensures ChunkOk(c)
  {
    var v, ru, rs := ScratchAddrIn(w, rt);
    var r := AnyReg();
    SignedOfZero();
    WordMeans(Instr.Store(f3, rt, r, 0));
    UsedOnce(v, Word(SType(0x23, f3, rt, r, 0)), Action.Store(rt, 0, w), rt, ru, rs, w);
    c := Plain(v + [Word(SType(0x23, f3, rt, r, 0))]);
  }

  method GenAmo() returns (c: Chunk)
    ensures ChunkOk(c)
  {
    var k := Below(|AMOS|);
    var op := AMOS[k];
    var narrow := Coin();
    var f3: bv3, w := if narrow then 2 else 3, if narrow then 4 else 8;
    var rt := NzReg();
    var v, ru, rs := ScratchAddrIn(w, rt);
    var rd := AnyReg();
    var r := AnyReg();
    AmoLegal(k);
    WordMeans(Amo(op, f3, rd, rt, r));
    UsedOnce(v, Word(RType(0x2F, f3, (op as bv7) << 2, rd, rt, r)), Atomic(rd, rt, op, w), rt, ru, rs, w);
    c := Plain(v + [Word(RType(0x2F, f3, (op as bv7) << 2, rd, rt, r))]);
  }

  lemma {:induction false} AmoLegal(k: nat)
    requires k < |AMOS|
    ensures forall f3: bv3, r: Reg :: f3 == 2 || f3 == 3 ==> LegalAmo(AMOS[k], f3, r)
  {
  }

  /** The adjacent pair over one address; the first must leave that address alone. */
  method GenLrSc() returns (c: Chunk)
    ensures ChunkOk(c)
  {
    var narrow := Coin();
    var f3: bv3, w := if narrow then 2 else 3, if narrow then 4 else 8;
    var rt := NzReg();
    var v, ru, rs := ScratchAddrIn(w, rt);
    var rd1 := AnyReg();
    if rd1 == rt {
      rd1 := 0;
    }
    var rd2 := AnyReg();
    var r := AnyReg();
    var lr, sc := Word(RType(0x2F, f3, 0x02 << 2, rd1, rt, 0)), Word(RType(0x2F, f3, 0x03 << 2, rd2, rt, r));
    LrScMean(f3, rd1, rd2, rt, r);
    UsedTwice(v, lr, Atomic(rd1, rt, 2, w), sc, Atomic(rd2, rt, 3, w), rt, ru, rs, w);
    c := Plain(v + [lr] + [sc]);
  }

  lemma {:induction false} LrScMean(f3: bv3, rd1: Reg, rd2: Reg, rt: Reg, r: Reg)
    requires f3 == 2 || f3 == 3
    ensures Means(RV64GC, Word(RType(0x2F, f3, 0x02 << 2, rd1, rt, 0)), Atomic(rd1, rt, 2, Width(f3)))
    ensures Means(RV64GC, Word(RType(0x2F, f3, 0x03 << 2, rd2, rt, r)), Atomic(rd2, rt, 3, Width(f3)))
  {
    WordMeans(Amo(2, f3, rd1, rt, 0));
    WordMeans(Amo(3, f3, rd2, rt, r));
  }

  // ---- compressed memory ----

  /** A scaled offset: in range, a multiple of its width, and what the field reads back as. */
  lemma {:induction false} ScaledOffset(k: bv32, wide: bool)
    requires k < 64
    ensures var off := if wide then k << 3 else k << 2;
            && Scaled(wide, off) && off <= (if wide then 504 else 252)
            && Signed(off) == (if wide then 8 * (k as nat) else 4 * (k as nat)) <= MAX_OFFSET
  {
    if wide {
      Times8(k);
    } else {
      Times4(k);
    }
  }

  lemma {:induction false} Times8(k: bv32)
    requires k < 64
    ensures (k << 3) as nat == 8 * (k as nat) && k as nat < 64 && (k << 3) & 7 == 0 && k << 3 <= 504
  {
  }

  lemma {:induction false} Times4(k: bv32)
    requires k < 64
    ensures (k << 2) as nat == 4 * (k as nat) && k as nat < 64 && (k << 2) & 3 == 0 && k << 2 <= 252
  {
  }

  method GenCMem() returns (c: Chunk)
    ensures ChunkOk(c) && ShortAccess(c)
  {
    var sp := Coin();
    var wide := Coin();
    var store := Coin();
    if sp {
      c := GenCMemSp(wide, store);
    } else {
      c := GenCMemBase(wide, store);
    }
  }

  method GenCMemBase(wide: bool, store: bool) returns (c: Chunk)
    ensures ChunkOk(c) && ShortAccess(c)
  {
    var w := if wide then 8 else 4;
    var base := CReg();
    var v, ru, rs := ScratchAddrIn(w, base);
    var k := Bits(32);
    var off := if wide then k << 3 else k << 2;
    var r := CReg();
    CMemChunk(v, wide, store, base, r, k, ru, rs);
    c := Plain(v + [Half(CMem(wide, store, base, r, off))]);
  }

  lemma {:induction false} CMemChunk(v: seq<Ins>, wide: bool, store: bool, base: Reg, r: Reg, k: bv32, ru: Reg, rs: Reg)
    requires Popular(base) && Popular(r) && k < 32
    requires |v| == 4 && Addressing(RV64GC, v, base, ru, rs, if wide then 8 else 4)
    ensures ChunkOk(Plain(v + [Half(CMem(wide, store, base, r, if wide then k << 3 else k << 2))])) && ShortAccess(Plain(v + [Half(CMem(wide, store, base, r, if wide then k << 3 else k << 2))]))
  {
    CMemMeans(wide, store, base, r, k);
    OffsetUses(wide, k, base, r);
    var w: nat, off := if wide then 8 else 4, Signed(if wide then k << 3 else k << 2);
    UsedOnce(v, Half(CMem(wide, store, base, r, if wide then k << 3 else k << 2)),
             if store then Action.Store(base, off, w) else Action.Load(r, base, off, w), base, ru, rs, w);
  }

  lemma {:induction false} OffsetUses(wide: bool, k: bv32, base: Reg, r: Reg)
    requires k < 64
    ensures var w, off := if wide then 8 else 4, Signed(if wide then k << 3 else k << 2);
            Uses(Action.Store(base, off, w), base, w) && Uses(Action.Load(r, base, off, w), base, w)
  {
    ScaledOffset(k, wide);
    Multiples(k as nat);
  }

  lemma {:induction false} Multiples(n: nat)
    ensures 8 * n % 8 == 0 && 4 * n % 4 == 0
  {
  }

  lemma {:induction false} CMemMeans(wide: bool, store: bool, base: Reg, r: Reg, k: bv32)
    requires Popular(base) && Popular(r) && k < 32
    ensures var w, off := if wide then 8 else 4, if wide then k << 3 else k << 2;
            Means(RV64GC, Half(CMem(wide, store, base, r, off)), if store then Action.Store(base, Signed(off), w) else Action.Load(r, base, Signed(off), w))
  {
    ShortOffsets(k);
    if wide && store {
      CSdBack(base, r, k << 3);
      HalfMeans(CMem(true, true, base, r, k << 3), Instr.Store(3, base, r, k << 3));
    } else if wide {
      CLdBack(base, r, k << 3);
      HalfMeans(CMem(true, false, base, r, k << 3), Instr.Load(3, r, base, k << 3));
    } else if store {
      CSwBack(base, r, k << 2);
      HalfMeans(CMem(false, true, base, r, k << 2), Instr.Store(2, base, r, k << 2));
    } else {
      CLwBack(base, r, k << 2);
      HalfMeans(CMem(false, false, base, r, k << 2), Instr.Load(2, r, base, k << 2));
    }
  }

  lemma {:induction false} ShortOffsets(k: bv32)
    requires k < 32
    ensures (k << 3) & 7 == 0 && k << 3 <= 248 && (k << 2) & 3 == 0 && k << 2 <= 124
  {
  }

  method GenCMemSp(wide: bool, store: bool) returns (c: Chunk)
    ensures ChunkOk(c) && ShortAccess(c)
  {
    var w := if wide then 8 else 4;
    var v, ru, rs := ScratchAddrIn(w, 2);
    var k := Bits(64);
    var off := if wide then k << 3 else k << 2;
    ScaledOffset(k, wide);
    if store {
      var rs2 := AnyReg();
      CStoreSpChunk(v, wide, rs2, k, ru, rs);
      c := Plain(v + [Half(CStoreSp(wide, rs2, off))]);
    } else {
      var rd := NzReg();
      CLoadSpChunk(v, wide, rd, k, ru, rs);
      c := Plain(v + [Half(CLoadSp(wide, rd, off))]);
    }
  }

  lemma {:induction false} CStoreSpChunk(v: seq<Ins>, wide: bool, rs2: Reg, k: bv32, ru: Reg, rs: Reg)
    requires k < 64 && |v| == 4 && Addressing(RV64GC, v, 2, ru, rs, if wide then 8 else 4)
    ensures ChunkOk(Plain(v + [Half(CStoreSp(wide, rs2, if wide then k << 3 else k << 2))])) && ShortAccess(Plain(v + [Half(CStoreSp(wide, rs2, if wide then k << 3 else k << 2))]))
  {
    var w: nat, off := if wide then 8 else 4, if wide then k << 3 else k << 2;
    ScaledOffset(k, wide);
    OffsetUses(wide, k, 2, rs2);
    CSpBack(wide, rs2, off);
    HalfMeans(CStoreSp(wide, rs2, off), Instr.Store(if wide then 3 else 2, 2, rs2, off));
    UsedOnce(v, Half(CStoreSp(wide, rs2, off)), Action.Store(2, Signed(off), w), 2, ru, rs, w);
  }

  lemma {:induction false} CLoadSpChunk(v: seq<Ins>, wide: bool, rd: Reg, k: bv32, ru: Reg, rs: Reg)
    requires rd != 0 && k < 64 && |v| == 4 && Addressing(RV64GC, v, 2, ru, rs, if wide then 8 else 4)
    ensures ChunkOk(Plain(v + [Half(CLoadSp(wide, rd, if wide then k << 3 else k << 2))])) && ShortAccess(Plain(v + [Half(CLoadSp(wide, rd, if wide then k << 3 else k << 2))]))
  {
    var w: nat, off := if wide then 8 else 4, if wide then k << 3 else k << 2;
    ScaledOffset(k, wide);
    OffsetUses(wide, k, 2, rd);
    CSpBack(wide, rd, off);
    HalfMeans(CLoadSp(wide, rd, off), Instr.Load(if wide then 3 else 2, rd, 2, off));
    UsedOnce(v, Half(CLoadSp(wide, rd, off)), Action.Load(rd, 2, Signed(off), w), 2, ru, rs, w);
  }

  // ---- compressed arithmetic ----

  method GenCompressed() returns (c: Chunk)
    ensures ChunkOk(c) && ShortArithmetic(c)
  {
    var k := Below(16);
    if k < 4 {
      c := GenCImm(k);
    } else if k < 8 {
      c := GenCShift(k);
    } else if k < 11 {
      c := GenCReg(k);
    } else if k == 13 {
      c := GenAddi4spn();
    } else if k == 14 {
      c := GenAddi16sp();
    } else {
      c := GenCMove(k);
    }
  }

  method GenCImm(k: nat) returns (c: Chunk)
    ensures ChunkOk(c) && ShortArithmetic(c)
  {
    var rd := NzReg();
    if k == 0 {
      var imm := NzImm6();
      CAddiBack(rd, imm);
      TameHalf(CI(0, 1, rd, imm), OpImm(0, rd, rd, imm));
      c := Plain([Half(CI(0, 1, rd, imm))]);
    } else if k == 1 {
      var imm := DrawImm6();
      CAddiwBack(rd, imm);
      TameHalf(CI(1, 1, rd, imm), OpImm32(0, rd, rd, imm));
      c := Plain([Half(CI(1, 1, rd, imm))]);
    } else if k == 2 {
      var imm := DrawImm6();
      CLiBack(rd, imm);
      TameHalf(CI(2, 1, rd, imm), OpImm(0, rd, 0, imm));
      c := Plain([Half(CI(2, 1, rd, imm))]);
    } else {
      if rd == 2 {
        rd := 3;
      }
      var imm := NzImm6();
      CLuiBack(rd, imm);
      TameHalf(CI(3, 1, rd, imm), Lui(rd, imm & 0xF_FFFF));
      c := Plain([Half(CI(3, 1, rd, imm))]);
    }
  }

  method NzShift() returns (sh: bv32)
    ensures 0 < sh < 64
  {
    sh := Bits(63);
    sh := sh + 1;
  }

  method GenCShift(k: nat) returns (c: Chunk)
    ensures ChunkOk(c) && ShortArithmetic(c)
  {
    if k == 4 {
      var rd := NzReg();
      var sh := NzShift();
      SlliBack(rd, sh);
      TameHalf(CI(0, 2, rd, sh), OpImm(1, rd, rd, sh));
      c := Plain([Half(CI(0, 2, rd, sh))]);
    } else if k < 7 {
      var rd := CReg();
      var sh := NzShift();
      var logical := Coin();
      if logical {
        CSrliBack(rd, sh);
        TameHalf(CBImm(0, rd, sh), OpImm(5, rd, rd, sh));
        c := Plain([Half(CBImm(0, rd, sh))]);
      } else {
        CSraiBack(rd, sh);
        TameHalf(CBImm(1, rd, sh), OpImm(5, rd, rd, sh | 0x400));
        c := Plain([Half(CBImm(1, rd, sh))]);
      }
    } else {
      var rd := CReg();
      var imm := DrawImm6();
      CAndiBack(rd, imm);
      TameHalf(CBImm(2, rd, imm), OpImm(7, rd, rd, imm));
      c := Plain([Half(CBImm(2, rd, imm))]);
    }
  }

  method GenCReg(k: nat) returns (c: Chunk)
    ensures ChunkOk(c) && ShortArithmetic(c)
  {
    var rd := CReg();
    var rs2 := CReg();
    CaBack(rd, rs2);
    var f2: bv2 := *;
    if k < 10 {
      CaTame(f2, rd, rs2);
      c := Plain([Half(CA(0, f2, rd, rs2))]);
    } else {
      f2 := f2 & 1;
      if f2 == 0 {
        TameHalf(CA(1, 0, rd, rs2), Op32(0, 0x20, rd, rd, rs2));
      } else {
        TameHalf(CA(1, 1, rd, rs2), Op32(0, 0, rd, rd, rs2));
      }
      c := Plain([Half(CA(1, f2, rd, rs2))]);
    }
  }

  lemma {:induction false} CaTame(f2: bv2, rd: Reg, rs2: Reg)
    requires Popular(rd) && Popular(rs2)
    ensures ChunkOk(Plain([Half(CA(0, f2, rd, rs2))])) && ShortArithmetic(Plain([Half(CA(0, f2, rd, rs2))]))
  {
    CaBack(rd, rs2);
    if f2 == 0 {
      TameHalf(CA(0, 0, rd, rs2), Op(0, 0x20, rd, rd, rs2));
    } else if f2 == 1 {
      TameHalf(CA(0, 1, rd, rs2), Op(4, 0, rd, rd, rs2));
    } else if f2 == 2 {
      TameHalf(CA(0, 2, rd, rs2), Op(6, 0, rd, rd, rs2));
    } else {
      TameHalf(CA(0, 3, rd, rs2), Op(7, 0, rd, rd, rs2));
    }
  }

  method GenAddi4spn() returns (c: Chunk)
    ensures ChunkOk(c) && ShortArithmetic(c)
  {
    var rd := CReg();
    var k := Bits(255);
    var imm := (k + 1) << 2;
    Quadruple(k);
    Addi4spnBack(rd, imm);
    TameHalf(CAddi4spn(rd, imm), OpImm(0, rd, 2, imm));
    c := Plain([Half(CAddi4spn(rd, imm))]);
  }

  lemma {:induction false} Quadruple(k: bv32)
    requires k < 255
    ensures var imm := (k + 1) << 2; 0 < imm <= 1020 && imm & 3 == 0
  {
  }

  method GenAddi16sp() returns (c: Chunk)
    ensures ChunkOk(c) && ShortArithmetic(c)
  {
    var k := Bits(64);
    var n := k - 32;
    if n == 0 {
      n := 1;
    }
    var imm := n << 4;
    Sixteenfold(n);
    Addi16spBack(imm);
    TameHalf(CAddi16sp(imm), OpImm(0, 2, 2, imm));
    c := Plain([Half(CAddi16sp(imm))]);
  }

  lemma {:induction false} Sixteenfold(n: bv32)
    requires n != 0 && (n < 32 || n >= 0xFFFF_FFE0)
    ensures var imm := n << 4; imm != 0 && imm & 0xF == 0 && (imm < 0x200 || imm >= 0xFFFF_FE00)
  {
  }

  method GenCMove(k: nat) returns (c: Chunk)
    ensures ChunkOk(c) && ShortArithmetic(c)
  {
    var rd := NzReg();
    var rs2 := NzReg();
    CrBack(rd, rs2);
    if k == 11 || k == 12 {
      TameHalf(CR(MOVE, rd, rs2), Op(0, 0, rd, 0, rs2));
      c := Plain([Half(CR(MOVE, rd, rs2))]);
    } else {
      TameHalf(CR(ADD, rd, rs2), Op(0, 0, rd, rd, rs2));
      c := Plain([Half(CR(ADD, rd, rs2))]);
    }
  }

  // ---- any chunk ----

  const CONDITIONS: seq<bv3> := [0, 1, 4, 5, 6, 7]

  method DrawSkip() returns (skip: nat)
    ensures 1 <= skip <= MAX_SKIP
  {
    var k := Below(MAX_SKIP);
    skip := 1 + k;
  }

  method GenTransfer(kind: nat) returns (c: Chunk)
    ensures ChunkOk(c) && !c.Plain?
  {
    var skip := DrawSkip();
    if kind == 0 {
      var k := Below(|CONDITIONS|);
      var rs1 := AnyReg();
      var rs2 := AnyReg();
      c := CondBranch(CONDITIONS[k], rs1, rs2, skip);
    } else if kind == 1 {
      var rd := AnyReg();
      c := JumpLink(rd, skip);
    } else if kind == 2 {
      var rt := NzReg();
      var rd := AnyReg();
      c := JumpFar(rt, rd, skip);
    } else if kind == 3 {
      var ne := Coin();
      var rs1 := CReg();
      c := ShortBranch(ne, rs1, skip);
    } else if kind == 4 {
      c := ShortJump(skip);
    } else {
      var rt := NzReg();
      var link := Coin();
      c := ShortFar(rt, link, skip);
    }
  }

  /** One unit of generation, of any kind. */
  method GenChunk() returns (c: Chunk)
    ensures ChunkOk(c)
  {
    var kind := Below(18);
    match kind {
      case 0 => c := GenOp();
      case 1 => c := GenOp32();
      case 2 => c := GenOpImm();
      case 3 => c := GenOpImm32();
      case 4 => c := GenUpper();
      case 5 => c := GenMul();
      case 6 => c := GenMem();
      case 7 => c := GenAmo();
      case 8 => c := GenLrSc();
      case 9 => c := GenCompressed();
      case 10 => c := GenCMem();
      case 11 => c := GenFence();
      case _ => c := GenTransfer(kind - 12);
    }
  }
}
