/** Laying chunks out, resolving every transfer, and writing the file image. */
module Assembler {
  import opened Encoding
  import opened Machine
  import opened Blocks
  import opened Programs
  import opened Chunks
  import opened Generator

  const EXIT_OFF: nat := 0
  const ENTRY_OFF: nat := 0x40
  const TABLE_OFF: nat := 0x1100
  const CHUNKS: nat := 48
  const BUDGET: nat := CODE_LIMIT - 64
  const BODY_OFF: nat := 0xD0

  // ---- layout ----

  ghost predicate ChunksOk(cs: seq<Chunk>) {
    forall i :: 0 <= i < |cs| ==> ChunkOk(cs[i])
  }

  const TERMINATOR: Chunk := Plain([Word(ECALL)])

  /** What the generator lays out: drawn chunks, then the terminator. */
  ghost predicate Drawn(cs: seq<Chunk>) {
    cs != [] && cs[|cs| - 1] == TERMINATOR && ChunksOk(cs[..|cs| - 1])
  }

  lemma {:induction false} DrawnAt(cs: seq<Chunk>, i: nat)
    requires Drawn(cs) && i < |cs| - 1
    ensures ChunkOk(cs[i])
  {
    assert ChunkOk(cs[..|cs| - 1][i]);
  }

  /** Where chunk `k` starts, from the start of the body. */
  function ChunkOff(cs: seq<Chunk>, k: nat): nat
    requires k <= |cs|
  {
    if k == 0 then 0 else ChunkOff(cs, k - 1) + Len(cs[k - 1])
  }

  /** The chunk a transfer goes to: so many ahead, but no further than the terminator. */
  function Target(cs: seq<Chunk>, i: nat): (t: nat)
    requires i < |cs| - 1
    ensures i <= t < |cs|
    ensures Skips(cs[i]) ==> i < t <= i + MAX_SKIP
  {
    var t := i + if cs[i].Plain? then 1 else cs[i].skip;
    if t < |cs| then t else |cs| - 1
  }

  lemma {:induction false} OffOrder(cs: seq<Chunk>, i: nat, t: nat)
    requires i <= t <= |cs|
    ensures ChunkOff(cs, i) <= ChunkOff(cs, t)
  {
    if i < t {
      OffOrder(cs, i, t - 1);
    }
  }

  /** Chunks are short, so nothing a transfer may reach is far. */
  lemma {:induction false} OffSpan(cs: seq<Chunk>, i: nat, t: nat)
    requires i <= t < |cs| && Drawn(cs)
    ensures ChunkOff(cs, t) - ChunkOff(cs, i) <= 24 * (t - i)
  {
    if i < t {
      OffSpan(cs, i, t - 1);
      DrawnAt(cs, t - 1);
    }
  }

  lemma {:induction false} OffEven(cs: seq<Chunk>, k: nat)
    requires k <= |cs|
    ensures ChunkOff(cs, k) % 2 == 0
  {
    if k > 0 {
      OffEven(cs, k - 1);
      LenEven(cs[k - 1]);
    }
  }

  lemma {:induction false} LenEven(c: Chunk)
    ensures Len(c) % 2 == 0
  {
    if c.Plain? {
      EvenSize(c.ins, |c.ins|);
    }
  }

  /** The displacement of chunk `i`'s target. */
  function Displace(cs: seq<Chunk>, i: nat): (d: int)
    requires i < |cs| - 1
  {
    ChunkOff(cs, Target(cs, i)) - ChunkOff(cs, i)
  }

  lemma {:induction false} TargetAhead(cs: seq<Chunk>, i: nat)
    requires i < |cs| - 1 && Drawn(cs)
    ensures i < Target(cs, i) <= i + 6
  {
    DrawnAt(cs, i);
  }

  lemma {:induction false} EvenDifference(a: nat, b: nat)
    requires a % 2 == 0 && b % 2 == 0
    ensures (b - a) % 2 == 0
  {
  }

  /** Every displacement is forward, even, and short enough for every format that carries it. */
  lemma {:induction false} Guards(cs: seq<Chunk>, i: nat)
    requires i < |cs| - 1 && Drawn(cs)
    ensures 0 <= Displace(cs, i) <= 144 == MAX_CHUNK * MAX_SKIP && Displace(cs, i) % 2 == 0
    ensures i < Target(cs, i)
  {
    TargetAhead(cs, i);
    var t := Target(cs, i);
    OffOrder(cs, i, t);
    OffSpan(cs, i, t);
    OffEven(cs, i);
    OffEven(cs, t);
    EvenDifference(ChunkOff(cs, i), ChunkOff(cs, t));
  }

  /** The instructions of chunk `i`, resolved. */
  ghost function BlockOf(cs: seq<Chunk>, i: nat): seq<Ins>
    requires Drawn(cs) && i < |cs|
  {
    if i == |cs| - 1 then [Word(ECALL)]
    else
      Guards(cs, i);
      DrawnAt(cs, i);
      Resolve(cs[i], Displace(cs, i))
  }

  ghost function BlocksOf(cs: seq<Chunk>): (b: seq<seq<Ins>>)
    requires Drawn(cs)
    ensures |b| == |cs|
  {
    seq(|cs|, i requires 0 <= i < |cs| => BlockOf(cs, i))
  }

  ghost function TargetsOf(cs: seq<Chunk>): (t: seq<nat>)
    requires cs != []
    ensures |t| == |cs| - 1
  {
    seq(|cs| - 1, i requires 0 <= i < |cs| - 1 => Target(cs, i))
  }

  lemma {:induction false} BlockSize(cs: seq<Chunk>, i: nat)
    requires i < |cs| && Drawn(cs)
    ensures SizeOf(BlockOf(cs, i)) == Len(cs[i])
  {
    if i < |cs| - 1 {
      DrawnAt(cs, i);
      Guards(cs, i);
      ResolveSize(cs[i], Displace(cs, i));
    }
  }

  lemma {:induction false} SameOffsets(cs: seq<Chunk>, k: nat)
    requires k <= |cs| && Drawn(cs)
    ensures Off(BlocksOf(cs), k) == ChunkOff(cs, k)
  {
    hide BlockOf;
    if k > 0 {
      SameOffsets(cs, k - 1);
      BlockSize(cs, k - 1);
    }
  }

  /** The chunks of any draw sequence make a body that only goes forward. */
  lemma {:induction false} MakesABody(cs: seq<Chunk>)
    requires Drawn(cs)
    ensures Body(RV64GC, BlocksOf(cs), TargetsOf(cs))
  {
    var blocks, targets := BlocksOf(cs), TargetsOf(cs);
    forall i | 0 <= i < |blocks| - 1 ensures Forward(RV64GC, blocks, targets, i) {
      ForwardAt(cs, i, blocks, targets);
    }
  }

  lemma {:induction false} ForwardAt(cs: seq<Chunk>, i: nat, blocks: seq<seq<Ins>>, targets: seq<nat>)
    requires Drawn(cs) && i < |cs| - 1 && blocks == BlocksOf(cs) && targets == TargetsOf(cs)
    ensures Forward(RV64GC, blocks, targets, i)
  {
    Guards(cs, i);
    SameOffsets(cs, i);
    SameOffsets(cs, Target(cs, i));
    BlockIs(cs, i);
    ForwardBy(RV64GC, blocks, targets, i, Target(cs, i), Displace(cs, i));
  }

  lemma {:induction false} ForwardBy(isa: Isa, blocks: seq<seq<Ins>>, targets: seq<nat>, i: nat, t: nat, d: nat)
    requires |targets| == |blocks| - 1 && i < |targets| && targets[i] == t && i < t < |blocks|
    requires Off(blocks, t) - Off(blocks, i) == d < CODE_LIMIT && d % 2 == 0 && Block(isa, blocks[i], d)
    ensures Forward(isa, blocks, targets, i)
  {
  }

  lemma {:induction false} BlockIs(cs: seq<Chunk>, i: nat)
    requires Drawn(cs) && i < |cs| - 1
    ensures Displace(cs, i) >= 0 && Block(RV64GC, BlocksOf(cs)[i], Displace(cs, i))
  {
    Guards(cs, i);
    DrawnAt(cs, i);
    ResolveBlock(cs[i], Displace(cs, i));
  }

  // ---- writing code ----

  ghost predicate Same(a: seq<bv8>, b: seq<bv8>, from: nat, to: nat) {
    |a| == |b| && forall k :: 0 <= k < |a| && !(from <= k < to) ==> a[k] == b[k]
  }

  lemma {:induction false} KeptIns(a: seq<bv8>, b: seq<bv8>, from: nat, to: nat, off: nat, i: Ins)
    requires Same(a, b, from, to) && InsAt(a, off, i) && (off + Size(i) <= from || to <= off)
    ensures InsAt(b, off, i)
  {
    assert b[off..off + Size(i)] == a[off..off + Size(i)];
  }

  lemma {:induction false} KeptCode(a: seq<bv8>, b: seq<bv8>, from: nat, to: nat, off: nat, v: seq<Ins>)
    requires Same(a, b, from, to) && LaidOut(RV64GC, a, off, v) && (off + SizeOf(v) <= from || to <= off)
    ensures LaidOut(RV64GC, b, off, v)
  {
    forall k | 0 <= k < |v| ensures PlacedAt(RV64GC, b, off, v, k) {
      assert PlacedAt(RV64GC, a, off, v, k);
      PrefixFits(v, k);
      KeptIns(a, b, from, to, off + Before(v, k), v[k]);
    }
  }

  method PutIns(image: array<bv8>, off: nat, i: Ins)
    requires off + Size(i) <= image.Length
    modifies image
    ensures InsAt(image[..], off, i) && Same(old(image[..]), image[..], off, off + Size(i))
  {
    var bytes := BytesOf(i);
    forall k | 0 <= k < Size(i) {
      image[off + k] := bytes[k];
    }
    assert image[off..off + Size(i)] == bytes;
  }

  lemma {:induction false} BeforePrefix(v: seq<Ins>, w: seq<Ins>, k: nat)
    requires k <= |v|
    ensures Before(v + w, k) == Before(v, k)
  {
    if k > 0 {
      BeforePrefix(v, w, k - 1);
    }
  }

  lemma {:induction false} OneMoreIns(mem: seq<bv8>, off: nat, v: seq<Ins>, k: nat)
    requires k < |v| && LaidOut(RV64GC, mem, off, v[..k]) && InsAt(mem, off + Before(v, k), v[k])
    ensures LaidOut(RV64GC, mem, off, v[..k + 1])
  {
    var w := v[..k + 1];
    forall j | 0 <= j < |w| ensures PlacedAt(RV64GC, mem, off, w, j) {
      assert v == w + v[k + 1..] && v == v[..k] + v[k..];
      BeforePrefix(w, v[k + 1..], j);
      BeforePrefix(v[..k], v[k..], j);
      if j < k {
        assert PlacedAt(RV64GC, mem, off, v[..k], j);
      }
    }
  }

  /** Writes instructions one after another. */
  method Put(image: array<bv8>, start: nat, v: seq<Ins>)
    requires start + SizeOf(v) <= image.Length
    modifies image
    ensures LaidOut(RV64GC, image[..], start, v) && Same(old(image[..]), image[..], start, start + SizeOf(v))
  {
    var o, k := start, 0;
    while k < |v|
      invariant k <= |v| && o == start + Before(v, k)
      invariant LaidOut(RV64GC, image[..], start, v[..k])
      invariant Same(old(image[..]), image[..], start, o)
    {
      PrefixFits(v, k);
      ghost var before := image[..];
      PutIns(image, o, v[k]);
      assert v == v[..k] + v[k..];
      BeforePrefix(v[..k], v[k..], k);
      KeptCode(before, image[..], o, o + Size(v[k]), start, v[..k]);
      OneMoreIns(image[..], start, v, k);
      o, k := o + Size(v[k]), k + 1;
    }
    assert v[..k] == v;
  }

  // ---- the program ----

  /** The stub the terminating `ecall` would trap to. */
  function ExitStub(): (v: seq<Ins>)
    ensures SizeOf(v) == 16
  {
    var v := [Word(UType(0x17, 5, 1)), Word(IType(0x13, 0, 6, 0, 1)), Word(SType(0x23, 3, 5, 6, 0)), Word(JType(0, 0))];
    assert Before(v, 1) == 4 && Before(v, 2) == 8 && Before(v, 3) == 12;
    v
  }

  function RegOf(n: nat): Reg {
    (ToBits(n) & 0x1F) as bv5
  }

  /** The immediates that lead from the prologue to the exit stub and to the table. */
  const TO_STUB: bv32 := 0xFFFF_FFC0
  const MTVEC: bv32 := 0x305
  const TO_TABLE: nat := TABLE_OFF - (ENTRY_OFF + 12 + 0x1000)

  /** The prologue's `k`th instruction: the stub installed, then every register loaded from the table, the base last. */
  function PrologueAt(k: nat): Ins {
    if k == 0 then Word(UType(0x17, 5, 0))
    else if k == 1 then Word(IType(0x13, 0, 5, 5, TO_STUB))
    else if k == 2 then Word(IType(0x73, 1, 0, 5, MTVEC))
    else if k == 3 then Word(UType(0x17, 31, 1))
    else if k == 4 then Word(IType(0x13, 0, 31, 31, ToBits(TO_TABLE)))
    else Word(IType(0x03, 3, RegOf(k - 4), 31, ToBits(8 * (k - 5))))
  }

  function PrologueIns(n: nat): (v: seq<Ins>)
    ensures |v| == n
  {
    seq(n, k requires 0 <= k => PrologueAt(k))
  }

  method Prologue() returns (v: seq<Ins>)
    ensures v == PrologueIns(36) && AllWords(v)
  {
    v := [Word(UType(0x17, 5, 0)), Word(IType(0x13, 0, 5, 5, TO_STUB)), Word(IType(0x73, 1, 0, 5, MTVEC))];
    var at := ENTRY_OFF + 4 * |v|;
    var delta := TABLE_OFF - (at + 0x1000);
    assert 0 <= delta <= 2047;
    v := v + [Word(UType(0x17, 31, 1)), Word(IType(0x13, 0, 31, 31, ToBits(delta)))];
    var n := 1;
    while n < 32
      invariant 1 <= n <= 32 && v == PrologueIns(4 + n)
    {
      assert 8 * (n - 1) <= 2047;
      v := v + [Word(IType(0x03, 3, RegOf(n), 31, ToBits(8 * (n - 1))))];
      n := n + 1;
    }
  }

  predicate AllWords(v: seq<Ins>) {
    forall k :: 0 <= k < |v| ==> v[k].Word?
  }

  lemma {:induction false} WordsSize(v: seq<Ins>, k: nat)
    requires AllWords(v) && k <= |v|
    ensures Before(v, k) == 4 * k
  {
    if k > 0 {
      WordsSize(v, k - 1);
    }
  }

  /** The drawn chunks leave room for the terminator below the limit. */
  ghost predicate Fits(cs: seq<Chunk>) {
    BODY_OFF + ChunkOff(cs, |cs|) <= BUDGET + 4
  }

  /** Chunks until there are enough, or the next would not fit; then the terminator. There are always enough. */
  method DrawChunks() returns (cs: seq<Chunk>)
    ensures Drawn(cs) && |cs| == CHUNKS + 1 && Fits(cs)
  {
    cs := [];
    var off := BODY_OFF;
    while |cs| < CHUNKS
      invariant |cs| <= CHUNKS && ChunksOk(cs)
      invariant off == BODY_OFF + ChunkOff(cs, |cs|) <= BODY_OFF + MAX_CHUNK * |cs| <= BUDGET
    {
      var c := GenChunk();
      assert Len(c) <= MAX_CHUNK;
      if off + Len(c) > BUDGET {
        break;
      }
      off := off + Len(c);
      OneMoreChunk(cs, c);
      cs := cs + [c];
    }
    Sizes([Word(ECALL)]);
    OneMoreChunk(cs, TERMINATOR);
    ghost var drawn := cs;
    cs := cs + [TERMINATOR];
    assert cs[..|cs| - 1] == drawn;
  }

  lemma {:induction false} OneMoreChunk(cs: seq<Chunk>, c: Chunk)
    ensures ChunkOff(cs + [c], |cs| + 1) == ChunkOff(cs, |cs|) + Len(c)
  {
    ChunkOffPrefix(cs, [c], |cs|);
  }

  lemma {:induction false} ChunkOffPrefix(cs: seq<Chunk>, more: seq<Chunk>, k: nat)
    requires k <= |cs|
    ensures ChunkOff(cs + more, k) == ChunkOff(cs, k)
  {
    if k > 0 {
      ChunkOffPrefix(cs, more, k - 1);
    }
  }

  // ---- one after another ----

  function Flat(blocks: seq<seq<Ins>>, k: nat): seq<Ins>
    requires k <= |blocks|
  {
    if k == 0 then [] else Flat(blocks, k - 1) + blocks[k - 1]
  }

  lemma {:induction false} BeforeConcat(v: seq<Ins>, w: seq<Ins>, k: nat)
    requires k <= |w|
    ensures Before(v + w, |v| + k) == SizeOf(v) + Before(w, k)
  {
    if k > 0 {
      BeforeConcat(v, w, k - 1);
      assert (v + w)[|v| + k - 1] == w[k - 1];
    } else {
      BeforePrefix(v, w, |v|);
    }
  }

  lemma {:induction false} FlatSize(blocks: seq<seq<Ins>>, k: nat)
    requires k <= |blocks|
    ensures SizeOf(Flat(blocks, k)) == Off(blocks, k)
  {
    if k > 0 {
      FlatSize(blocks, k - 1);
      BeforeConcat(Flat(blocks, k - 1), blocks[k - 1], |blocks[k - 1]|);
    }
  }

  lemma {:induction false} SplitCode(mem: seq<bv8>, off: nat, v: seq<Ins>, w: seq<Ins>)
    requires LaidOut(RV64GC, mem, off, v + w)
    ensures LaidOut(RV64GC, mem, off, v) && LaidOut(RV64GC, mem, off + SizeOf(v), w)
  {
    forall k | 0 <= k < |v| ensures PlacedAt(RV64GC, mem, off, v, k) {
      assert PlacedAt(RV64GC, mem, off, v + w, k);
      BeforePrefix(v, w, k);
    }
    var at := off + SizeOf(v);
    forall k | 0 <= k < |w| ensures PlacedAt(RV64GC, mem, at, w, k) {
      assert PlacedAt(RV64GC, mem, off, v + w, |v| + k);
      BeforeConcat(v, w, k);
    }
  }

  /** Code written in one run holds every block at its own offset. */
  lemma {:induction false} BlocksPlaced(mem: seq<bv8>, start: nat, blocks: seq<seq<Ins>>, n: nat, i: nat)
    requires i < n <= |blocks| && LaidOut(RV64GC, mem, start, Flat(blocks, n))
    ensures BlockIn(RV64GC, mem, start, blocks, i)
  {
    SplitCode(mem, start, Flat(blocks, n - 1), blocks[n - 1]);
    FlatSize(blocks, n - 1);
    if i < n - 1 {
      BlocksPlaced(mem, start, blocks, n - 1, i);
    }
  }

  lemma {:induction false} RemainingTotal(blocks: seq<seq<Ins>>, k: nat)
    requires k < |blocks|
    ensures |Flat(blocks, k)| + Remaining(blocks, k) == |Flat(blocks, |blocks| - 1)|
    decreases |blocks| - k
  {
    if k < |blocks| - 1 {
      RemainingTotal(blocks, k + 1);
    }
  }

  /** The first chunks' offsets, in order. */
  ghost predicate OffsetsOf(cs: seq<Chunk>, offs: seq<nat>) {
    |offs| <= |cs| && forall i {:trigger offs[i]} :: 0 <= i < |offs| ==> offs[i] == BODY_OFF + ChunkOff(cs, i)
  }

  method Offsets(cs: seq<Chunk>) returns (offs: seq<nat>)
    ensures |offs| == |cs| && OffsetsOf(cs, offs)
  {
    offs := [];
    var off := BODY_OFF;
    while |offs| < |cs|
      invariant OffsetsOf(cs, offs) && off == BODY_OFF + ChunkOff(cs, |offs|)
    {
      OneMoreOffset(cs, offs, off);
      var next := off + Len(cs[|offs|]);
      offs, off := offs + [off], next;
    }
  }

  lemma {:induction false} OneMoreOffset(cs: seq<Chunk>, offs: seq<nat>, off: nat)
    requires OffsetsOf(cs, offs) && |offs| < |cs| && off == BODY_OFF + ChunkOff(cs, |offs|)
    ensures OffsetsOf(cs, offs + [off]) && off + Len(cs[|offs|]) == BODY_OFF + ChunkOff(cs, |offs| + 1)
  {
  }

  /** One chunk, resolved against the offsets, is the block at its place. */
  method ResolveOne(cs: seq<Chunk>, offs: seq<nat>, i: nat) returns (v: seq<Ins>)
    requires Drawn(cs) && i < |cs| - 1 && |offs| == |cs| && OffsetsOf(cs, offs)
    ensures v == BlockOf(cs, i)
  {
    Guards(cs, i);
    DrawnAt(cs, i);
    var t := Target(cs, i);
    var d: nat := offs[t] - offs[i];
    CheckGuards(cs[i], d);
    v := Resolve(cs[i], d);
  }

  /** The first `k` chunks, resolved, one after another. */
  ghost function FlatOf(cs: seq<Chunk>, k: nat): seq<Ins>
    requires Drawn(cs) && k <= |cs|
  {
    if k == 0 then [] else FlatOf(cs, k - 1) + BlockOf(cs, k - 1)
  }

  lemma {:induction false} FlatIs(cs: seq<Chunk>, k: nat)
    requires Drawn(cs) && k <= |cs|
    ensures FlatOf(cs, k) == Flat(BlocksOf(cs), k)
  {
    hide BlockOf;
    if k > 0 {
      FlatIs(cs, k - 1);
      assert BlocksOf(cs)[k - 1] == BlockOf(cs, k - 1);
    }
  }

  ghost predicate IsBody(cs: seq<Chunk>, body: seq<Ins>)
    requires Drawn(cs)
  {
    body == FlatOf(cs, |cs|)
  }

  /** Offsets first, then every transfer against them. */
  method ResolveAll(cs: seq<Chunk>) returns (body: seq<Ins>, ecallOff: nat)
    requires Drawn(cs)
    ensures IsBody(cs, body) && ecallOff == BODY_OFF + ChunkOff(cs, |cs| - 1)
  {
    var offs := Offsets(cs);
    ecallOff := offs[|cs| - 1];
    body := ResolveBody(cs, offs);
    body := body + [Word(ECALL)];
    assert BlockOf(cs, |cs| - 1) == [Word(ECALL)];
  }

  method ResolveBody(cs: seq<Chunk>, offs: seq<nat>) returns (body: seq<Ins>)
    requires Drawn(cs) && |offs| == |cs| && OffsetsOf(cs, offs)
    ensures body == FlatOf(cs, |cs| - 1)
  {
    body := [];
    var i := 0;
    while i < |cs| - 1
      invariant i <= |cs| - 1 && body == FlatOf(cs, i)
    {
      var v := ResolveOne(cs, offs, i);
      body := body + v;
      i := i + 1;
    }
  }

  /** The range checks made before each splice. */
  method CheckGuards(c: Chunk, d: nat)
    requires d <= MAX_CHUNK * MAX_SKIP
  {
    if c.JumpFar? {
      assert d - Clamped(d) <= 2047;
    } else if c.ShortBranch? {
      assert d < 256;
    } else if c.ShortJump? {
      assert d < 2048;
    } else if c.ShortFar? {
      assert d <= 2047;
    }
  }

  datatype Program = Program(image: seq<bv8>, bodyStart: nat, ecallPc: nat, bodyLen: nat)

  /** The image holds the exit stub, the prologue and the resolved chunks, and the three numbers describe them. */
  ghost predicate IsProgram(p: Program, cs: seq<Chunk>) {
    && Drawn(cs) && |cs| == CHUNKS + 1 && AllSay(cs)
    && Loaded(RV64GC, p.image, BODY_OFF, BlocksOf(cs))
    && LaidOut(RV64GC, p.image, EXIT_OFF, ExitStub()) && LaidOut(RV64GC, p.image, ENTRY_OFF, PrologueIns(36))
    && p.bodyStart == BASE + BODY_OFF
    && p.ecallPc == BASE + BODY_OFF + Off(BlocksOf(cs), |cs| - 1)
    && p.bodyLen == |Flat(BlocksOf(cs), |cs|)|
  }

  /** Every resolved chunk says, decoded, what was drawn, over the distance its skip asks for. */
  ghost predicate AllSay(cs: seq<Chunk>)
    requires Drawn(cs)
  {
    forall i :: 0 <= i < |cs| - 1 ==> SaysAt(cs, i)
  }

  ghost predicate SaysAt(cs: seq<Chunk>, i: nat)
    requires Drawn(cs) && i < |cs| - 1
  {
    exists d: nat :: Says(cs[i], d, BlocksOf(cs)[i]) && (!cs[i].Plain? ==> d == LenOf(cs[i..Landing(cs, i)]))
  }

  /** The chunk so many on, or else the terminator. */
  function Landing(cs: seq<Chunk>, i: nat): (t: nat)
    requires i < |cs| && !cs[i].Plain?
    ensures i <= t <= |cs|
  {
    if i + cs[i].skip < |cs| then i + cs[i].skip else |cs| - 1
  }

  /** How many bytes chunks take. */
  function LenOf(cs: seq<Chunk>): nat {
    if cs == [] then 0 else LenOf(cs[..|cs| - 1]) + Len(cs[|cs| - 1])
  }

  lemma {:induction false} OffsetsApart(cs: seq<Chunk>, i: nat, t: nat)
    requires i <= t <= |cs|
    ensures ChunkOff(cs, t) == ChunkOff(cs, i) + LenOf(cs[i..t])
  {
    if i < t {
      OffsetsApart(cs, i, t - 1);
      assert cs[i..t][..t - i - 1] == cs[i..t - 1];
    }
  }

  lemma {:induction false} EachSays(cs: seq<Chunk>)
    requires Drawn(cs)
    ensures AllSay(cs)
  {
    forall i | 0 <= i < |cs| - 1 ensures SaysAt(cs, i) {
      OneSays(cs, i);
    }
  }

  lemma {:induction false} OneSays(cs: seq<Chunk>, i: nat)
    requires Drawn(cs) && i < |cs| - 1
    ensures SaysAt(cs, i)
  {
    hide Says, Resolve;
    Guards(cs, i);
    DrawnAt(cs, i);
    var d: nat := Displace(cs, i);
    ResolveSays(cs[i], d);
    LandsThere(cs, i);
    assert BlocksOf(cs)[i] == BlockOf(cs, i) == Resolve(cs[i], d);
  }

  lemma {:induction false} LandsThere(cs: seq<Chunk>, i: nat)
    requires i < |cs| - 1 && Drawn(cs)
    ensures !cs[i].Plain? ==> Displace(cs, i) == LenOf(cs[i..Landing(cs, i)])
  {
    DrawnAt(cs, i);
    if !cs[i].Plain? {
      OffsetsApart(cs, i, Landing(cs, i));
    }
  }

  method FillRandom(image: array<bv8>, from: nat, to: nat)
    requires from <= to <= image.Length
    modifies image
    ensures Same(old(image[..]), image[..], from, to)
  {
    var o := from;
    while o < to
      invariant from <= o <= to && Same(old(image[..]), image[..], from, to)
    {
      image[o] := *;
      o := o + 1;
    }
  }

  /** Stub, prologue, body, then the seed table. */
  method PutAll(image: array<bv8>, prologue: seq<Ins>, body: seq<Ins>)
    requires image.Length == IMAGE_LEN && SizeOf(prologue) == BODY_OFF - ENTRY_OFF && BODY_OFF + SizeOf(body) <= CODE_LIMIT
    modifies image
    ensures LaidOut(RV64GC, image[..], EXIT_OFF, ExitStub()) && LaidOut(RV64GC, image[..], ENTRY_OFF, prologue)
    ensures LaidOut(RV64GC, image[..], BODY_OFF, body)
  {
    Put(image, EXIT_OFF, ExitStub());
    ghost var one := image[..];
    Put(image, ENTRY_OFF, prologue);
    ghost var two := image[..];
    KeptCode(one, two, ENTRY_OFF, BODY_OFF, EXIT_OFF, ExitStub());
    Put(image, BODY_OFF, body);
    ghost var three := image[..];
    KeptCode(two, three, BODY_OFF, BODY_OFF + SizeOf(body), EXIT_OFF, ExitStub());
    KeptCode(two, three, BODY_OFF, BODY_OFF + SizeOf(body), ENTRY_OFF, prologue);
    FillRandom(image, TABLE_OFF, TABLE_OFF + 31 * 8);
    KeptCode(three, image[..], TABLE_OFF, TABLE_OFF + 31 * 8, EXIT_OFF, ExitStub());
    KeptCode(three, image[..], TABLE_OFF, TABLE_OFF + 31 * 8, ENTRY_OFF, prologue);
    KeptCode(three, image[..], TABLE_OFF, TABLE_OFF + 31 * 8, BODY_OFF, body);
  }

  method Generate() returns (p: Program)
    ensures exists cs :: IsProgram(p, cs)
  {
    var chunks := DrawChunks();
    var body, ecallOff := ResolveAll(chunks);
    BodyFits(chunks);
    FlatIs(chunks, |chunks|);
    var image := new bv8[IMAGE_LEN](_ => 0);
    FillRandom(image, SCRATCH_OFF, IMAGE_LEN);
    var prologue := Prologue();
    WordsSize(prologue, |prologue|);
    PutAll(image, prologue, body);
    SameOffsets(chunks, |chunks| - 1);
    AllPlaced(image[..], chunks);
    EachSays(chunks);
    p := Program(image[..], BASE + BODY_OFF, BASE + ecallOff, |body|);
    assert IsProgram(p, chunks);
  }

  lemma {:induction false} BodyFits(cs: seq<Chunk>)
    requires Drawn(cs) && Fits(cs)
    ensures SizeOf(Flat(BlocksOf(cs), |cs|)) == ChunkOff(cs, |cs|) && BODY_OFF + Off(BlocksOf(cs), |cs|) <= CODE_LIMIT
  {
    FlatSize(BlocksOf(cs), |cs|);
    SameOffsets(cs, |cs|);
  }

  lemma {:induction false} AllPlaced(mem: seq<bv8>, cs: seq<Chunk>)
    requires Drawn(cs) && |mem| == IMAGE_LEN && LaidOut(RV64GC, mem, BODY_OFF, Flat(BlocksOf(cs), |cs|))
    requires BODY_OFF + Off(BlocksOf(cs), |cs|) <= CODE_LIMIT
    ensures Loaded(RV64GC, mem, BODY_OFF, BlocksOf(cs))
  {
    forall i | 0 <= i < |cs| ensures BlockIn(RV64GC, mem, BODY_OFF, BlocksOf(cs), i) {
      BlocksPlaced(mem, BODY_OFF, BlocksOf(cs), |cs|, i);
    }
  }

  /**
   Every run of every generated body, from any registers and whatever its
   instructions compute, reaches the terminating `ecall` in fewer steps than the
   body has instructions, without a trap, using only aligned operands in the scratch
   page, and leaves every other byte of the image as it was.
   */
  lemma {:induction false} EveryRunIsSafe(p: Program, cs: seq<Chunk>, s: State, os: nat -> Open) returns (run: seq<State>)
    requires IsProgram(p, cs) && s.pc == p.bodyStart && OnlyScratch(p.image, s.mem)
    ensures Safe(RV64GC, os, 0, run) && run[0] == s && run[|run| - 1].pc == p.ecallPc
    ensures |run| - 1 < p.bodyLen
    ensures forall k :: 0 <= k < |run| ==> OnlyScratch(p.image, run[k].mem)
  {
    var blocks := BlocksOf(cs);
    RealIsSound();
    MakesABody(cs);
    StillLoaded(RV64GC, p.image, s.mem, BODY_OFF, blocks);
    run := ReachesEnd(RV64GC, os, 0, s, BODY_OFF, blocks, TargetsOf(cs), 0);
    RemainingTotal(blocks, 0);
    forall k | 0 <= k < |run| ensures OnlyScratch(p.image, run[k].mem) {
      SafeKeepsMemory(RV64GC, os, 0, run, k);
    }
  }
}
