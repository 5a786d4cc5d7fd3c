/** Loading a kernel, a device tree and an initrd, and the start state the boot protocol asks for. */
module BootImages {
  import opened Bytes
  import opened Wrappers
  import opened Memory
  import DeviceTree
  import DeviceTreeRoundTrip
  import ElfReader

  const KERNEL_LOAD_ADDR: nat := 0x8020_0000
  const HEADER_LEN: nat := 64
  const IMAGE_MAGIC2: seq<byte> := [0x52, 0x53, 0x43, 0x05]
  const TEXT_OFFSET: nat := 0x20_0000

  // "/chosen", "linux,initrd-start" and "linux,initrd-end"
  const CHOSEN: seq<byte> := [0x2f, 0x63, 0x68, 0x6f, 0x73, 0x65, 0x6e]
  const INITRD: seq<byte> := [0x6c, 0x69, 0x6e, 0x75, 0x78, 0x2c, 0x69, 0x6e, 0x69, 0x74, 0x72, 0x64, 0x2d]
  const INITRD_START: seq<byte> := INITRD + [0x73, 0x74, 0x61, 0x72, 0x74]
  const INITRD_END: seq<byte> := INITRD + [0x65, 0x6e, 0x64]

  // ---- the riscv64 boot header ----

  predicate HasImageHeader(b: seq<byte>) {
    |b| >= HEADER_LEN && b[56..60] == IMAGE_MAGIC2
  }

  function ImageSize(b: seq<byte>): (v: nat)
    requires |b| >= HEADER_LEN
    ensures v < U64
  {
    Pow256Values();
    FromLE(b[16..24])
  }

  /** The declared memory size, unless it is smaller than the file. */
  function Footprint(b: seq<byte>): (r: Option<nat>)
    ensures r.Some? ==> |b| <= r.value < U64
  {
    if HasImageHeader(b) && ImageSize(b) >= |b| then Some(ImageSize(b)) else None
  }

  function DeclaredOffset(b: seq<byte>): Option<nat> {
    if HasImageHeader(b) then Some(FromLE(b[8..16])) else None
  }

  predicate IsElf(b: seq<byte>) {
    |b| >= 4 && b[..4] == ElfReader.MAGIC
  }

  /** How much memory a raw image is taken to occupy. */
  function Span(b: seq<byte>): (n: nat)
    ensures n >= |b|
  {
    if Footprint(b).Some? then Footprint(b).value else |b|
  }

  datatype KernelError = BadElf(error: ElfReader.ElfError) | WrongTextOffset(want: nat) | DoesNotFit(fault: Fault) | Overflows(span: nat)

  /** The outcome of loading a raw image: memory, and one past the end of what it will occupy. */
  function RawKernel(b: seq<byte>): (r: Result<nat, KernelError>)
    requires !IsElf(b)
    ensures r.Ok? ==> KERNEL_LOAD_ADDR + |b| <= r.value < U64 && KERNEL_LOAD_ADDR + |b| <= RAM_END
  {
    var want := DeclaredOffset(b);
    if want.Some? && want.value != TEXT_OFFSET then Error(WrongTextOffset(want.value))
    else if !Placeable(KERNEL_LOAD_ADDR, |b|) then Error(DoesNotFit(StoreAccess(FirstUnmapped(KERNEL_LOAD_ADDR))))
    else if KERNEL_LOAD_ADDR + Span(b) >= U64 then Error(Overflows(Span(b)))
    else Ok(KERNEL_LOAD_ADDR + Span(b))
  }

  /** What a header says the image occupies, when it says more than the file holds. */
  function Occupied(b: seq<byte>): nat {
    if HasImageHeader(b) && FromLE(b[16..24]) > |b| then FromLE(b[16..24]) else |b|
  }

  /** A raw image is accepted exactly when its header, if any, asks for this load offset, and it fits. */
  lemma {:induction false} RawKernelExact(b: seq<byte>)
    requires !IsElf(b)
    ensures RawKernel(b).Ok? <==>
              && (HasImageHeader(b) ==> FromLE(b[8..16]) == TEXT_OFFSET)
              && (b == [] || KERNEL_LOAD_ADDR + |b| <= RAM_END) && KERNEL_LOAD_ADDR + Occupied(b) < U64
    ensures RawKernel(b).Ok? ==> RawKernel(b).value == KERNEL_LOAD_ADDR + Occupied(b)
  {
  }

  /** The kernel can be loaded, and this is where it ends. */
  ghost predicate KernelEnds(ram: Ram, b: seq<byte>, end: nat) {
    if IsElf(b) then
      && ElfReader.LoadSpec(ram, b).result.Ok?
      && var h := ElfReader.ParseHeader(b).value; ElfReader.IsMaxReach(b, h, h.phnum, end)
    else RawKernel(b) == Ok(end)
  }

  /** Memory once it is loaded. */
  function KernelRam(ram: Ram, b: seq<byte>): Ram {
    if IsElf(b) then ElfReader.LoadSpec(ram, b).ram else Laid(ram, KERNEL_LOAD_ADDR, b)
  }

  lemma {:induction false} OneKernelEnd(ram: Ram, b: seq<byte>, m: nat, n: nat)
    requires KernelEnds(ram, b, m) && KernelEnds(ram, b, n)
    ensures m == n
  {
    if IsElf(b) {
      var h := ElfReader.ParseHeader(b).value;
      ElfReader.OneMaxReach(b, h, h.phnum, m, n);
      ElfReader.OneMaxReach(b, h, h.phnum, n, m);
    }
  }

  method LoadKernel(bus: Bus, b: seq<byte>) returns (r: Result<nat, KernelError>)
    modifies bus
    ensures !IsElf(b) ==> r == RawKernel(b)
    ensures !IsElf(b) ==> bus.ram == if r.Error? && r.error.WrongTextOffset? then old(bus.ram) else Laid(old(bus.ram), KERNEL_LOAD_ADDR, b)
    ensures IsElf(b) ==>
              var loaded := ElfReader.LoadSpec(old(bus.ram), b);
              && bus.ram == loaded.ram
              && (loaded.result.Error? ==> r == Error(BadElf(loaded.result.error)))
              && (loaded.result.Ok? ==> r.Ok?)
    ensures r.Ok? ==> KernelEnds(old(bus.ram), b, r.value) && r.value < U64
  {
    if IsElf(b) {
      var loaded := ElfReader.LoadElf(bus, b);
      if loaded.Error? {
        return Error(BadElf(loaded.error));
      }
      ElfReader.LoadedReaches(old(bus.ram), b);
      var extent := ElfReader.Extent(b);
      match extent {
        case Error(e) => return Error(BadElf(e));
        case Ok(end) => return Ok(end);
      }
    }
    var want := DeclaredOffset(b);
    if want.Some? && want.value != TEXT_OFFSET {
      return Error(WrongTextOffset(want.value));
    }
    var written := bus.WriteBlob(KERNEL_LOAD_ADDR, b);
    if written.Error? {
      return Error(DoesNotFit(written.error));
    }
    var span := match Footprint(b) case Some(n) => n case None => |b|;
    if KERNEL_LOAD_ADDR + span >= U64 {
      return Error(Overflows(span));
    }
    return Ok(KERNEL_LOAD_ADDR + span);
  }

  // ---- layout ----

  datatype Layout = Layout(dtb: nat, initrd: Option<(nat, nat)>)

  function AlignWord(n: nat): (r: nat)
    ensures n <= r < n + 8 && r % 8 == 0
  {
    (n + 7) / 8 * 8
  }

  function AlignPage(n: nat): (r: nat)
    ensures n <= r < n + PAGE_SIZE && r % PAGE_SIZE == 0
  {
    (n + 4095) / 4096 * 4096
  }

  /** The device tree goes on the next word, the initrd on the next page; `None` when they do not fit. Sums are 64-bit and wrap. */
  function BootLayout(kernelEnd: nat, dtbLen: nat, initrdLen: Option<nat>): (r: Option<Layout>)
    ensures r.Some? ==> r.value.initrd.Some? == initrdLen.Some?
  {
    var dtb := ElfReader.Wrap(AlignWord(kernelEnd));
    var dtbEnd := ElfReader.Wrap(dtb + dtbLen);
    match initrdLen
    case None => if dtbEnd > RAM_END then None else Some(Layout(dtb, None))
    case Some(len) =>
      var start := ElfReader.Wrap(AlignPage(dtbEnd));
      var end := ElfReader.Wrap(start + len);
      if end > RAM_END then None else Some(Layout(dtb, Some((start, end))))
  }

  // ---- the device tree's copy of where the initrd is ----

  predicate TwoCells(dtb: seq<byte>, name: seq<byte>) {
    var r := DeviceTree.Lookup(dtb, CHOSEN, name);
    r.Some? && r.value.end - r.value.start == 8
  }

  predicate Recordable(dtb: seq<byte>, start: nat) {
    TwoCells(dtb, INITRD_START) && TwoCells(DeviceTree.Set(dtb, CHOSEN, INITRD_START, start), INITRD_END)
  }

  /** The blob with both addresses written into it. */
  function Recorded(dtb: seq<byte>, start: nat, end: nat): (r: seq<byte>)
    requires Recordable(dtb, start)
    ensures |r| == |dtb| && |dtb| >= 40 && r[..4] == dtb[..4] && DeviceTree.BE32(dtb, 0) == Some(DeviceTree.FDT_MAGIC)
  {
    var first := DeviceTree.Set(dtb, CHOSEN, INITRD_START, start);
    var second := DeviceTree.Set(first, CHOSEN, INITRD_END, end);
    assert first[..4] == dtb[..4] && second[..4] == first[..4];
    second
  }

  /** What the guest then reads in it, for a blob both of whose values may be overwritten. */
  lemma {:induction false} BothRecorded(dtb: seq<byte>, start: nat, end: nat)
    requires Recordable(dtb, start) && start < U64 && end < U64
    requires DeviceTree.Patchable(dtb, CHOSEN, INITRD_START) && DeviceTree.Patchable(dtb, CHOSEN, INITRD_END)
    ensures var after := Recorded(dtb, start, end);
            && DeviceTree.Value(after, CHOSEN, INITRD_START) == Some(ToBE(start, 8)) && FromBE(ToBE(start, 8)) == start
            && DeviceTree.Value(after, CHOSEN, INITRD_END) == Some(ToBE(end, 8)) && FromBE(ToBE(end, 8)) == end
    ensures forall path, name :: name != INITRD_START && name != INITRD_END ==>
              DeviceTree.Value(Recorded(dtb, start, end), path, name) == DeviceTree.Value(dtb, path, name)
  {
    Pow256Values();
    NamesDiffer();
    var first := DeviceTree.Set(dtb, CHOSEN, INITRD_START, start);
    DeviceTree.PatchKeepsLookups(dtb, CHOSEN, INITRD_START, start, CHOSEN, INITRD_END);
    DeviceTree.PatchFrame(first, CHOSEN, INITRD_END, end, CHOSEN, INITRD_START);
    DeviceTree.PatchFrame(dtb, CHOSEN, INITRD_START, start, CHOSEN, INITRD_END);
    forall path, name | name != INITRD_START && name != INITRD_END
      ensures DeviceTree.Value(Recorded(dtb, start, end), path, name) == DeviceTree.Value(dtb, path, name) {
      DeviceTree.PatchFrame(dtb, CHOSEN, INITRD_START, start, path, name);
      DeviceTree.PatchFrame(first, CHOSEN, INITRD_END, end, path, name);
    }
  }

  lemma {:induction false} NamesDiffer()
    ensures INITRD_START != INITRD_END
  {
    assert |INITRD_START| != |INITRD_END|;
  }

  /** In a tree as written, the two addresses can be recorded exactly when its `chosen` node has a two-cell property for each. */
  predicate HasCells(t: DeviceTreeRoundTrip.Tree, name: seq<byte>) {
    var v := DeviceTreeRoundTrip.Seek(t, [CHOSEN[1..]], name);
    v.Some? && |v.value| == 8
  }

  lemma {:induction false} CellsFound(t: DeviceTreeRoundTrip.Tree, name: seq<byte>)
    requires DeviceTreeRoundTrip.NamesOk(t) && |DeviceTreeRoundTrip.Flatten(t)| < 0x1_0000_0000
    ensures TwoCells(DeviceTreeRoundTrip.Flatten(t), name) <==> HasCells(t, name)
    ensures HasCells(t, name) ==> DeviceTree.Patchable(DeviceTreeRoundTrip.Flatten(t), CHOSEN, name)
  {
    hide DeviceTreeRoundTrip.Flatten, DeviceTreeRoundTrip.Seek, DeviceTreeRoundTrip.NamesOk, DeviceTree.Patchable, DeviceTree.Lookup;
    ChosenPath();
    DeviceTreeRoundTrip.FoundAgain(t, [CHOSEN[1..]], name);
    if HasCells(t, name) {
      DeviceTreeRoundTrip.FoundIsPatchable(t, [CHOSEN[1..]], name);
    }
  }

  lemma {:induction false} ChosenPath()
    ensures DeviceTreeRoundTrip.Plain([CHOSEN[1..]]) && DeviceTreeRoundTrip.PathOf([CHOSEN[1..]]) == CHOSEN
  {
    var names := [CHOSEN[1..]];
    assert names[1..] == [] && DeviceTreeRoundTrip.PathOf([]) == [];
  }

  lemma {:induction false} TreeRecordable(t: DeviceTreeRoundTrip.Tree, start: nat)
    requires DeviceTreeRoundTrip.NamesOk(t) && |DeviceTreeRoundTrip.Flatten(t)| < 0x1_0000_0000
    ensures Recordable(DeviceTreeRoundTrip.Flatten(t), start) <==> HasCells(t, INITRD_START) && HasCells(t, INITRD_END)
  {
    hide DeviceTreeRoundTrip.Flatten, DeviceTreeRoundTrip.Seek, DeviceTreeRoundTrip.NamesOk, DeviceTree.Patchable, DeviceTree.Lookup, DeviceTree.Set, HasCells;
    var dtb := DeviceTreeRoundTrip.Flatten(t);
    CellsFound(t, INITRD_START);
    CellsFound(t, INITRD_END);
    if HasCells(t, INITRD_START) {
      DeviceTree.PatchKeepsLookups(dtb, CHOSEN, INITRD_START, start, CHOSEN, INITRD_END);
    }
  }

  // ---- the whole load ----

  /** Where the guest starts: program counter, supervisor mode, `a0` and `a1`. */
  datatype Start = Start(pc: nat, supervisor: bool, a0: nat, a1: nat)

  datatype BootError = Kernel(error: KernelError) | NoRoom | NotRecorded(why: DeviceTree.SetError) | DtbFault(fault: Fault) | InitrdFault(fault: Fault)

  datatype Booted = Booted(start: Start, layout: Layout, kernelEnd: nat)

  /** The device tree as it is written. */
  function DtbWritten(dtb: seq<byte>, layout: Layout): (r: seq<byte>)
    requires layout.initrd.Some? ==> Recordable(dtb, layout.initrd.value.0)
    ensures |r| == |dtb|
  {
    match layout.initrd
    case None => dtb
    case Some(at) => Recorded(dtb, at.0, at.1)
  }

  /** What a successful load has placed, over the memory that holds the kernel. */
  ghost predicate Placed(kernelRam: Ram, ram: Ram, dtb: seq<byte>, initrd: Option<seq<byte>>, b: Booted) {
    && b.start == Start(KERNEL_LOAD_ADDR, true, 0, b.layout.dtb)
    && BootLayout(b.kernelEnd, |dtb|, if initrd.Some? then Some(|initrd.value|) else None) == Some(b.layout)
    && (b.layout.initrd.Some? ==> Recordable(dtb, b.layout.initrd.value.0))
    && var written := DtbWritten(dtb, b.layout);
       Placeable(b.layout.dtb, |dtb|) &&
       match initrd
       case None => ram == Laid(kernelRam, b.layout.dtb, written)
       case Some(bytes) =>
         && Placeable(b.layout.initrd.value.0, |bytes|)
         && ram == Laid(Laid(kernelRam, b.layout.dtb, written), b.layout.initrd.value.0, bytes)
  }

  /** The device tree and the initrd can go behind a kernel that ends here. */
  predicate Fits(kernelEnd: nat, dtb: seq<byte>, initrd: Option<seq<byte>>) {
    var layout := BootLayout(kernelEnd, |dtb|, if initrd.Some? then Some(|initrd.value|) else None);
    && layout.Some?
    && (initrd.Some? ==> Recordable(dtb, layout.value.initrd.value.0))
    && Placeable(layout.value.dtb, |dtb|)
    && (initrd.Some? ==> Placeable(layout.value.initrd.value.0, |initrd.value|))
  }

  method LoadBootImages(bus: Bus, kernel: seq<byte>, dtb: seq<byte>, initrd: Option<seq<byte>>) returns (r: Result<Booted, BootError>, ghost kernelRam: Ram)
    modifies bus
    ensures r.Ok? ==> Placed(kernelRam, bus.ram, dtb, initrd, r.value)
    ensures r.Ok? ==> KernelEnds(old(bus.ram), kernel, r.value.kernelEnd) && kernelRam == KernelRam(old(bus.ram), kernel)
    ensures r.Ok? <==> exists end: nat :: KernelEnds(old(bus.ram), kernel, end) && Fits(end, dtb, initrd)
  {
    var loaded := LoadKernel(bus, kernel);
    kernelRam := bus.ram;
    if loaded.Error? {
      return Error(Kernel(loaded.error)), kernelRam;
    }
    r := PlaceImages(bus, loaded.value, dtb, initrd);
    OnlyThisEnd(old(bus.ram), kernel, loaded.value, dtb, initrd);
  }

  lemma {:induction false} OnlyThisEnd(ram: Ram, kernel: seq<byte>, end: nat, dtb: seq<byte>, initrd: Option<seq<byte>>)
    requires KernelEnds(ram, kernel, end)
    ensures Fits(end, dtb, initrd) <==> exists e: nat :: KernelEnds(ram, kernel, e) && Fits(e, dtb, initrd)
  {
    if e: nat :| KernelEnds(ram, kernel, e) && Fits(e, dtb, initrd) {
      OneKernelEnd(ram, kernel, end, e);
    }
  }

  /** Everything behind the kernel. */
  method PlaceImages(bus: Bus, kernelEnd: nat, dtb: seq<byte>, initrd: Option<seq<byte>>) returns (r: Result<Booted, BootError>)
    modifies bus
    ensures r.Ok? <==> Fits(kernelEnd, dtb, initrd)
    ensures r.Ok? ==> Placed(old(bus.ram), bus.ram, dtb, initrd, r.value) && r.value.kernelEnd == kernelEnd
    ensures r.Error? ==> !r.error.Kernel?
  {
    var placed := BootLayout(kernelEnd, |dtb|, if initrd.Some? then Some(|initrd.value|) else None);
    if placed.None? {
      return Error(NoRoom);
    }
    var layout := placed.value;
    var blob := new byte[|dtb|](i requires 0 <= i < |dtb| => dtb[i]);
    assert blob[..] == dtb;
    if layout.initrd.Some? {
      var recorded := Record(blob, layout.initrd.value.0, layout.initrd.value.1);
      if recorded.Error? {
        return Error(NotRecorded(recorded.error));
      }
    }
    assert blob[..] == DtbWritten(dtb, layout);
    var written := bus.WriteBlob(layout.dtb, blob[..]);
    if written.Error? {
      return Error(DtbFault(written.error));
    }
    if initrd.Some? {
      written := bus.WriteBlob(layout.initrd.value.0, initrd.value);
      if written.Error? {
        return Error(InitrdFault(written.error));
      }
    }
    return Ok(Booted(Start(KERNEL_LOAD_ADDR, true, 0, layout.dtb), layout, kernelEnd));
  }

  method Record(blob: array<byte>, start: nat, end: nat) returns (r: Result<(), DeviceTree.SetError>)
    modifies blob
    ensures r.Ok? <==> Recordable(old(blob[..]), start)
    ensures r.Ok? ==> blob[..] == Recorded(old(blob[..]), start, end)
  {
    r := DeviceTree.SetU64(blob, CHOSEN, INITRD_START, start);
    if r.Ok? {
      r := DeviceTree.SetU64(blob, CHOSEN, INITRD_END, end);
    }
  }
}
