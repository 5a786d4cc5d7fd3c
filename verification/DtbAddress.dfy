/** The badge's recovery of an address the host computed and never sent. */
module DtbAddress {
  import opened Bytes
  import opened Wrappers
  import opened Memory
  import opened BootImages
  import DeviceTree
  import ElfReader

  const MAGIC2_LE: nat := 0x0543_5352
  const FDT_MAGIC_LE: nat := 0xedfe_0dd0

  datatype ProbeError = Read(addr: nat) | NoImageHeader | TextOffset(want: nat) | BadImageSize(size: nat) | NoFdt(at: nat, magic: nat)

  function Word(ram: Ram, addr: nat, n: nat): nat
    requires InRam(addr, n)
  {
    FromLE(Peek(ram, addr, n))
  }

  /** What the badge works out from memory. */
  function Derived(ram: Ram): Result<nat, ProbeError> {
    if Word(ram, KERNEL_LOAD_ADDR + 56, 4) != MAGIC2_LE then Error(NoImageHeader)
    else
      var offset, size := Word(ram, KERNEL_LOAD_ADDR + 8, 8), Word(ram, KERNEL_LOAD_ADDR + 16, 8);
      if offset != TEXT_OFFSET then Error(TextOffset(offset))
      else if size < PAGE_SIZE || KERNEL_LOAD_ADDR + size >= U64 then Error(BadImageSize(size))
      else
        var dtb := ElfReader.Wrap(AlignWord(KERNEL_LOAD_ADDR + size));
        if !InRam(dtb, 4) then Error(Read(dtb))
        else if Word(ram, dtb, 4) != FDT_MAGIC_LE then Error(NoFdt(dtb, Word(ram, dtb, 4)))
        else Ok(dtb)
  }

  method ReadField(bus: Bus, addr: nat, n: nat) returns (r: Result<nat, ProbeError>)
    requires Width(n) && !InDevice(addr, n)
    ensures r == if InRam(addr, n) then Ok(Word(bus.ram, addr, n)) else Error(Read(addr))
  {
    var loaded := bus.Load(addr, n);
    return match loaded case Ok(v) => Ok(v) case Error(_) => Error(Read(addr));
  }

  method FindDtb(bus: Bus) returns (r: Result<nat, ProbeError>)
    ensures r == Derived(bus.ram)
  {
    r := ReadField(bus, KERNEL_LOAD_ADDR + 56, 4);
    if r.Error? {
      return;
    }
    if r.value != MAGIC2_LE {
      return Error(NoImageHeader);
    }
    r := ReadField(bus, KERNEL_LOAD_ADDR + 8, 8);
    if r.Error? {
      return;
    }
    if r.value != TEXT_OFFSET {
      return Error(TextOffset(r.value));
    }
    r := ReadField(bus, KERNEL_LOAD_ADDR + 16, 8);
    if r.Error? {
      return;
    }
    if r.value < PAGE_SIZE || KERNEL_LOAD_ADDR + r.value >= U64 {
      return Error(BadImageSize(r.value));
    }
    var dtb := ElfReader.Wrap(AlignWord(KERNEL_LOAD_ADDR + r.value));
    r := ReadField(bus, dtb, 4);
    if r.Error? {
      return;
    }
    if r.value != FDT_MAGIC_LE {
      return Error(NoFdt(dtb, r.value));
    }
    return Ok(dtb);
  }

  /** The state the badge starts its own machine in. */
  method StartCpu(bus: Bus) returns (r: Result<Start, ProbeError>)
    ensures r == match Derived(bus.ram) case Ok(dtb) => Ok(Start(KERNEL_LOAD_ADDR, true, 0, dtb)) case Error(e) => Error(e)
  {
    var dtb := FindDtb(bus);
    if dtb.Error? {
      return Error(dtb.error);
    }
    return Ok(Start(KERNEL_LOAD_ADDR, true, 0, dtb.value));
  }

  // ---- byte orders ----

  lemma {:induction false} FourBytes(b: seq<byte>)
    requires |b| == 4
    ensures FromLE(b) == b[0] as nat + 0x100 * b[1] as nat + 0x1_0000 * b[2] as nat + 0x100_0000 * b[3] as nat
    ensures FromBE(b) == b[3] as nat + 0x100 * b[2] as nat + 0x1_0000 * b[1] as nat + 0x100_0000 * b[0] as nat
  {
    assert b[1..][1..] == b[2..] && b[2..][1..] == b[3..] && b[3..][1..] == [];
    assert FromLE(b[3..]) == b[3] as nat && FromLE(b[2..]) == b[2] as nat + 0x100 * b[3] as nat;
    assert b[..3][..2] == b[..2] && b[..2][..1] == b[..1] && b[..1][..0] == [];
    assert FromBE(b[..1]) == b[0] as nat && FromBE(b[..2]) == b[0] as nat * 0x100 + b[1] as nat;
  }

  lemma {:induction false} MagicBothWays(b: seq<byte>)
    requires |b| == 4
    ensures FromLE(b) == FDT_MAGIC_LE <==> FromBE(b) == DeviceTree.FDT_MAGIC
  {
    FourBytes(b);
    FdtDigits(b[0] as nat, b[1] as nat, b[2] as nat, b[3] as nat);
  }

  /** Both readings of the word say the same four bytes. */
  lemma {:induction false} FdtDigits(a: nat, b: nat, c: nat, d: nat)
    requires a < 256 && b < 256 && c < 256 && d < 256
    ensures a + 0x100 * b + 0x1_0000 * c + 0x100_0000 * d == FDT_MAGIC_LE <==> a == 0xd0 && b == 0x0d && c == 0xfe && d == 0xed
    ensures d + 0x100 * c + 0x1_0000 * b + 0x100_0000 * a == DeviceTree.FDT_MAGIC <==> a == 0xd0 && b == 0x0d && c == 0xfe && d == 0xed
  {
  }

  lemma {:induction false} Magic2(b: seq<byte>)
    requires |b| == 4
    ensures FromLE(b) == MAGIC2_LE <==> b == IMAGE_MAGIC2
  {
    FourBytes(b);
    if FromLE(b) == MAGIC2_LE {
      assert b[0] == 0x52 && b[1] == 0x53 && b[2] == 0x43 && b[3] == 0x05;
    }
  }

  // ---- what a successful load leaves ----

  /**
   The device tree sits on the first word past the kernel, and the initrd on the first page
   boundary past the device tree, so that they share no page.
   */
  lemma {:induction false} LayoutStacks(kernelEnd: nat, dtbLen: nat, initrdLen: Option<nat>, layout: Layout)
    requires KERNEL_LOAD_ADDR <= kernelEnd < U64 && dtbLen > 0 && BootLayout(kernelEnd, dtbLen, initrdLen) == Some(layout)
    requires Placeable(layout.dtb, dtbLen)
    ensures layout.dtb == AlignWord(kernelEnd) && InRam(layout.dtb, dtbLen)
    ensures initrdLen.Some? && initrdLen.value > 0 && Placeable(layout.initrd.value.0, initrdLen.value) ==>
              layout.dtb + dtbLen <= layout.initrd.value.0 && InRam(layout.initrd.value.0, initrdLen.value)
              && layout.initrd.value.1 == layout.initrd.value.0 + initrdLen.value
    ensures initrdLen.Some? ==>
              var dtbEnd, start := layout.dtb + dtbLen, layout.initrd.value.0;
              start % PAGE_SIZE == 0 && dtbEnd <= start < dtbEnd + PAGE_SIZE
  {
    assert AlignWord(kernelEnd) <= U64;
    assert layout.dtb == AlignWord(kernelEnd);
    var dtbEnd := layout.dtb + dtbLen;
    assert dtbEnd <= RAM_END && ElfReader.Wrap(dtbEnd) == dtbEnd;
  }

  /** There is a word boundary past the kernel, and a page boundary past the tree, from which each fits below the top of RAM. */
  predicate RoomAt(kernelEnd: nat, dtbLen: nat, initrdLen: Option<nat>, dtb: nat, start: nat) {
    && kernelEnd <= dtb && dtb % 8 == 0
    && match initrdLen
       case None => dtb + dtbLen <= RAM_END
       case Some(len) => dtb + dtbLen <= start && start % PAGE_SIZE == 0 && start + len <= RAM_END
  }

  lemma {:induction false} LeastWord(n: nat, m: nat)
    requires n <= m && m % 8 == 0
    ensures AlignWord(n) <= m
  {
  }

  lemma {:induction false} LeastPage(n: nat, m: nat)
    requires n <= m && m % PAGE_SIZE == 0
    ensures AlignPage(n) <= m
  {
  }

  /** When no sum overflows, a layout is refused only for want of room. */
  lemma {:induction false} LayoutWhenRoom(kernelEnd: nat, dtbLen: nat, initrdLen: Option<nat>)
    requires kernelEnd + 8 + dtbLen + PAGE_SIZE + (if initrdLen.Some? then initrdLen.value else 0) < U64
    ensures BootLayout(kernelEnd, dtbLen, initrdLen).Some? <==> exists dtb: nat, start: nat :: RoomAt(kernelEnd, dtbLen, initrdLen, dtb, start)
  {
    var dtb := AlignWord(kernelEnd);
    var start := AlignPage(dtb + dtbLen);
    if BootLayout(kernelEnd, dtbLen, initrdLen).Some? {
      assert RoomAt(kernelEnd, dtbLen, initrdLen, dtb, start);
    }
    if d: nat, s: nat :| RoomAt(kernelEnd, dtbLen, initrdLen, d, s) {
      LeastWord(kernelEnd, d);
      if initrdLen.Some? {
        LeastPage(dtb + dtbLen, s);
      }
    }
  }

  /** Three runs of bytes laid one above the other are all there: first the lowest, then the middle one. */
  lemma {:induction false} LowLayer(ram: Ram, low: nat, a: seq<byte>, mid: nat, b: seq<byte>, high: nat, c: seq<byte>, at: nat, n: nat)
    requires InRam(low, |a|) && InRam(mid, |b|) && low + |a| <= mid && (c == [] || (InRam(high, |c|) && mid + |b| <= high)) && at + n <= |a|
    ensures Peek(Laid(Poke(Poke(ram, low, a), mid, b), high, c), low + at, n) == a[at..at + n]
  {
    var one := Poke(ram, low, a);
    PeekInside(ram, low, a, low + at, n);
    PeekOutside(one, mid, b, low + at, n);
    UnderHigh(Poke(one, mid, b), high, c, low + at, n);
  }

  lemma {:induction false} MidLayer(ram: Ram, mid: nat, b: seq<byte>, high: nat, c: seq<byte>, at: nat, n: nat)
    requires InRam(mid, |b|) && (c == [] || (InRam(high, |c|) && mid + |b| <= high)) && at + n <= |b|
    ensures Peek(Laid(Poke(ram, mid, b), high, c), mid + at, n) == b[at..at + n]
  {
    PeekInside(ram, mid, b, mid + at, n);
    UnderHigh(Poke(ram, mid, b), high, c, mid + at, n);
  }

  lemma {:induction false} UnderHigh(ram: Ram, high: nat, c: seq<byte>, at: nat, n: nat)
    requires InRam(at, n) && (c == [] || (InRam(high, |c|) && at + n <= high))
    ensures Peek(Laid(ram, high, c), at, n) == Peek(ram, at, n)
  {
    if c == [] {
      NothingLaid(ram, high);
    } else {
      PeekOutside(ram, high, c, at, n);
    }
  }

  lemma {:induction false} NothingLaid(ram: Ram, addr: nat)
    ensures Laid(ram, addr, []) == ram
  {
  }

  function BytesOf(initrd: Option<seq<byte>>): seq<byte> {
    if initrd.Some? then initrd.value else []
  }

  function InitrdAt(layout: Layout): nat {
    if layout.initrd.Some? then layout.initrd.value.0 else 0
  }

  /** After a successful load all three images are in memory at the addresses of the layout, none over another. */
  lemma {:induction false} LoadedImages(kernel: seq<byte>, ram0: Ram, kernelRam: Ram, ram: Ram, dtb: seq<byte>, initrd: Option<seq<byte>>, b: Booted)
    requires !IsElf(kernel) && RawKernel(kernel) == Ok(b.kernelEnd) && dtb != []
    requires kernelRam == Laid(ram0, KERNEL_LOAD_ADDR, kernel) && Placed(kernelRam, ram, dtb, initrd, b)
    ensures b.layout.dtb == AlignWord(b.kernelEnd)
    ensures InRam(KERNEL_LOAD_ADDR, |kernel|) && InRam(b.layout.dtb, |dtb|) && KERNEL_LOAD_ADDR + |kernel| <= b.layout.dtb
    ensures BytesOf(initrd) == [] || (InRam(InitrdAt(b.layout), |BytesOf(initrd)|) && b.layout.dtb + |dtb| <= InitrdAt(b.layout))
    ensures ram == Laid(Poke(Poke(ram0, KERNEL_LOAD_ADDR, kernel), b.layout.dtb, DtbWritten(dtb, b.layout)), InitrdAt(b.layout), BytesOf(initrd))
  {
    LayoutStacks(b.kernelEnd, |dtb|, if initrd.Some? then Some(|initrd.value|) else None, b.layout);
    NothingLaid(Poke(kernelRam, b.layout.dtb, DtbWritten(dtb, b.layout)), InitrdAt(b.layout));
  }

  /** When the badge, looking only at memory, finds the host's address: exactly this. */
  predicate Recoverable(kernel: seq<byte>, dtb: seq<byte>)
    requires HasImageHeader(kernel)
  {
    && ImageSize(kernel) >= PAGE_SIZE
    && AlignWord(ImageSize(kernel)) == AlignWord(Span(kernel))
    && DeviceTree.BE32(dtb, 0) == Some(DeviceTree.FDT_MAGIC)
  }

  lemma {:induction false} BadgeFindsDtb(kernel: seq<byte>, ram0: Ram, kernelRam: Ram, ram: Ram, dtb: seq<byte>, initrd: Option<seq<byte>>, b: Booted)
    requires !IsElf(kernel) && HasImageHeader(kernel) && |dtb| >= 4
    requires RawKernel(kernel) == Ok(b.kernelEnd) && kernelRam == Laid(ram0, KERNEL_LOAD_ADDR, kernel)
    requires Placed(kernelRam, ram, dtb, initrd, b)
    ensures Derived(ram) == Ok(b.layout.dtb) <==> Recoverable(kernel, dtb)
  {
    LoadedImages(kernel, ram0, kernelRam, ram, dtb, initrd, b);
    var written := DtbWritten(dtb, b.layout);
    ImagesStand(ram0, ram, kernel, b.layout.dtb, written, InitrdAt(b.layout), BytesOf(initrd));
    MagicStands(dtb, b.layout);
    FromMemory(ram, kernel, written, b.layout.dtb);
  }

  lemma {:induction false} ImagesStand(ram0: Ram, ram: Ram, kernel: seq<byte>, mid: nat, b: seq<byte>, high: nat, c: seq<byte>)
    requires InRam(KERNEL_LOAD_ADDR, |kernel|) && InRam(mid, |b|) && KERNEL_LOAD_ADDR + |kernel| <= mid && (c == [] || (InRam(high, |c|) && mid + |b| <= high))
    requires ram == Laid(Poke(Poke(ram0, KERNEL_LOAD_ADDR, kernel), mid, b), high, c) && |kernel| >= HEADER_LEN && |b| >= 4
    ensures Peek(ram, KERNEL_LOAD_ADDR + 56, 4) == kernel[56..60] && Peek(ram, KERNEL_LOAD_ADDR + 8, 8) == kernel[8..16]
    ensures Peek(ram, KERNEL_LOAD_ADDR + 16, 8) == kernel[16..24] && Peek(ram, mid, 4) == b[0..4]
  {
    LowLayer(ram0, KERNEL_LOAD_ADDR, kernel, mid, b, high, c, 56, 4);
    LowLayer(ram0, KERNEL_LOAD_ADDR, kernel, mid, b, high, c, 8, 8);
    LowLayer(ram0, KERNEL_LOAD_ADDR, kernel, mid, b, high, c, 16, 8);
    MidLayer(Poke(ram0, KERNEL_LOAD_ADDR, kernel), mid, b, high, c, 0, 4);
  }

  lemma {:induction false} FromMemory(ram: Ram, kernel: seq<byte>, written: seq<byte>, at: nat)
    requires HasImageHeader(kernel) && !IsElf(kernel) && RawKernel(kernel).Ok? && |written| >= 4
    requires Peek(ram, KERNEL_LOAD_ADDR + 56, 4) == kernel[56..60] && Peek(ram, KERNEL_LOAD_ADDR + 8, 8) == kernel[8..16]
    requires Peek(ram, KERNEL_LOAD_ADDR + 16, 8) == kernel[16..24]
    requires at == AlignWord(RawKernel(kernel).value) && InRam(at, 4) && Peek(ram, at, 4) == written[0..4]
    ensures Derived(ram) == Ok(at) <==> Recoverable(kernel, written)
  {
    Magic2(kernel[56..60]);
    MagicBothWays(written[0..4]);
    Aligned(ImageSize(kernel), Span(kernel));
  }

  lemma {:induction false} MagicStands(dtb: seq<byte>, layout: Layout)
    requires |dtb| >= 4 && (layout.initrd.Some? ==> Recordable(dtb, layout.initrd.value.0))
    ensures DtbWritten(dtb, layout)[0..4] == dtb[0..4]
  {
  }

  lemma {:induction false} Aligned(a: nat, b: nat)
    ensures AlignWord(KERNEL_LOAD_ADDR + a) == KERNEL_LOAD_ADDR + AlignWord(a)
    ensures AlignWord(KERNEL_LOAD_ADDR + b) == KERNEL_LOAD_ADDR + AlignWord(b)
  {
  }

  /** In particular: a page or more, a footprint no smaller than the file, and the tree's own magic. With an initrd the magic needs no asking. */
  lemma {:induction false} ProperImagesRecover(kernel: seq<byte>, dtb: seq<byte>, initrd: Option<seq<byte>>, layout: Layout)
    requires HasImageHeader(kernel) && ImageSize(kernel) >= PAGE_SIZE && ImageSize(kernel) >= |kernel|
    requires layout.initrd.Some? == initrd.Some? && (layout.initrd.Some? ==> Recordable(dtb, layout.initrd.value.0))
    ensures Recoverable(kernel, dtb) <==> DeviceTree.BE32(dtb, 0) == Some(DeviceTree.FDT_MAGIC)
    ensures initrd.Some? ==> Recoverable(kernel, dtb)
  {
    if layout.initrd.Some? {
      assert DeviceTree.Lookup(dtb, CHOSEN, INITRD_START).Some?;
    }
  }

  lemma {:induction false} RawFits(ram: Ram, kernel: seq<byte>, dtb: seq<byte>, initrd: Option<seq<byte>>)
    requires !IsElf(kernel)
    ensures (exists end: nat :: KernelEnds(ram, kernel, end) && Fits(end, dtb, initrd)) <==> RawKernel(kernel).Ok? && Fits(RawKernel(kernel).value, dtb, initrd)
  {
    if RawKernel(kernel).Ok? {
      OnlyThisEnd(ram, kernel, RawKernel(kernel).value, dtb, initrd);
    }
  }

  /** Both ends, one after the other: the badge starts its machine exactly as the host would have. */
  method ServeAndStart(bus: Bus, kernel: seq<byte>, dtb: seq<byte>, initrd: Option<seq<byte>>) returns (host: Result<Booted, BootError>, badge: Result<Start, ProbeError>)
    requires !IsElf(kernel) && HasImageHeader(kernel) && |dtb| >= 4
    modifies bus
    ensures host.Ok? <==> RawKernel(kernel).Ok? && Fits(RawKernel(kernel).value, dtb, initrd)
    ensures host.Ok? ==> (badge == Ok(host.value.start) <==> Recoverable(kernel, dtb))
  {
    ghost var ram0 := bus.ram;
    ghost var kernelRam;
    host, kernelRam := LoadBootImages(bus, kernel, dtb, initrd);
    RawFits(ram0, kernel, dtb, initrd);
    badge := StartCpu(bus);
    if host.Ok? {
      BadgeFindsDtb(kernel, ram0, kernelRam, bus.ram, dtb, initrd, host.value);
    }
  }
}
