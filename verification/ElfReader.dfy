/** The host's ELF64 loader: header, loadable segments, extent and symbol lookup. */
module ElfReader {
  import opened Bytes
  import opened Wrappers
  import opened Memory

  const EHDR_LEN: nat := 64
  const PHDR_LEN: nat := 56
  const SHDR_LEN: nat := 64
  const SYM_LEN: nat := 24
  const EM_RISCV: nat := 243
  const PT_LOAD: nat := 1
  const SHT_SYMTAB: nat := 2
  const MAGIC: seq<byte> := [0x7f, 0x45, 0x4c, 0x46]

  datatype ElfError = NotAnElf64Riscv | Truncated | Unmapped(addr: nat)

  datatype Header = Header(entry: nat, phoff: nat, phentsize: nat, phnum: nat, shoff: nat, shentsize: nat, shnum: nat)

  /** Offsets are 64-bit and wrap. */
  function Wrap(n: nat): (r: nat)
    ensures r < U64
    ensures n < U64 ==> r == n
  {
    n % U64
  }

  function LE(b: seq<byte>, off: nat, n: nat): (v: Option<nat>)
    ensures v.None? <==> off + n > |b|
    ensures v.Some? ==> v.value < Pow256(n)
  {
    if off + n <= |b| then Some(FromLE(b[off..off + n])) else None
  }

  function ParseHeader(b: seq<byte>): (r: Result<Header, ElfError>)
    ensures r.Error? ==> r.error == NotAnElf64Riscv
    ensures r.Ok? ==> |b| >= EHDR_LEN && b[..4] == MAGIC && r.value.phnum < 0x1_0000 && r.value.shnum < 0x1_0000
  {
    Pow256Values();
    if |b| < EHDR_LEN || b[..4] != MAGIC || b[4] != 2 || b[5] != 1 || LE(b, 18, 2) != Some(EM_RISCV) then Error(NotAnElf64Riscv)
    else Ok(Header(LE(b, 24, 8).value, LE(b, 32, 8).value, LE(b, 54, 2).value, LE(b, 56, 2).value,
                   LE(b, 40, 8).value, LE(b, 58, 2).value, LE(b, 60, 2).value))
  }

  // ---- segments ----

  function Zeros(n: nat): (z: seq<byte>)
    ensures |z| == n
  {
    seq(n, _ => 0)
  }

  /** The bytes a segment occupies: its data, then zeros up to its memory size. */
  function SegmentBytes(data: seq<byte>, memsz: nat): (s: seq<byte>)
    ensures |s| == if memsz > |data| then memsz else |data|
  {
    data + Zeros(if memsz > |data| then memsz - |data| else 0)
  }

  method Word(data: seq<byte>, ghost memsz: nat, off: nat, n: nat) returns (w: seq<byte>)
    requires off + n <= |SegmentBytes(data, memsz)|
    ensures w == SegmentBytes(data, memsz)[off..off + n]
  {
    w := [];
    while |w| < n
      invariant |w| <= n && w == SegmentBytes(data, memsz)[off..off + |w|]
    {
      w := w + [if off + |w| < |data| then data[off + |w|] else 0];
    }
  }

  method StoreWord(bus: Bus, ghost ram: Ram, a: nat, ghost addr: nat, data: seq<byte>, ghost memsz: nat, off: nat, n: nat) returns (ok: bool)
    requires a == addr + off && off + n <= |SegmentBytes(data, memsz)| && (n == 1 || (n == 8 && a % 8 == 0)) && Placeable(addr, off)
    requires bus.ram == Laid(ram, addr, SegmentBytes(data, memsz)[..off])
    modifies bus
    ensures ok ==> Placeable(addr, off + n) && bus.ram == Laid(ram, addr, SegmentBytes(data, memsz)[..off + n])
    ensures !ok ==> !Placeable(addr, |SegmentBytes(data, memsz)|) && a == FirstUnmapped(addr) && bus.ram == Laid(ram, addr, SegmentBytes(data, memsz))
  {
    var w := Word(data, memsz, off, n);
    ToFromLE(w);
    StoreFollows(ram, addr, SegmentBytes(data, memsz), off, n);
    var stored := bus.Store(a, n, FromLE(w));
    ok := stored.Ok?;
  }

  /** Stores a segment, a word at a time where it can. */
  method WriteSegment(bus: Bus, addr: nat, data: seq<byte>, memsz: nat) returns (r: Result<(), ElfError>)
    requires addr < U64
    modifies bus
    ensures r.Ok? <==> Placeable(addr, |SegmentBytes(data, memsz)|)
    ensures bus.ram == Laid(old(bus.ram), addr, SegmentBytes(data, memsz))
    ensures r.Error? ==> r.error == Unmapped(FirstUnmapped(addr))
  {
    ghost var all := SegmentBytes(data, memsz);
    var total := if memsz > |data| then memsz else |data|;
    var off := 0;
    while off < total
      invariant off <= total && Placeable(addr, off)
      invariant bus.ram == Laid(old(bus.ram), addr, all[..off])
    {
      var a := Wrap(addr + off);
      var n := if a % 8 == 0 && total - off >= 8 then 8 else 1;
      var stored := StoreWord(bus, old(bus.ram), a, addr, data, memsz, off, n);
      if !stored {
        return Error(Unmapped(a));
      }
      off := off + n;
    }
    assert all[..off] == all;
    return Ok(());
  }

  /** One program header: skipped, malformed, or a segment to store. */
  datatype Segment = Other | Bad | Load(paddr: nat, data: seq<byte>, memsz: nat)

  function SegmentAt(b: seq<byte>, h: Header, i: nat): (s: Segment)
    ensures s.Load? ==> s.paddr < U64
  {
    Pow256Values();
    var base := Wrap(h.phoff + i * h.phentsize);
    var typ := LE(b, base, 4);
    if typ.None? then Bad
    else if typ.value != PT_LOAD then Other
    else
      var offset, paddr, filesz, memsz := LE(b, base + 8, 8), LE(b, base + 24, 8), LE(b, base + 32, 8), LE(b, base + 40, 8);
      if offset.None? || paddr.None? || filesz.None? || memsz.None? || offset.value + filesz.value > |b| then Bad
      else Load(paddr.value, b[offset.value..offset.value + filesz.value], memsz.value)
  }

  datatype Loaded = Loaded(ram: Ram, result: Result<nat, ElfError>)

  /** Storing every loadable segment from the `i`th header on; the first that fails ends it. */
  function LoadFrom(ram: Ram, b: seq<byte>, h: Header, i: nat): Loaded
    decreases h.phnum - i
  {
    if i >= h.phnum then Loaded(ram, Ok(h.entry))
    else
      match SegmentAt(b, h, i)
      case Other => LoadFrom(ram, b, h, i + 1)
      case Bad => Loaded(ram, Error(Truncated))
      case Load(paddr, data, memsz) =>
        var bytes := SegmentBytes(data, memsz);
        if Placeable(paddr, |bytes|) then LoadFrom(Laid(ram, paddr, bytes), b, h, i + 1)
        else Loaded(Laid(ram, paddr, bytes), Error(Unmapped(FirstUnmapped(paddr))))
  }

  function LoadSpec(ram: Ram, b: seq<byte>): Loaded {
    var h := ParseHeader(b);
    if h.Error? then Loaded(ram, Error(h.error))
    else if h.value.phnum != 0 && h.value.phentsize < PHDR_LEN then Loaded(ram, Error(Truncated))
    else LoadFrom(ram, b, h.value, 0)
  }

  /** Stores every loadable segment at its physical address and returns the entry point. */
  method LoadElf(bus: Bus, b: seq<byte>) returns (r: Result<nat, ElfError>)
    modifies bus
    ensures Loaded(bus.ram, r) == LoadSpec(old(bus.ram), b)
  {
    var parsed := ParseHeader(b);
    if parsed.Error? {
      return Error(parsed.error);
    }
    var h := parsed.value;
    if h.phnum != 0 && h.phentsize < PHDR_LEN {
      return Error(Truncated);
    }
    var i := 0;
    while i < h.phnum
      invariant i <= h.phnum
      invariant LoadFrom(bus.ram, b, h, i) == LoadSpec(old(bus.ram), b)
    {
      match SegmentAt(b, h, i) {
        case Other =>
        case Bad => return Error(Truncated);
        case Load(paddr, data, memsz) =>
          var stored := WriteSegment(bus, paddr, data, memsz);
          if stored.Error? {
            return Error(stored.error);
          }
      }
      i := i + 1;
    }
    return Ok(h.entry);
  }

  // ---- extent ----

  /** What one program header adds to the extent; `None` when it is malformed. */
  function Reach(b: seq<byte>, h: Header, i: nat): (r: Option<nat>)
    ensures r.Some? ==> r.value < U64
  {
    var base := Wrap(h.phoff + i * h.phentsize);
    var typ := LE(b, base, 4);
    if typ.None? then None
    else if typ.value != PT_LOAD then Some(0)
    else
      var paddr, memsz := LE(b, base + 24, 8), LE(b, base + 40, 8);
      if paddr.None? || memsz.None? then None
      else Some(if paddr.value + memsz.value < U64 then paddr.value + memsz.value else U64 - 1)
  }

  /** The first `n` program headers are well-formed as far as the extent goes. */
  ghost predicate AllReach(b: seq<byte>, h: Header, n: nat) {
    forall i {:trigger Reach(b, h, i)} :: 0 <= i < n ==> Reach(b, h, i).Some?
  }

  ghost predicate IsMaxReach(b: seq<byte>, h: Header, n: nat, m: nat) {
    && AllReach(b, h, n)
    && (forall i {:trigger Reach(b, h, i)} :: 0 <= i < n ==> Reach(b, h, i).value <= m)
    && (m == 0 || exists i {:trigger Reach(b, h, i)} :: 0 <= i < n && Reach(b, h, i).value == m)
  }

  /** The highest address any loadable segment reaches. */
  method Extent(b: seq<byte>) returns (r: Result<nat, ElfError>)
    ensures var h := ParseHeader(b);
            if h.Error? then r == Error(h.error)
            else if h.value.phnum != 0 && h.value.phentsize < PHDR_LEN then r == Error(Truncated)
            else if r.Error? then r == Error(Truncated) && !AllReach(b, h.value, h.value.phnum)
            else IsMaxReach(b, h.value, h.value.phnum, r.value) && r.value < U64
  {
    var parsed := ParseHeader(b);
    if parsed.Error? {
      return Error(parsed.error);
    }
    var h := parsed.value;
    if h.phnum != 0 && h.phentsize < PHDR_LEN {
      return Error(Truncated);
    }
    var end: nat := 0;
    var i := 0;
    while i < h.phnum
      invariant i <= h.phnum && end < U64 && IsMaxReach(b, h, i, end)
    {
      var reach := Reach(b, h, i);
      if reach.None? {
        assert !AllReach(b, h, h.phnum);
        return Error(Truncated);
      }
      FurtherReach(b, h, i, end);
      end := if reach.value > end then reach.value else end;
      i := i + 1;
    }
    return Ok(end);
  }

  lemma {:induction false} FurtherReach(b: seq<byte>, h: Header, n: nat, m: nat)
    requires IsMaxReach(b, h, n, m) && Reach(b, h, n).Some?
    ensures IsMaxReach(b, h, n + 1, if Reach(b, h, n).value > m then Reach(b, h, n).value else m)
  {
    hide Reach;
    var reach := Reach(b, h, n).value;
    assert AllReach(b, h, n + 1);
    if reach > m {
      assert 0 <= n < n + 1 && Reach(b, h, n).value == reach;
    } else if m > 0 {
      var i :| 0 <= i < n && Reach(b, h, i).value == m;
      assert 0 <= i < n + 1 && Reach(b, h, i).value == m;
    }
  }

  lemma {:induction false} OneMaxReach(b: seq<byte>, h: Header, n: nat, m: nat, k: nat)
    requires IsMaxReach(b, h, n, m) && IsMaxReach(b, h, n, k)
    ensures m <= k
  {
    if m > 0 {
      var i :| 0 <= i < n && Reach(b, h, i).value == m;
      assert Reach(b, h, i).value <= k;
    }
  }

  /** Whatever loads has an extent. */
  lemma {:induction false} LoadedReaches(ram: Ram, b: seq<byte>)
    requires LoadSpec(ram, b).result.Ok?
    ensures var h := ParseHeader(b); h.Ok? && AllReach(b, h.value, h.value.phnum)
  {
    var h := ParseHeader(b).value;
    forall k {:trigger Reach(b, h, k)} | 0 <= k < h.phnum ensures Reach(b, h, k).Some? {
      LoadedFrom(ram, b, h, 0, k);
    }
  }

  lemma {:induction false} LoadedFrom(ram: Ram, b: seq<byte>, h: Header, i: nat, k: nat)
    requires LoadFrom(ram, b, h, i).result.Ok? && i <= k < h.phnum
    ensures Reach(b, h, k).Some?
    decreases k - i
  {
    if i < k {
      match SegmentAt(b, h, i) {
        case Other => LoadedFrom(ram, b, h, i + 1, k);
        case Load(paddr, data, memsz) => LoadedFrom(Laid(ram, paddr, SegmentBytes(data, memsz)), b, h, i + 1, k);
      }
    }
  }

  // ---- symbols ----

  /** What one look comes to: the answer, the end of the search, or nothing here. */
  datatype Look = Answer(value: nat) | GiveUp | NotHere

  function NulFrom(s: seq<byte>, at: nat): (end: nat)
    requires at <= |s|
    ensures at <= end <= |s|
    decreases |s| - at
  {
    if at == |s| || s[at] == 0 then at else NulFrom(s, at + 1)
  }

  /** A string table entry: up to the NUL, or to the end of the table. */
  function NameAt(strs: seq<byte>, at: nat): Option<seq<byte>> {
    if at > |strs| then None else Some(strs[at..NulFrom(strs, at)])
  }

  /** One symbol; one with a name out of range is passed over. */
  function SymbolAt(b: seq<byte>, s: nat, strs: seq<byte>, name: seq<byte>): Look {
    var st := LE(b, s, 4);
    if st.None? || NameAt(strs, st.value) != Some(name) then NotHere
    else if LE(b, s + 8, 8).None? then GiveUp else Answer(LE(b, s + 8, 8).value)
  }

  datatype Table = Table(off: nat, count: nat, entsize: nat, strs: seq<byte>)

  datatype Section = NoTable | BadTable | Symbols(table: Table)

  function SectionAt(b: seq<byte>, h: Header, i: nat): Section {
    var sh := Wrap(h.shoff + i * h.shentsize);
    var typ := LE(b, Wrap(sh + 4), 4);
    if typ.None? then BadTable
    else if typ.value != SHT_SYMTAB then NoTable
    else TableAt(b, h, sh)
  }

  function TableAt(b: seq<byte>, h: Header, sh: nat): Section {
    var off, size, entsize, link := LE(b, Wrap(sh + 24), 8), LE(b, Wrap(sh + 32), 8), LE(b, Wrap(sh + 56), 8), LE(b, Wrap(sh + 40), 4);
    if off.None? || size.None? || entsize.None? then BadTable
    else if entsize.value < SYM_LEN then NoTable
    else if link.None? then BadTable
    else StringsOf(b, Wrap(h.shoff + link.value * h.shentsize), off.value, size.value, entsize.value)
  }

  function StringsOf(b: seq<byte>, strtab: nat, off: nat, size: nat, entsize: nat): Section
    requires entsize > 0
  {
    var strOff, strSize := LE(b, Wrap(strtab + 24), 8), LE(b, Wrap(strtab + 32), 8);
    if strOff.None? || strSize.None? || strOff.value + strSize.value > |b| then BadTable
    else Symbols(Table(off, size / entsize, entsize, b[strOff.value..strOff.value + strSize.value]))
  }

  /** The first symbol of this name among the first `n`, scanning from `k`. */
  function Among(b: seq<byte>, t: Table, name: seq<byte>, k: nat): Look
    decreases t.count - k
  {
    if k >= t.count then NotHere
    else
      var look := SymbolAt(b, Wrap(t.off + k * t.entsize), t.strs, name);
      if look == NotHere then Among(b, t, name, k + 1) else look
  }

  function InSection(b: seq<byte>, s: Section, name: seq<byte>): Look {
    match s
    case NoTable => NotHere
    case BadTable => GiveUp
    case Symbols(t) => Among(b, t, name, 0)
  }

  function InSections(b: seq<byte>, h: Header, name: seq<byte>, i: nat): Option<nat>
    decreases h.shnum - i
  {
    if i >= h.shnum then None
    else
      match InSection(b, SectionAt(b, h, i), name)
      case Answer(v) => Some(v)
      case GiveUp => None
      case NotHere => InSections(b, h, name, i + 1)
  }

  function SymbolSpec(b: seq<byte>, name: seq<byte>): Option<nat> {
    var h := ParseHeader(b);
    if h.Error? || h.value.shentsize < SHDR_LEN then None else InSections(b, h.value, name, 0)
  }

  method SearchTable(b: seq<byte>, t: Table, name: seq<byte>) returns (look: Look)
    ensures look == Among(b, t, name, 0)
  {
    var k := 0;
    while k < t.count
      invariant k <= t.count && Among(b, t, name, k) == Among(b, t, name, 0)
    {
      look := SymbolAt(b, Wrap(t.off + k * t.entsize), t.strs, name);
      if look != NotHere {
        return;
      }
      k := k + 1;
    }
    return NotHere;
  }

  method SearchSection(b: seq<byte>, s: Section, name: seq<byte>) returns (look: Look)
    ensures look == InSection(b, s, name)
  {
    match s {
      case NoTable => look := NotHere;
      case BadTable => look := GiveUp;
      case Symbols(t) => look := SearchTable(b, t, name);
    }
  }

  method FindSymbol(b: seq<byte>, name: seq<byte>) returns (r: Option<nat>)
    ensures r == SymbolSpec(b, name)
  {
    var parsed := ParseHeader(b);
    if parsed.Error? || parsed.value.shentsize < SHDR_LEN {
      return None;
    }
    var h := parsed.value;
    var i := 0;
    while i < h.shnum
      invariant i <= h.shnum && InSections(b, h, name, i) == SymbolSpec(b, name)
    {
      var look := SearchSection(b, SectionAt(b, h, i), name);
      match look {
        case Answer(v) => return Some(v);
        case GiveUp => return None;
        case NotHere => i := i + 1;
      }
    }
    return None;
  }
}
