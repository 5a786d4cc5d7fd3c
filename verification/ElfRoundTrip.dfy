/** What the host's reader makes of the objects the writer builds. */
module ElfRoundTrip {
  import opened Bytes
  import opened Wrappers
  import opened Memory
  import opened ElfReader
  import opened ElfWriter

  lemma {:induction false} FieldRead(f: seq<byte>, off: nat, v: nat, n: nat)
    requires Has(f, off, v, n)
    ensures LE(f, off, n) == Some(v)
  {
  }

  lemma {:induction false} FrontField(f: seq<byte>, from: nat, to: nat, off: nat, v: nat, n: nat)
    requires from <= to <= |f| && Has(f[from..to], off, v, n)
    ensures LE(f, from + off, n) == Some(v)
  {
    CarriedField(f, from, f[from..to], off, v, n);
    FieldRead(f, from + off, v, n);
  }

  /** The header the reader sees. */
  function TheHeader(n: nat): Header {
    Header(BASE + ENTRY_OFF, EHDR, PHDR, 1, SectionsAt(n), SHDR, 5)
  }

  lemma {:induction false} HeaderRead(f: seq<byte>, n: nat)
    requires |f| >= EHDR && IsEhdr(f[..EHDR], SectionsAt(n)) && n <= MEMSZ
    ensures ParseHeader(f) == Ok(TheHeader(n))
  {
    Pow256Values();
    var e := f[..EHDR];
    assert f[..4] == e[..4] && f[4] == e[4] && f[5] == e[5] && e == f[0..EHDR];
    FrontField(f, 0, EHDR, 18, 243, 2);
    FrontField(f, 0, EHDR, 24, BASE + ENTRY_OFF, 8);
    FrontField(f, 0, EHDR, 32, EHDR, 8);
    FrontField(f, 0, EHDR, 40, SectionsAt(n), 8);
    FrontField(f, 0, EHDR, 54, PHDR, 2);
    FrontField(f, 0, EHDR, 56, 1, 2);
    FrontField(f, 0, EHDR, 58, SHDR, 2);
    FrontField(f, 0, EHDR, 60, 5, 2);
  }

  lemma {:induction false} PhdrRead(f: seq<byte>, n: nat)
    requires n < U64 && |f| >= EHDR + PHDR && IsPhdr(f[EHDR..EHDR + PHDR], n)
    ensures LE(f, EHDR, 4) == Some(PT_LOAD) && LE(f, EHDR + 8, 8) == Some(SEG_OFF) && LE(f, EHDR + 24, 8) == Some(BASE)
    ensures LE(f, EHDR + 32, 8) == Some(n) && LE(f, EHDR + 40, 8) == Some(MEMSZ)
  {
    Pow256Values();
    var to := EHDR + PHDR;
    FrontField(f, EHDR, to, 0, 1, 4);
    FrontField(f, EHDR, to, 8, SEG_OFF, 8);
    FrontField(f, EHDR, to, 24, BASE, 8);
    FrontField(f, EHDR, to, 32, n, 8);
    FrontField(f, EHDR, to, 40, MEMSZ, 8);
  }

  /** Any program header of the table, wherever its entry is, gives its own segment. */
  lemma {:induction false} SegmentRead(f: seq<byte>, h: Header, i: nat, base: nat, offset: nat, paddr: nat, data: seq<byte>, memsz: nat)
    requires h.phoff + i * h.phentsize == base < U64 && Carries(f, offset, data)
    requires LE(f, base, 4) == Some(PT_LOAD) && LE(f, base + 8, 8) == Some(offset) && LE(f, base + 24, 8) == Some(paddr)
    requires LE(f, base + 32, 8) == Some(|data|) && LE(f, base + 40, 8) == Some(memsz)
    ensures SegmentAt(f, h, i) == Segment.Load(paddr, data, memsz)
    ensures Reach(f, h, i) == Some(if paddr + memsz < U64 then paddr + memsz else U64 - 1)
  {
  }

  lemma {:induction false} TheSegment(f: seq<byte>, image: seq<byte>)
    requires |image| <= MEMSZ && |f| >= EHDR + PHDR && IsPhdr(f[EHDR..EHDR + PHDR], |image|) && Carries(f, SEG_OFF, image)
    ensures SegmentAt(f, TheHeader(|image|), 0) == Segment.Load(BASE, image, MEMSZ)
  {
    PhdrRead(f, |image|);
    SegmentRead(f, TheHeader(|image|), 0, EHDR, SEG_OFF, BASE, image, MEMSZ);
  }

  /** The extent of a built object is the end of what it maps. */
  lemma {:induction false} ExtentBack(f: seq<byte>, image: seq<byte>, h: Header, m: nat)
    requires |image| <= MEMSZ && IsObject(f, image) && ParseHeader(f) == Ok(h) && IsMaxReach(f, h, h.phnum, m)
    ensures m == BASE + MEMSZ
  {
    hide IsObject, Reach, HasTables, HasSections, IsEhdr, IsPhdr, ParseHeader;
    ItsHeader(f, image);
    ItsReach(f, image);
    assert Reach(f, h, 0).value <= m;
  }

  lemma {:induction false} ItsHeader(f: seq<byte>, image: seq<byte>)
    requires |image| <= MEMSZ && IsObject(f, image)
    ensures ParseHeader(f) == Ok(TheHeader(|image|)) && TheHeader(|image|).phnum == 1
  {
    HeaderRead(f, |image|);
  }

  lemma {:induction false} ItsReach(f: seq<byte>, image: seq<byte>)
    requires |image| <= MEMSZ && IsObject(f, image)
    ensures Reach(f, TheHeader(|image|), 0) == Some(BASE + MEMSZ)
  {
    hide HasTables, HasSections, IsEhdr;
    PhdrRead(f, |image|);
    SegmentRead(f, TheHeader(|image|), 0, EHDR, SEG_OFF, BASE, image, MEMSZ);
  }

  /** Loading puts the image at the base, zeros up to the mapped size, and changes nothing else. */
  lemma {:induction false} LoadsBack(ram: Ram, f: seq<byte>, image: seq<byte>)
    requires |image| <= MEMSZ && IsObject(f, image)
    ensures LoadSpec(ram, f) == Loaded(Poke(ram, BASE, image + Zeros(MEMSZ - |image|)), Ok(BASE + ENTRY_OFF))
  {
    HeaderRead(f, |image|);
    TheSegment(f, image);
    FillsSegment(ram, image);
    OneSegment(ram, f, TheHeader(|image|), BASE, image, MEMSZ);
  }

  lemma {:induction false} FillsSegment(ram: Ram, image: seq<byte>)
    requires |image| <= MEMSZ
    ensures SegmentBytes(image, MEMSZ) == image + Zeros(MEMSZ - |image|) && Placeable(BASE, |SegmentBytes(image, MEMSZ)|)
    ensures Laid(ram, BASE, SegmentBytes(image, MEMSZ)) == Poke(ram, BASE, image + Zeros(MEMSZ - |image|))
  {
  }

  lemma {:induction false} OneSegment(ram: Ram, f: seq<byte>, h: Header, paddr: nat, data: seq<byte>, memsz: nat)
    requires h.phnum == 1 && SegmentAt(f, h, 0) == Segment.Load(paddr, data, memsz) && Placeable(paddr, |SegmentBytes(data, memsz)|)
    ensures LoadFrom(ram, f, h, 0) == Loaded(Laid(ram, paddr, SegmentBytes(data, memsz)), Ok(h.entry))
  {
    var after := Laid(ram, paddr, SegmentBytes(data, memsz));
    assert LoadFrom(after, f, h, 1) == Loaded(after, Ok(h.entry));
  }

  // ---- symbols ----

  lemma {:induction false} SectionRead(f: seq<byte>, h: Header, i: nat, typ: nat, off: nat, size: nat, link: nat, entsize: nat)
    requires h.shentsize == SHDR && h.shoff + i * SHDR + SHDR < U64 && HasSection(f, h.shoff + i * SHDR, typ, off, size, link, entsize)
    requires typ < 0x1_0000_0000 && off < U64 && size < U64 && link < 0x1_0000_0000 && entsize < U64
    ensures var at := Wrap(h.shoff + i * h.shentsize);
            && at == h.shoff + i * SHDR
            && LE(f, Wrap(at + 4), 4) == Some(typ) && LE(f, Wrap(at + 24), 8) == Some(off) && LE(f, Wrap(at + 32), 8) == Some(size)
            && LE(f, Wrap(at + 40), 4) == Some(link) && LE(f, Wrap(at + 56), 8) == Some(entsize)
  {
    Pow256Values();
    var at := h.shoff + i * SHDR;
    FieldRead(f, at + 4, typ, 4);
    FieldRead(f, at + 24, off, 8);
    FieldRead(f, at + 32, size, 8);
    FieldRead(f, at + 40, link, 4);
    FieldRead(f, at + 56, entsize, 8);
  }

  function TheTable(n: nat): Table {
    Table(SymtabAt(n), 3, SYM, STRTAB)
  }

  lemma {:induction false} NoTableRead(f: seq<byte>, h: Header, i: nat, typ: nat, off: nat, size: nat)
    requires h.shentsize == SHDR && h.shoff + i * SHDR + SHDR < U64 && HasSection(f, h.shoff + i * SHDR, typ, off, size, 0, 0)
    requires typ < 0x1_0000_0000 && off < U64 && size < U64 && typ != SHT_SYMTAB
    ensures SectionAt(f, h, i) == NoTable
  {
    SectionRead(f, h, i, typ, off, size, 0, 0);
  }

  lemma {:induction false} StringsRead(f: seq<byte>, n: nat)
    requires n <= MEMSZ && HasTables(f, n) && HasSections(f, n)
    ensures var h := TheHeader(n);
            StringsOf(f, Wrap(h.shoff + 3 * h.shentsize), SymtabAt(n), 3 * SYM, SYM) == Section.Symbols(TheTable(n))
  {
    SectionRead(f, TheHeader(n), 3, 3, StrtabAt(n), |STRTAB|, 0, 0);
    StringsFrom(f, n, Wrap(TheHeader(n).shoff + 3 * TheHeader(n).shentsize));
  }

  lemma {:induction false} StringsFrom(f: seq<byte>, n: nat, at: nat)
    requires HasTables(f, n) && LE(f, Wrap(at + 24), 8) == Some(StrtabAt(n)) && LE(f, Wrap(at + 32), 8) == Some(|STRTAB|)
    ensures StringsOf(f, at, SymtabAt(n), 3 * SYM, SYM) == Section.Symbols(TheTable(n))
  {
    assert 3 * SYM / SYM == 3;
  }

  /** The third is the one the writer made. */
  lemma {:induction false} TableRead(f: seq<byte>, n: nat)
    requires n <= MEMSZ && HasTables(f, n) && HasSections(f, n)
    ensures SectionAt(f, TheHeader(n), 2) == Section.Symbols(TheTable(n))
  {
    SectionRead(f, TheHeader(n), 2, 2, SymtabAt(n), 3 * SYM, 3, SYM);
    StringsRead(f, n);
  }

  lemma {:induction false} NulAt(s: seq<byte>, at: nat, end: nat)
    requires at <= end < |s| && s[end] == 0 && forall k :: at <= k < end ==> s[k] != 0
    ensures NulFrom(s, at) == end
    decreases end - at
  {
    if at < end {
      NulAt(s, at + 1, end);
    }
  }

  lemma {:induction false} Names()
    ensures NameAt(STRTAB, 0) == Some([]) && NameAt(STRTAB, 1) == Some(TOHOST) && NameAt(STRTAB, 8) == Some(FROMHOST)
  {
    NulAt(STRTAB, 0, 0);
    NulAt(STRTAB, 1, 7);
    NulAt(STRTAB, 8, 16);
    assert STRTAB[1..7] == TOHOST && STRTAB[8..16] == FROMHOST;
  }

  lemma {:induction false} SymbolRead(f: seq<byte>, at: nat, st: nat, v: nat, strs: seq<byte>, name: seq<byte>)
    requires HasSymbol(f, at, st, v) && st < 0x1_0000_0000 && v < U64
    ensures SymbolAt(f, at, strs, name) == if NameAt(strs, st) == Some(name) then Answer(v) else NotHere
  {
    Pow256Values();
    FieldRead(f, at, st, 4);
    FieldRead(f, at + 8, v, 8);
  }

  lemma {:induction false} SymbolsRead(f: seq<byte>, n: nat, name: seq<byte>)
    requires n <= MEMSZ && HasTables(f, n)
    requires name == TOHOST || name == FROMHOST
    ensures Among(f, TheTable(n), name, 0) == Answer(if name == TOHOST then BASE + TOHOST_OFF else BASE + FROMHOST_OFF)
  {
    Names();
    Distinct();
    InTurn(f, TheTable(n), name);
    SymbolsInTurn(f, SymtabAt(n), STRTAB, name, BASE + TOHOST_OFF, BASE + FROMHOST_OFF);
  }

  lemma {:induction false} Distinct()
    ensures TOHOST != FROMHOST && TOHOST != [] && FROMHOST != []
  {
    assert TOHOST[0] != FROMHOST[0];
  }

  lemma {:induction false} SymbolsInTurn(f: seq<byte>, at: nat, strs: seq<byte>, name: seq<byte>, v: nat, w: nat)
    requires HasSymbol(f, at, 0, 0) && HasSymbol(f, at + SYM, 1, v) && HasSymbol(f, at + 2 * SYM, 8, w) && v < U64 && w < U64
    ensures SymbolAt(f, at, strs, name) == if NameAt(strs, 0) == Some(name) then Answer(0) else NotHere
    ensures SymbolAt(f, at + SYM, strs, name) == if NameAt(strs, 1) == Some(name) then Answer(v) else NotHere
    ensures SymbolAt(f, at + 2 * SYM, strs, name) == if NameAt(strs, 8) == Some(name) then Answer(w) else NotHere
  {
    SymbolRead(f, at, 0, 0, strs, name);
    SymbolRead(f, at + SYM, 1, v, strs, name);
    SymbolRead(f, at + 2 * SYM, 8, w, strs, name);
  }

  lemma {:induction false} InTurn(f: seq<byte>, t: Table, name: seq<byte>)
    requires t.count == 3 && t.entsize == SYM && t.off + 3 * SYM < U64
    ensures var first, second, third := SymbolAt(f, t.off, t.strs, name), SymbolAt(f, t.off + SYM, t.strs, name), SymbolAt(f, t.off + 2 * SYM, t.strs, name);
            Among(f, t, name, 0) == if first != NotHere then first else if second != NotHere then second else third
  {
    assert Wrap(t.off + 0 * SYM) == t.off && Wrap(t.off + 1 * SYM) == t.off + SYM && Wrap(t.off + 2 * SYM) == t.off + 2 * SYM;
    assert Among(f, t, name, 3) == NotHere;
    assert Among(f, t, name, 2) == SymbolAt(f, t.off + 2 * SYM, t.strs, name);
  }

  lemma {:induction false} SymbolBack(f: seq<byte>, image: seq<byte>, name: seq<byte>)
    requires |image| <= MEMSZ && IsObject(f, image) && (name == TOHOST || name == FROMHOST)
    ensures SymbolSpec(f, name) == Some(if name == TOHOST then BASE + TOHOST_OFF else BASE + FROMHOST_OFF)
  {
    var n := |image|;
    HeaderRead(f, n);
    SymbolsRead(f, n, name);
    InThisTable(f, n, name);
  }

  lemma {:induction false} InThisTable(f: seq<byte>, n: nat, name: seq<byte>)
    requires n <= MEMSZ && HasTables(f, n) && HasSections(f, n) && Among(f, TheTable(n), name, 0).Answer?
    ensures InSections(f, TheHeader(n), name, 0) == Some(Among(f, TheTable(n), name, 0).value)
  {
    NoTablesBefore(f, n);
    TableRead(f, n);
    SkipTwo(f, n, name);
  }

  lemma {:induction false} NoTablesBefore(f: seq<byte>, n: nat)
    requires n <= MEMSZ && HasSections(f, n)
    ensures SectionAt(f, TheHeader(n), 0) == NoTable && SectionAt(f, TheHeader(n), 1) == NoTable
  {
    NoTableRead(f, TheHeader(n), 0, 0, 0, 0);
    NoTableRead(f, TheHeader(n), 1, 1, SEG_OFF, n);
  }

  /** The two symbols are found at the addresses the program was laid out for. */
  lemma {:induction false} SymbolsBack(f: seq<byte>, image: seq<byte>)
    requires |image| <= MEMSZ && IsObject(f, image)
    ensures SymbolSpec(f, TOHOST) == Some(BASE + TOHOST_OFF)
    ensures SymbolSpec(f, FROMHOST) == Some(BASE + FROMHOST_OFF)
  {
    Distinct();
    SymbolBack(f, image, TOHOST);
    SymbolBack(f, image, FROMHOST);
  }

  lemma {:induction false} SkipTwo(f: seq<byte>, n: nat, name: seq<byte>)
    requires SectionAt(f, TheHeader(n), 0) == NoTable && SectionAt(f, TheHeader(n), 1) == NoTable
    requires SectionAt(f, TheHeader(n), 2) == Section.Symbols(TheTable(n)) && Among(f, TheTable(n), name, 0).Answer?
    ensures InSections(f, TheHeader(n), name, 0) == Some(Among(f, TheTable(n), name, 0).value)
  {
    assert InSections(f, TheHeader(n), name, 2) == Some(Among(f, TheTable(n), name, 0).value);
    assert InSections(f, TheHeader(n), name, 1) == InSections(f, TheHeader(n), name, 2);
  }

  /** Building and then loading is the identity on the image, through the two programs themselves. */
  method BuildAndLoad(image: seq<byte>, bus: Bus) returns (r: Result<nat, ElfError>, tohost: Option<nat>, fromhost: Option<nat>)
    requires |image| <= MEMSZ
    modifies bus
    ensures r == Ok(BASE + ENTRY_OFF)
    ensures bus.ram == Poke(old(bus.ram), BASE, image + Zeros(MEMSZ - |image|))
    ensures tohost == Some(BASE + TOHOST_OFF) && fromhost == Some(BASE + FROMHOST_OFF)
  {
    var f := Build(image);
    LoadsBack(bus.ram, f, image);
    SymbolsBack(f, image);
    r := LoadElf(bus, f);
    tohost := FindSymbol(f, TOHOST);
    fromhost := FindSymbol(f, FROMHOST);
  }
}
