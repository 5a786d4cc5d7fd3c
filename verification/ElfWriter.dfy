/** The test generator's ELF64 writer, and its round trip through the host's reader. */
module ElfWriter {
  import opened Bytes
  import opened Memory
  import ElfReader

  const BASE: nat := RAM_BASE
  const ENTRY_OFF: nat := 0x40
  const TOHOST_OFF: nat := 0x1000
  const FROMHOST_OFF: nat := 0x1008
  const MEMSZ: nat := 0x3000
  const EHDR: nat := 64
  const PHDR: nat := 56
  const SHDR: nat := 64
  const SYM: nat := 24
  const SEG_OFF: nat := 0x1000

  const TOHOST: seq<byte> := [0x74, 0x6f, 0x68, 0x6f, 0x73, 0x74]
  const FROMHOST: seq<byte> := [0x66, 0x72, 0x6f, 0x6d, 0x68, 0x6f, 0x73, 0x74]
  const STRTAB: seq<byte> := [0] + TOHOST + [0] + FROMHOST + [0]
  const SHSTR: seq<byte> := [0, 0x2e, 0x74, 0x65, 0x78, 0x74, 0,
                             0x2e, 0x73, 0x79, 0x6d, 0x74, 0x61, 0x62, 0,
                             0x2e, 0x73, 0x74, 0x72, 0x74, 0x61, 0x62, 0,
                             0x2e, 0x73, 0x68, 0x73, 0x74, 0x72, 0x74, 0x61, 0x62, 0]

  /** An `n`-byte little-endian field with this value sits at this offset. */
  predicate Has(f: seq<byte>, off: nat, v: nat, n: nat) {
    off + n <= |f| && FromLE(f[off..off + n]) == v
  }

  /** The fields of one buffer are those of another, `off` further on. */
  ghost predicate Carries(f: seq<byte>, off: nat, b: seq<byte>) {
    off + |b| <= |f| && f[off..off + |b|] == b
  }

  lemma {:induction false} CarriedField(f: seq<byte>, off: nat, b: seq<byte>, at: nat, v: nat, n: nat)
    requires Carries(f, off, b) && Has(b, at, v, n)
    ensures Has(f, off + at, v, n)
  {
    forall k | at <= k < at + n ensures f[off + k] == b[k] {
      assert f[off..off + |b|][k] == b[k];
    }
    assert f[off + at..off + at + n] == b[at..at + n];
  }

  /** Overwrites one field in place. */
  function Put(f: seq<byte>, off: nat, v: nat, n: nat): (r: seq<byte>)
    requires off + n <= |f| && v < Pow256(n)
    ensures |r| == |f| && Has(r, off, v, n)
    ensures forall k :: 0 <= k < |f| && !(off <= k < off + n) ==> r[k] == f[k]
  {
    FromToLE(v, n);
    f[..off] + ToLE(v, n) + f[off + n..]
  }

  lemma {:induction false} PutKeeps(f: seq<byte>, off: nat, v: nat, n: nat, at: nat, w: nat, m: nat)
    requires off + n <= |f| && v < Pow256(n) && Has(f, at, w, m) && (at + m <= off || off + n <= at)
    ensures Has(Put(f, off, v, n), at, w, m)
  {
    assert Put(f, off, v, n)[at..at + m] == f[at..at + m];
  }

  /** Appends one field. */
  function Push(f: seq<byte>, v: nat, n: nat): (r: seq<byte>)
    requires v < Pow256(n)
    ensures |r| == |f| + n && f <= r && Has(r, |f|, v, n)
  {
    FromToLE(v, n);
    var r := f + ToLE(v, n);
    assert r[|f|..|f| + n] == ToLE(v, n);
    r
  }

  predicate Fits32(v: nat) { v < Pow256(4) }

  predicate Fits64(v: nat) { v < Pow256(8) }

  /** One section header: ten fields in a row. */
  method Shdr(name: nat, typ: nat, flags: nat, addr: nat, off: nat, size: nat, link: nat, info: nat, align: nat, entsize: nat) returns (b: seq<byte>)
    requires Fits32(name) && Fits32(typ) && Fits64(flags) && Fits64(addr) && Fits64(off) && Fits64(size) && Fits32(link) && Fits32(info)
    requires Fits64(align) && Fits64(entsize)
    ensures |b| == SHDR && HasSection(b, 0, typ, off, size, link, entsize)
  {
    var b1 := Push([], name, 4);
    var b2 := Push(b1, typ, 4);
    var b3 := Push(b2, flags, 8);
    var b4 := Push(b3, addr, 8);
    var b5 := Push(b4, off, 8);
    var b6 := Push(b5, size, 8);
    var b7 := Push(b6, link, 4);
    var b8 := Push(b7, info, 4);
    var b9 := Push(b8, align, 8);
    b := Push(b9, entsize, 8);
    assert b2 <= b && b5 <= b && b6 <= b && b7 <= b;
    assert b[4..8] == b2[4..8] && b[24..32] == b5[24..32] && b[32..40] == b6[32..40] && b[40..44] == b7[40..44];
  }

  /** One symbol, global and in the text section. */
  method Symbol(name: nat, value: nat) returns (b: seq<byte>)
    requires Fits32(name) && Fits64(value)
    ensures |b| == SYM && Has(b, 0, name, 4) && Has(b, 8, value, 8)
  {
    Pow256Values();
    var b1 := Push([], name, 4);
    var b2 := b1 + [0x11];
    var b3 := b2 + [0];
    var b4 := Push(b3, 1, 2);
    var b5 := Push(b4, value, 8);
    b := Push(b5, 8, 8);
    assert b1 <= b && b5 <= b;
    assert b[0..4] == b1[0..4] && b[8..16] == b5[8..16];
  }

  ghost predicate IsEhdr(e: seq<byte>, shoff: nat) {
    && |e| == EHDR && e[..4] == ElfReader.MAGIC && e[4] == 2 && e[5] == 1
    && Has(e, 18, 243, 2) && Has(e, 24, BASE + ENTRY_OFF, 8) && Has(e, 32, EHDR, 8) && Has(e, 40, shoff, 8)
    && Has(e, 54, PHDR, 2) && Has(e, 56, 1, 2) && Has(e, 58, SHDR, 2) && Has(e, 60, 5, 2)
  }

  ghost predicate IsPhdr(p: seq<byte>, filesz: nat) {
    && |p| == PHDR && Has(p, 0, 1, 4) && Has(p, 8, SEG_OFF, 8) && Has(p, 24, BASE, 8)
    && Has(p, 32, filesz, 8) && Has(p, 40, MEMSZ, 8)
  }

  datatype Entry = Entry(off: nat, v: nat, n: nat)

  predicate HasAll(f: seq<byte>, es: seq<Entry>) {
    forall i :: 0 <= i < |es| ==> Has(f, es[i].off, es[i].v, es[i].n)
  }

  /** Overwrites fields one after another; each ends up as written when none overlaps a later one. */
  method Fill(f: seq<byte>, es: seq<Entry>) returns (r: seq<byte>)
    requires forall i :: 0 <= i < |es| ==> es[i].off + es[i].n <= |f| && es[i].v < Pow256(es[i].n)
    requires forall i, j :: 0 <= i < j < |es| ==> es[i].off + es[i].n <= es[j].off
    ensures |r| == |f| && HasAll(r, es)
    ensures forall k :: 0 <= k < |f| && (es == [] || k < es[0].off) ==> r[k] == f[k]
  {
    r := f;
    for i := 0 to |es|
      invariant |r| == |f| && HasAll(r, es[..i])
      invariant forall k :: 0 <= k < |f| && (es == [] || k < es[0].off) ==> r[k] == f[k]
    {
      var before := r;
      r := Put(r, es[i].off, es[i].v, es[i].n);
      forall k | 0 <= k < i ensures Has(r, es[k].off, es[k].v, es[k].n) {
        assert Has(before, es[..i][k].off, es[..i][k].v, es[..i][k].n);
        PutKeeps(before, es[i].off, es[i].v, es[i].n, es[k].off, es[k].v, es[k].n);
      }
    }
    assert es[..|es|] == es;
  }

  method FillEhdr(e: seq<byte>, shoff: nat) returns (r: seq<byte>)
    requires |e| == EHDR && Fits64(shoff)
    ensures IsEhdr(r, shoff)
  {
    Pow256Values();
    var ident := ElfReader.MAGIC + [2, 1, 1] + e[7..];
    var es := [Entry(16, 2, 2), Entry(18, 243, 2), Entry(20, 1, 4), Entry(24, BASE + ENTRY_OFF, 8), Entry(32, EHDR, 8), Entry(40, shoff, 8),
               Entry(52, EHDR, 2), Entry(54, PHDR, 2), Entry(56, 1, 2), Entry(58, SHDR, 2), Entry(60, 5, 2), Entry(62, 4, 2)];
    r := Fill(ident, es);
    assert es[1] == Entry(18, 243, 2) && es[3] == Entry(24, BASE + ENTRY_OFF, 8) && es[4] == Entry(32, EHDR, 8) && es[5] == Entry(40, shoff, 8)
        && es[7] == Entry(54, PHDR, 2) && es[8] == Entry(56, 1, 2) && es[9] == Entry(58, SHDR, 2) && es[10] == Entry(60, 5, 2);
  }

  method FillPhdr(p: seq<byte>, filesz: nat) returns (r: seq<byte>)
    requires |p| == PHDR && Fits64(filesz)
    ensures IsPhdr(r, filesz)
  {
    Pow256Values();
    var es := [Entry(0, 1, 4), Entry(4, 7, 4), Entry(8, SEG_OFF, 8), Entry(16, BASE, 8), Entry(24, BASE, 8), Entry(32, filesz, 8),
               Entry(40, MEMSZ, 8), Entry(48, 0x1000, 8)];
    r := Fill(p, es);
    assert es[0] == Entry(0, 1, 4) && es[2] == Entry(8, SEG_OFF, 8) && es[4] == Entry(24, BASE, 8) && es[5] == Entry(32, filesz, 8)
        && es[6] == Entry(40, MEMSZ, 8);
  }

  // ---- the whole object ----

  function SymtabAt(n: nat): nat { SEG_OFF + n }

  function StrtabAt(n: nat): nat { SymtabAt(n) + 3 * SYM }

  function ShstrAt(n: nat): nat { StrtabAt(n) + |STRTAB| }

  function SectionsAt(n: nat): nat { (ShstrAt(n) + |SHSTR| + 7) / 8 * 8 }

  ghost predicate HasSymbol(f: seq<byte>, at: nat, name: nat, value: nat) {
    Has(f, at, name, 4) && Has(f, at + 8, value, 8)
  }

  ghost predicate HasSection(f: seq<byte>, at: nat, typ: nat, off: nat, size: nat, link: nat, entsize: nat) {
    Has(f, at + 4, typ, 4) && Has(f, at + 24, off, 8) && Has(f, at + 32, size, 8) && Has(f, at + 40, link, 4) && Has(f, at + 56, entsize, 8)
  }

  /** Symbols and their names. */
  ghost predicate HasTables(f: seq<byte>, n: nat) {
    && HasSymbol(f, SymtabAt(n), 0, 0)
    && HasSymbol(f, SymtabAt(n) + SYM, 1, BASE + TOHOST_OFF)
    && HasSymbol(f, SymtabAt(n) + 2 * SYM, 8, BASE + FROMHOST_OFF)
    && Carries(f, StrtabAt(n), STRTAB)
  }

  /** The sections up to the symbol names; the last only satisfies another reader. */
  ghost predicate HasSections(f: seq<byte>, n: nat) {
    var at := SectionsAt(n);
    && HasSection(f, at, 0, 0, 0, 0, 0)
    && HasSection(f, at + SHDR, 1, SEG_OFF, n, 0, 0)
    && HasSection(f, at + 2 * SHDR, 2, SymtabAt(n), 3 * SYM, 3, SYM)
    && HasSection(f, at + 3 * SHDR, 3, StrtabAt(n), |STRTAB|, 0, 0)
  }

  ghost predicate IsObject(f: seq<byte>, image: seq<byte>) {
    var n := |image|;
    && |f| == SectionsAt(n) + 5 * SHDR
    && IsEhdr(f[..EHDR], SectionsAt(n)) && IsPhdr(f[EHDR..EHDR + PHDR], n)
    && Carries(f, SEG_OFF, image) && HasTables(f, n) && HasSections(f, n)
  }

  lemma {:induction false} CarriedOn(f: seq<byte>, off: nat, b: seq<byte>, more: seq<byte>)
    requires Carries(f, off, b)
    ensures Carries(f + more, off, b)
  {
    assert (f + more)[off..off + |b|] == f[off..off + |b|];
  }

  lemma {:induction false} CarriesLast(f: seq<byte>, more: seq<byte>)
    ensures Carries(f + more, |f|, more)
  {
  }

  /** The null symbol and the two that end a run. */
  method Symbols() returns (b: seq<byte>)
    ensures |b| == 3 * SYM
    ensures HasSymbol(b, 0, 0, 0) && HasSymbol(b, SYM, 1, BASE + TOHOST_OFF) && HasSymbol(b, 2 * SYM, 8, BASE + FROMHOST_OFF)
  {
    Pow256Values();
    var first := ElfReader.Zeros(SYM);
    var tohost := Symbol(1, BASE + TOHOST_OFF);
    var fromhost := Symbol(8, BASE + FROMHOST_OFF);
    b := first + tohost + fromhost;
    ZeroBytes(4);
    ZeroBytes(8);
    assert b[0..4] == ElfReader.Zeros(4) && b[8..16] == ElfReader.Zeros(8);
    assert b[SYM..2 * SYM] == tohost && b[2 * SYM..3 * SYM] == fromhost;
    CarriedField(b, SYM, tohost, 0, 1, 4);
    CarriedField(b, SYM, tohost, 8, BASE + TOHOST_OFF, 8);
    CarriedField(b, 2 * SYM, fromhost, 0, 8, 4);
    CarriedField(b, 2 * SYM, fromhost, 8, BASE + FROMHOST_OFF, 8);
  }

  lemma {:induction false} ZeroBytes(n: nat)
    ensures FromLE(ElfReader.Zeros(n)) == 0
  {
    if n > 0 {
      ZeroBytes(n - 1);
      assert ElfReader.Zeros(n)[1..] == ElfReader.Zeros(n - 1);
    }
  }

  lemma {:induction false} CarriedSection(f: seq<byte>, at: nat, b: seq<byte>, from: nat, typ: nat, off: nat, size: nat, link: nat, entsize: nat)
    requires Carries(f, at, b) && HasSection(b, from, typ, off, size, link, entsize)
    ensures HasSection(f, at + from, typ, off, size, link, entsize)
  {
    CarriedField(f, at, b, from + 4, typ, 4);
    CarriedField(f, at, b, from + 24, off, 8);
    CarriedField(f, at, b, from + 32, size, 8);
    CarriedField(f, at, b, from + 40, link, 4);
    CarriedField(f, at, b, from + 56, entsize, 8);
  }

  lemma {:induction false} CarriedSymbol(f: seq<byte>, at: nat, b: seq<byte>, from: nat, name: nat, value: nat)
    requires Carries(f, at, b) && HasSymbol(b, from, name, value)
    ensures HasSymbol(f, at + from, name, value)
  {
    CarriedField(f, at, b, from, name, 4);
    CarriedField(f, at, b, from + 8, value, 8);
  }

  lemma {:induction false} InARow(s0: seq<byte>, s1: seq<byte>, s2: seq<byte>, s3: seq<byte>, s4: seq<byte>)
    requires |s0| == |s1| == |s2| == |s3| == |s4| == SHDR
    ensures var b := s0 + s1 + s2 + s3 + s4;
            Carries(b, 0, s0) && Carries(b, SHDR, s1) && Carries(b, 2 * SHDR, s2) && Carries(b, 3 * SHDR, s3)
  {
  }

  method Sections(filesz: nat, symtabOff: nat, symtabSize: nat, strtabOff: nat, shstrOff: nat) returns (b: seq<byte>)
    requires Fits64(filesz) && Fits64(symtabOff) && Fits64(symtabSize) && Fits64(strtabOff) && Fits64(shstrOff)
    ensures |b| == 5 * SHDR
    ensures HasSection(b, 0, 0, 0, 0, 0, 0) && HasSection(b, SHDR, 1, SEG_OFF, filesz, 0, 0)
    ensures HasSection(b, 2 * SHDR, 2, symtabOff, symtabSize, 3, SYM) && HasSection(b, 3 * SHDR, 3, strtabOff, |STRTAB|, 0, 0)
  {
    Pow256Values();
    var s0 := Shdr(0, 0, 0, 0, 0, 0, 0, 0, 0, 0);
    var s1 := Shdr(1, 1, 0x6, BASE, SEG_OFF, filesz, 0, 0, 0x1000, 0);
    var s2 := Shdr(7, 2, 0, 0, symtabOff, symtabSize, 3, 1, 8, SYM);
    var s3 := Shdr(15, 3, 0, 0, strtabOff, |STRTAB|, 0, 0, 1, 0);
    var s4 := Shdr(23, 3, 0, 0, shstrOff, |SHSTR|, 0, 0, 1, 0);
    b := s0 + s1 + s2 + s3 + s4;
    InARow(s0, s1, s2, s3, s4);
    FirstTwo(b, s0, s1, filesz);
    NextTwo(b, s2, s3, symtabOff, symtabSize, strtabOff);
  }

  lemma {:induction false} FirstTwo(b: seq<byte>, s0: seq<byte>, s1: seq<byte>, filesz: nat)
    requires |s0| == |s1| == SHDR && Carries(b, 0, s0) && Carries(b, SHDR, s1)
    requires HasSection(s0, 0, 0, 0, 0, 0, 0) && HasSection(s1, 0, 1, SEG_OFF, filesz, 0, 0)
    ensures HasSection(b, 0, 0, 0, 0, 0, 0) && HasSection(b, SHDR, 1, SEG_OFF, filesz, 0, 0)
  {
    CarriedSection(b, 0, s0, 0, 0, 0, 0, 0, 0);
    CarriedSection(b, SHDR, s1, 0, 1, SEG_OFF, filesz, 0, 0);
  }

  lemma {:induction false} NextTwo(b: seq<byte>, s2: seq<byte>, s3: seq<byte>, symtabOff: nat, symtabSize: nat, strtabOff: nat)
    requires |s2| == |s3| == SHDR && Carries(b, 2 * SHDR, s2) && Carries(b, 3 * SHDR, s3)
    requires HasSection(s2, 0, 2, symtabOff, symtabSize, 3, SYM) && HasSection(s3, 0, 3, strtabOff, |STRTAB|, 0, 0)
    ensures HasSection(b, 2 * SHDR, 2, symtabOff, symtabSize, 3, SYM) && HasSection(b, 3 * SHDR, 3, strtabOff, |STRTAB|, 0, 0)
  {
    CarriedSection(b, 2 * SHDR, s2, 0, 2, symtabOff, symtabSize, 3, SYM);
    CarriedSection(b, 3 * SHDR, s3, 0, 3, strtabOff, |STRTAB|, 0, 0);
  }

  lemma {:induction false} FrontKeeps(f: seq<byte>, front: seq<byte>, off: nat, b: seq<byte>)
    requires |front| <= |f| && Carries(f, off, b) && |front| <= off
    ensures Carries(front + f[|front|..], off, b)
  {
    var g := front + f[|front|..];
    assert forall k :: |front| <= k < |f| ==> g[k] == f[k];
    assert g[off..off + |b|] == f[off..off + |b|];
  }

  /** The image and the tables after it, behind room for the headers. */
  method Body(image: seq<byte>) returns (f: seq<byte>, ghost symbols: seq<byte>)
    ensures |f| == ShstrAt(|image|)
    ensures |symbols| == 3 * SYM && Carries(f, SEG_OFF, image) && Carries(f, SymtabAt(|image|), symbols) && Carries(f, StrtabAt(|image|), STRTAB)
    ensures HasSymbol(symbols, 0, 0, 0) && HasSymbol(symbols, SYM, 1, BASE + TOHOST_OFF) && HasSymbol(symbols, 2 * SYM, 8, BASE + FROMHOST_OFF)
  {
    f := ElfReader.Zeros(SEG_OFF);
    CarriesLast(f, image);
    f := f + image;
    var added := Symbols();
    symbols := added;
    CarriedOn(f, SEG_OFF, image, added);
    CarriesLast(f, added);
    f := f + added;
    CarriedOn(f, SEG_OFF, image, STRTAB);
    CarriedOn(f, SymtabAt(|image|), symbols, STRTAB);
    CarriesLast(f, STRTAB);
    f := f + STRTAB;
  }

  /** Wraps an image as an object both simulators load. */
  method Build(image: seq<byte>) returns (f: seq<byte>)
    requires |image| <= MEMSZ
    ensures IsObject(f, image)
  {
    Pow256Values();
    ghost var symbols;
    f, symbols := Body(image);
    ghost var tables := f;
    f := Padded(f, |image|);
    var shoff := |f|;
    var sections := Sections(|image|, SymtabAt(|image|), 3 * SYM, StrtabAt(|image|), ShstrAt(|image|));
    CarriesLast(f, sections);
    f := f + sections;
    Kept(tables, f, image, symbols);
    f := Front(f, |image|, shoff, image, symbols, sections);
    CarriedSymbols(f, |image|, symbols);
    CarriedSections(f, |image|, sections);
  }

  /** The section names, then zeros up to a word boundary. */
  method Padded(tables: seq<byte>, n: nat) returns (f: seq<byte>)
    requires |tables| == ShstrAt(n)
    ensures tables <= f && |f| == SectionsAt(n)
  {
    f := tables + SHSTR;
    while |f| % 8 != 0
      invariant ShstrAt(n) + |SHSTR| <= |f| <= SectionsAt(n)
      invariant tables <= f
      decreases SectionsAt(n) - |f|
    {
      f := f + [0];
    }
  }

  lemma {:induction false} Kept(tables: seq<byte>, f: seq<byte>, image: seq<byte>, symbols: seq<byte>)
    requires tables <= f && Carries(tables, SEG_OFF, image) && Carries(tables, SymtabAt(|image|), symbols) && Carries(tables, StrtabAt(|image|), STRTAB)
    ensures Carries(f, SEG_OFF, image) && Carries(f, SymtabAt(|image|), symbols) && Carries(f, StrtabAt(|image|), STRTAB)
  {
    var more := f[|tables|..];
    assert f == tables + more;
    CarriedOn(tables, SEG_OFF, image, more);
    CarriedOn(tables, SymtabAt(|image|), symbols, more);
    CarriedOn(tables, StrtabAt(|image|), STRTAB, more);
  }

  /** The header and the program header go in the space left at the front. */
  method Front(f: seq<byte>, filesz: nat, shoff: nat, ghost image: seq<byte>, ghost symbols: seq<byte>, ghost sections: seq<byte>) returns (g: seq<byte>)
    requires filesz == |image| && Fits64(filesz) && Fits64(shoff) && shoff == SectionsAt(filesz) && |f| == shoff + 5 * SHDR
    requires Carries(f, SEG_OFF, image) && Carries(f, SymtabAt(|image|), symbols)
    requires Carries(f, StrtabAt(|image|), STRTAB) && Carries(f, SectionsAt(|image|), sections)
    ensures |g| == |f| && IsEhdr(g[..EHDR], SectionsAt(|image|)) && IsPhdr(g[EHDR..EHDR + PHDR], |image|)
    ensures Carries(g, SEG_OFF, image) && Carries(g, SymtabAt(|image|), symbols)
    ensures Carries(g, StrtabAt(|image|), STRTAB) && Carries(g, SectionsAt(|image|), sections)
  {
    var e := FillEhdr(f[..EHDR], shoff);
    var p := FillPhdr(f[EHDR..EHDR + PHDR], filesz);
    var front := e + p;
    g := front + f[EHDR + PHDR..];
    assert g[..EHDR] == e && g[EHDR..EHDR + PHDR] == p;
    FrontKeeps(f, front, SEG_OFF, image);
    FrontKeeps(f, front, SymtabAt(filesz), symbols);
    FrontKeeps(f, front, StrtabAt(filesz), STRTAB);
    FrontKeeps(f, front, SectionsAt(filesz), sections);
  }

  lemma {:induction false} CarriedSymbols(f: seq<byte>, n: nat, symbols: seq<byte>)
    requires Carries(f, SymtabAt(n), symbols) && Carries(f, StrtabAt(n), STRTAB)
    requires HasSymbol(symbols, 0, 0, 0) && HasSymbol(symbols, SYM, 1, BASE + TOHOST_OFF) && HasSymbol(symbols, 2 * SYM, 8, BASE + FROMHOST_OFF)
    ensures HasTables(f, n)
  {
    ThreeSymbols(f, SymtabAt(n), symbols, BASE + TOHOST_OFF, BASE + FROMHOST_OFF);
  }

  lemma {:induction false} ThreeSymbols(f: seq<byte>, at: nat, symbols: seq<byte>, v: nat, w: nat)
    requires Carries(f, at, symbols)
    requires HasSymbol(symbols, 0, 0, 0) && HasSymbol(symbols, SYM, 1, v) && HasSymbol(symbols, 2 * SYM, 8, w)
    ensures HasSymbol(f, at, 0, 0) && HasSymbol(f, at + SYM, 1, v) && HasSymbol(f, at + 2 * SYM, 8, w)
  {
    CarriedSymbol(f, at, symbols, 0, 0, 0);
    CarriedSymbol(f, at, symbols, SYM, 1, v);
    CarriedSymbol(f, at, symbols, 2 * SYM, 8, w);
  }

  lemma {:induction false} CarriedSections(f: seq<byte>, n: nat, sections: seq<byte>)
    requires Carries(f, SectionsAt(n), sections)
    requires HasSection(sections, 0, 0, 0, 0, 0, 0) && HasSection(sections, SHDR, 1, SEG_OFF, n, 0, 0)
    requires HasSection(sections, 2 * SHDR, 2, SymtabAt(n), 3 * SYM, 3, SYM) && HasSection(sections, 3 * SHDR, 3, StrtabAt(n), |STRTAB|, 0, 0)
    ensures HasSections(f, n)
  {
    var at := SectionsAt(n);
    CarriedPair(f, at, sections, n);
    CarriedSection(f, at, sections, 2 * SHDR, 2, SymtabAt(n), 3 * SYM, 3, SYM);
    CarriedSection(f, at, sections, 3 * SHDR, 3, StrtabAt(n), |STRTAB|, 0, 0);
  }

  lemma {:induction false} CarriedPair(f: seq<byte>, at: nat, sections: seq<byte>, n: nat)
    requires Carries(f, at, sections) && HasSection(sections, 0, 0, 0, 0, 0, 0) && HasSection(sections, SHDR, 1, SEG_OFF, n, 0, 0)
    ensures HasSection(f, at, 0, 0, 0, 0, 0) && HasSection(f, at + SHDR, 1, SEG_OFF, n, 0, 0)
  {
    CarriedSection(f, at, sections, 0, 0, 0, 0, 0, 0);
    CarriedSection(f, at, sections, SHDR, 1, SEG_OFF, n, 0, 0);
  }
}
