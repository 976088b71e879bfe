/** The executable file (elf64.go): headers, string tables, symbol table and
    sections, with the layout arithmetic between them. */
module Elf {
  import opened Wrappers
  import opened Bytes

  const EHDR_SIZE: nat := 64
  const PHDR_SIZE: nat := 56
  const SHDR_SIZE: nat := 64
  const SYM_SIZE: nat := 24

  const SHT_SYMTAB: int := 2
  const SHT_STRTAB: int := 3
  const SHF_WRITE: int := 1
  const SHF_EXECINSTR: int := 4
  const ENTRY_ADDR: int := 0x30000

  datatype Ehdr = Ehdr(phoff: nat, shoff: nat, phnum: nat, shnum: nat, shstrndx: nat)

  datatype Phdr = Phdr(flags: int, offset: nat, vaddr: nat, filesz: nat, align: nat)

  datatype Shdr = Shdr(
    name: nat, stype: int, flags: int, addr: nat, offset: nat, size: nat, link: nat, info: nat, align: nat, entsize: nat)

  datatype Sym = Sym(name: nat, info: int, shndx: nat, value: nat, size: nat)

  const NULL_SHDR: Shdr := Shdr(0, 0, 0, 0, 0, 0, 0, 0, 0, 0)
  const NULL_SYM: Sym := Sym(0, 0, 0, 0, 0)

  function LE(x: int, n: nat): (bs: seq<Byte>)
    ensures |bs| == n
  {
    LittleEndian(x, n)
  }

  function EhdrBytes(h: Ehdr): (bs: seq<Byte>)
    ensures |bs| == EHDR_SIZE
  {
    [0x7f, 0x45, 0x4c, 0x46, 2, 1, 1, 0] + LE(0, 8)
    + LE(2, 2) + LE(0x3e, 2) + LE(1, 4) + LE(ENTRY_ADDR, 8) + LE(h.phoff, 8) + LE(h.shoff, 8) + LE(0, 4)
    + LE(64, 2) + LE(56, 2) + LE(h.phnum, 2) + LE(64, 2) + LE(h.shnum, 2) + LE(h.shstrndx, 2)
  }

  function PhdrBytes(h: Phdr): (bs: seq<Byte>)
    ensures |bs| == PHDR_SIZE
  {
    LE(1, 4) + LE(h.flags, 4) + LE(h.offset, 8) + LE(h.vaddr, 8) + LE(h.vaddr, 8)
    + LE(h.filesz, 8) + LE(h.filesz, 8) + LE(h.align, 8)
  }

  function ShdrBytes(h: Shdr): (bs: seq<Byte>)
    ensures |bs| == SHDR_SIZE
  {
    LE(h.name, 4) + LE(h.stype, 4) + LE(h.flags, 8) + LE(h.addr, 8) + LE(h.offset, 8) + LE(h.size, 8) + LE(h.link, 4)
    + LE(h.info, 4) + LE(h.align, 8) + LE(h.entsize, 8)
  }

  function SymBytes(s: Sym): (bs: seq<Byte>)
    ensures |bs| == SYM_SIZE
  {
    LE(s.name, 4) + LE(s.info, 1) + LE(0, 1) + LE(s.shndx, 2) + LE(s.value, 8) + LE(s.size, 8)
  }

  // ----- sections -----

  datatype Symbol = Symbol(name: seq<Byte>, isFunc: bool, address: nat, size: nat)

  datatype Section = Section(
    name: seq<Byte>, stype: int, flags: int, writable: bool, exec: bool, addr: nat, data: seq<Byte>,
    loadable: bool, syms: seq<Symbol>)

  function PageUp(n: nat): nat { (n + 0x1000) / 0x1000 * 0x1000 }

  lemma PageUpIsBeyond(n: nat)
    ensures n < PageUp(n) <= n + 0x1000 && PageUp(n) % 0x1000 == 0
  {
  }

  /** The loadable sections among the first n. */
  function Loadable(ss: seq<Section>, n: nat): nat
    requires n <= |ss|
  {
    if n == 0 then 0 else Loadable(ss, n - 1) + if ss[n - 1].loadable then 1 else 0
  }

  /** The section count in the ELF header, which has 16 bits. */
  function ShNum(ss: seq<Section>): nat { (|ss| + 4) % 0x1_0000 }

  predicate CountFits(ss: seq<Section>) { |ss| + 4 < 0x1_0000 }

  /** Where all headers end by the section count: the contents start at the first
      page after that. */
  function HeadersEnd(ss: seq<Section>): nat { ShOff(ss) + SHDR_SIZE * ShNum(ss) }

  /** The section headers follow the program headers. */
  function ShOff(ss: seq<Section>): nat { EHDR_SIZE + PHDR_SIZE * Loadable(ss, |ss|) }

  /** Where the contents of the n-th section start. */
  function OffsetOf(ss: seq<Section>, n: nat): nat
    requires n <= |ss|
  {
    if n == 0 then PageUp(HeadersEnd(ss)) else OffsetOf(ss, n - 1) + PageUp(|ss[n - 1].data|)
  }

  lemma SumAligned(a: int, b: int)
    requires b % 0x1000 == 0
    ensures (a + b) % 0x1000 == a % 0x1000 && (a - b) % 0x1000 == a % 0x1000
  {
  }

  lemma {:induction false} OffsetsAscend(ss: seq<Section>, i: nat, n: nat)
    requires i <= n <= |ss|
    ensures HeadersEnd(ss) < OffsetOf(ss, i) && OffsetOf(ss, n) % 0x1000 == 0
    ensures i < n ==> OffsetOf(ss, i) + |ss[i].data| < OffsetOf(ss, n)
    decreases n
  {
    hide PageUp, HeadersEnd;
    PageUpIsBeyond(HeadersEnd(ss));
    if n > 0 {
      PageUpIsBeyond(|ss[n - 1].data|);
      SumAligned(OffsetOf(ss, n - 1), PageUp(|ss[n - 1].data|));
      OffsetsAscend(ss, 0, n - 1);
      OffsetsAscend(ss, if i < n then i else n - 1, n - 1);
    }
  }

  // ----- string tables -----

  /** A name, and the zero byte after it, at some offset of a string table. */
  ghost predicate NameAt(table: seq<Byte>, off: nat, name: seq<Byte>) {
    off + |name| < |table| && table[off..off + |name|] == name && table[off + |name|] == 0
  }

  /** The bytes up to the next zero byte. */
  function CString(table: seq<Byte>, off: nat): seq<Byte>
    requires off <= |table|
    decreases |table| - off
  {
    if off == |table| || table[off] == 0 then [] else [table[off]] + CString(table, off + 1)
  }

  /** Reading the table at the offset of a name gives the name. */
  lemma {:induction false} NameReadBack(table: seq<Byte>, off: nat, name: seq<Byte>)
    requires NameAt(table, off, name) && 0 !in name
    ensures CString(table, off) == name
    decreases |name|
  {
    if name != [] {
      assert table[off..off + |name|][0] == name[0] && name[0] in name;
      assert table[off + 1..off + |name|] == table[off..off + |name|][1..];
      NameReadBack(table, off + 1, name[1..]);
    }
  }

  class StrTab {
    var m: map<seq<Byte>, nat>
    var bs: seq<Byte>

    ghost predicate Valid()
      reads this
    {
      bs != [] && bs[0] == 0 && forall s :: s in m ==> NameAt(bs, m[s], s)
    }

    constructor ()
      ensures Valid() && m == map[] && bs == [0]
    {
      m, bs := map[], [0];
    }

    /** The offset of a name, which is appended if it is new. */
    method StrOff(s: seq<Byte>) returns (off: nat)
      requires Valid()
      modifies this
      ensures Valid() && NameAt(bs, off, s)
      ensures |old(bs)| <= |bs| && bs[..|old(bs)|] == old(bs)
      ensures s in old(m) ==> bs == old(bs)
    {
      if s in m { return m[s]; }
      off := |bs|;
      forall t | t in m ensures NameAt(bs + s + [0], m[t], t) { NameStays(bs, bs + s + [0], m[t], t); }
      bs := bs + s + [0];
      m := m[s := off];
      assert bs[off..off + |s|] == s;
    }
  }

  lemma NameStays(table: seq<Byte>, longer: seq<Byte>, off: nat, name: seq<Byte>)
    requires NameAt(table, off, name) && |table| <= |longer| && longer[..|table|] == table
    ensures NameAt(longer, off, name)
  {
  }

  // ----- headers of the sections -----

  /** The header of a section, wherever its name is. */
  function SectionHeader(ss: seq<Section>, i: nat, name: nat): Shdr
    requires i < |ss|
  {
    var s := ss[i];
    Shdr(name, s.stype, s.flags, s.addr, OffsetOf(ss, i), |s.data|, 0, 0, if s.loadable && s.exec then 0x1000 else 8, 0)
  }

  function ProgramHeader(ss: seq<Section>, i: nat): Phdr
    requires i < |ss|
  {
    var s := ss[i];
    Phdr(if s.exec then 5 else if s.writable then 6 else 4, OffsetOf(ss, i), s.addr, |s.data|, if s.exec then 0x1000 else 8)
  }

  /** The program headers of the first n sections. */
  function ProgramHeaders(ss: seq<Section>, n: nat): (hs: seq<Phdr>)
    requires n <= |ss|
    ensures |hs| == Loadable(ss, n)
  {
    if n == 0 then [] else ProgramHeaders(ss, n - 1) + if ss[n - 1].loadable then [ProgramHeader(ss, n - 1)] else []
  }

  /** The symbol of an entry of the table, by section and position. */
  function SymbolEntry(ss: seq<Section>, i: nat, j: nat, name: nat): Sym
    requires i < |ss| && j < |ss[i].syms|
  {
    var y := ss[i].syms[j];
    Sym(name, if y.isFunc then 2 else 1, i + 1, y.address, y.size)
  }

  /** How many symbols the first n sections have. */
  function SymbolsBefore(ss: seq<Section>, n: nat): nat
    requires n <= |ss|
  {
    if n == 0 then 0 else SymbolsBefore(ss, n - 1) + if ss[n - 1].loadable then |ss[n - 1].syms| else 0
  }

  // ----- writing -----

  /** Zero bytes. */
  function Zeros(n: nat): (z: seq<Byte>)
    ensures |z| == n
  {
    if n == 0 then [] else Zeros(n - 1) + [0]
  }

  class File {
    var bytes: seq<Byte>

    constructor ()
      ensures bytes == []
    {
      bytes := [];
    }

    method Write(bs: seq<Byte>)
      modifies this
      ensures bytes == old(bytes) + bs
    {
      bytes := bytes + bs;
    }

    /** Pads with zeros up to an offset and writes there; false is a panic, where
        the padding would be negative. */
    method WriteSection(data: seq<Byte>, target: nat) returns (ok: bool)
      modifies this
      ensures ok == (|old(bytes)| <= target)
      ensures ok ==> |bytes| == target + |data| && bytes[target..] == data
      ensures ok ==> bytes[..|old(bytes)|] == old(bytes)
    {
      ok := |bytes| <= target;
      if ok {
        Write(Zeros(target - |bytes|));
        Write(data);
      }
    }
  }

  /** The part of the file written so far keeps a piece that was in it. */
  ghost predicate HasPiece(file: seq<Byte>, at: nat, piece: seq<Byte>) {
    at + |piece| <= |file| && file[at..at + |piece|] == piece
  }

  lemma PieceStays(file: seq<Byte>, longer: seq<Byte>, at: nat, piece: seq<Byte>)
    requires HasPiece(file, at, piece) && |file| <= |longer| && longer[..|file|] == file
    ensures HasPiece(longer, at, piece)
  {
  }

  // ----- the image -----

  /** The three sections that follow those of the program. */
  datatype Extra = Extra(symtab: seq<Byte>, strtab: seq<Byte>, shstrtab: seq<Byte>)

  function SymOff(ss: seq<Section>): nat { OffsetOf(ss, |ss|) }

  function StrOff(ss: seq<Section>, x: Extra): nat { SymOff(ss) + PageUp(|x.symtab|) }

  function ShStrOff(ss: seq<Section>, x: Extra): nat { StrOff(ss, x) + PageUp(|x.strtab|) }

  /** The index of the string table, in 16 bits. */
  function StrIndex(ss: seq<Section>): nat { ((|ss| + 3) % 0x1_0000 + 0xffff) % 0x1_0000 }

  /** The name of a section header reads back in the table of section names. */
  ghost predicate Titled(h: Shdr, x: Extra, name: seq<Byte>) { NameAt(x.shstrtab, h.name, name) }

  /** The section headers: the null one, one for each section, and the symbol
      table, the string table and the table of section names. */
  ghost predicate SectionHeaders(ss: seq<Section>, x: Extra, hs: seq<Shdr>) {
    var n := |ss|;
    && |hs| == n + 4 && hs[0] == NULL_SHDR
    && (forall i :: 0 < i <= n ==> hs[i] == SectionHeader(ss, i - 1, hs[i].name) && Titled(hs[i], x, ss[i - 1].name))
    && hs[n + 1] == Shdr(hs[n + 1].name, SHT_SYMTAB, 0, 0, SymOff(ss), |x.symtab|, StrIndex(ss), 1 + SymbolsBefore(ss, n), 8, SYM_SIZE)
    && hs[n + 2] == Shdr(hs[n + 2].name, SHT_STRTAB, 0, 0, StrOff(ss, x), |x.strtab|, 0, 0, 1, 0)
    && hs[n + 3] == Shdr(hs[n + 3].name, SHT_STRTAB, 0, 0, ShStrOff(ss, x), |x.shstrtab|, 0, 0, 1, 0)
    && Titled(hs[n + 1], x, SYMTAB_NAME) && Titled(hs[n + 2], x, STRTAB_NAME) && Titled(hs[n + 3], x, SHSTRTAB_NAME)
  }

  const SYMTAB_NAME: seq<Byte> := [0x2e, 0x73, 0x79, 0x6d, 0x74, 0x61, 0x62]
  const STRTAB_NAME: seq<Byte> := [0x2e, 0x73, 0x74, 0x72, 0x74, 0x61, 0x62]
  const SHSTRTAB_NAME: seq<Byte> := [0x2e, 0x73, 0x68, 0x73, 0x74, 0x72, 0x74, 0x61, 0x62]

  /** The symbol table of the first n sections: a null entry, and one for each
      symbol of a loadable section. */
  ghost predicate SymbolTable(ss: seq<Section>, n: nat, symtab: seq<Byte>, strtab: seq<Byte>)
    requires n <= |ss|
  {
    && |symtab| == SYM_SIZE * (1 + SymbolsBefore(ss, n)) && HasPiece(symtab, 0, SymBytes(NULL_SYM))
    && forall i, j :: 0 <= i < n && ss[i].loadable && 0 <= j < |ss[i].syms| ==> SymbolListed(ss, symtab, strtab, i, j)
  }

  ghost predicate SymbolListed(ss: seq<Section>, symtab: seq<Byte>, strtab: seq<Byte>, i: nat, j: nat)
    requires i < |ss| && j < |ss[i].syms|
  {
    exists name :: NameAt(strtab, name, ss[i].syms[j].name) &&
                   HasPiece(symtab, SYM_SIZE * (1 + SymbolsBefore(ss, i) + j), SymBytes(SymbolEntry(ss, i, j, name)))
  }

  /** The headers, where the ELF header says and as many as it says. */
  ghost predicate Headers(ss: seq<Section>, hs: seq<Shdr>, file: seq<Byte>) {
    var n := |ss|;
    && HasPiece(file, 0, EhdrBytes(Ehdr(EHDR_SIZE, ShOff(ss), Loadable(ss, n), n + 4, n + 3)))
    && (forall i :: 0 <= i < Loadable(ss, n) ==> HasPiece(file, EHDR_SIZE + PHDR_SIZE * i, PhdrBytes(ProgramHeaders(ss, n)[i])))
    && (forall i :: 0 <= i < |hs| ==> HasPiece(file, ShOff(ss) + SHDR_SIZE * i, ShdrBytes(hs[i])))
  }

  /** The contents of the first sections, at the offsets in their headers. */
  ghost predicate Contents(ss: seq<Section>, n: nat, file: seq<Byte>)
    requires n <= |ss|
  {
    forall i :: 0 <= i < n ==> HasPiece(file, OffsetOf(ss, i), ss[i].data)
  }

  ghost predicate Image(ss: seq<Section>, x: Extra, hs: seq<Shdr>, file: seq<Byte>) {
    && Headers(ss, hs, file) && Contents(ss, |ss|, file)
    && HasPiece(file, SymOff(ss), x.symtab) && HasPiece(file, StrOff(ss, x), x.strtab) &&
       HasPiece(file, ShStrOff(ss, x), x.shstrtab)
  }

  lemma HeadersStay(ss: seq<Section>, hs: seq<Shdr>, file: seq<Byte>, longer: seq<Byte>)
    requires Headers(ss, hs, file) && |file| <= |longer| && longer[..|file|] == file
    ensures Headers(ss, hs, longer)
  {
    hide HasPiece, EhdrBytes, PhdrBytes, ShdrBytes, ProgramHeaders, Loadable, ShOff;
    var n := |ss|;
    PieceStays(file, longer, 0, EhdrBytes(Ehdr(EHDR_SIZE, ShOff(ss), Loadable(ss, n), n + 4, n + 3)));
    forall i | 0 <= i < Loadable(ss, n) ensures HasPiece(longer, EHDR_SIZE + PHDR_SIZE * i, PhdrBytes(ProgramHeaders(ss, n)[i])) {
      PieceStays(file, longer, EHDR_SIZE + PHDR_SIZE * i, PhdrBytes(ProgramHeaders(ss, n)[i]));
    }
    forall i | 0 <= i < |hs| ensures HasPiece(longer, ShOff(ss) + SHDR_SIZE * i, ShdrBytes(hs[i])) {
      PieceStays(file, longer, ShOff(ss) + SHDR_SIZE * i, ShdrBytes(hs[i]));
    }
  }

  lemma ContentsStay(ss: seq<Section>, n: nat, file: seq<Byte>, longer: seq<Byte>)
    requires n <= |ss| && Contents(ss, n, file) && |file| <= |longer| && longer[..|file|] == file
    ensures Contents(ss, n, longer)
  {
  }

  // ----- as the linker writes it -----

  /** The entries of one section, behind those of the sections before. */
  method AddSymbols(ss: seq<Section>, i: nat, st: StrTab, symbs: seq<Byte>, count: nat) returns (out: seq<Byte>, symcount: nat)
    requires st.Valid() && i < |ss| && ss[i].loadable && SymbolTable(ss, i, symbs, st.bs)
    modifies st
    ensures st.Valid() && SymbolTable(ss, i + 1, out, st.bs) && symcount == count + |ss[i].syms|
  {
    hide HasPiece, NameAt, SymBytes, SymbolListed;
    out, symcount := symbs, count;
    var syms := ss[i].syms;
    for j := 0 to |syms|
      invariant st.Valid() && |out| == SYM_SIZE * (1 + SymbolsBefore(ss, i) + j) && HasPiece(out, 0, SymBytes(NULL_SYM))
      invariant forall a, b :: 0 <= a < i && ss[a].loadable && 0 <= b < |ss[a].syms| ==> SymbolListed(ss, out, st.bs, a, b)
      invariant symcount == count + j && forall b :: 0 <= b < j ==> SymbolListed(ss, out, st.bs, i, b)
    {
      ghost var table, before := st.bs, out;
      var name := st.StrOff(syms[j].name);
      var info := if syms[j].isFunc then 2 else 1;
      out := out + SymBytes(Sym(name, info, i + 1, syms[j].address, syms[j].size));
      symcount := symcount + 1;
      assert out[..|before|] == before;
      PieceStays(before, out, 0, SymBytes(NULL_SYM));
      PieceAdded(before, SymBytes(SymbolEntry(ss, i, j, name)));
      IsListed(ss, out, st.bs, i, j, name);
      forall a, b | 0 <= a < i && ss[a].loadable && 0 <= b < |ss[a].syms| ensures SymbolListed(ss, out, st.bs, a, b) {
        ListedStays(ss, before, out, table, st.bs, a, b);
      }
      forall b | 0 <= b < j ensures SymbolListed(ss, out, st.bs, i, b) {
        ListedStays(ss, before, out, table, st.bs, i, b);
      }
    }
  }

  lemma PieceAdded(file: seq<Byte>, piece: seq<Byte>)
    ensures HasPiece(file + piece, |file|, piece)
  {
  }

  lemma IsListed(ss: seq<Section>, symtab: seq<Byte>, strtab: seq<Byte>, i: nat, j: nat, name: nat)
    requires i < |ss| && j < |ss[i].syms| && NameAt(strtab, name, ss[i].syms[j].name)
    requires HasPiece(symtab, SYM_SIZE * (1 + SymbolsBefore(ss, i) + j), SymBytes(SymbolEntry(ss, i, j, name)))
    ensures SymbolListed(ss, symtab, strtab, i, j)
  {
  }

  lemma ListedStays(ss: seq<Section>, symtab: seq<Byte>, symtab': seq<Byte>, strtab: seq<Byte>, strtab': seq<Byte>,
                   i: nat, j: nat)
    requires i < |ss| && j < |ss[i].syms| && SymbolListed(ss, symtab, strtab, i, j)
    requires |symtab| <= |symtab'| && symtab'[..|symtab|] == symtab && |strtab| <= |strtab'| &&
             strtab'[..|strtab|] == strtab
    ensures SymbolListed(ss, symtab', strtab', i, j)
  {
    hide HasPiece, NameAt, SymBytes;
    var name: nat :| NameAt(strtab, name, ss[i].syms[j].name) &&
                HasPiece(symtab, SYM_SIZE * (1 + SymbolsBefore(ss, i) + j), SymBytes(SymbolEntry(ss, i, j, name)));
    NameStays(strtab, strtab', name, ss[i].syms[j].name);
    PieceStays(symtab, symtab', SYM_SIZE * (1 + SymbolsBefore(ss, i) + j), SymBytes(SymbolEntry(ss, i, j, name)));
  }

  /** The headers of the first sections, with their names in the table. */
  ghost predicate UserHeaders(ss: seq<Section>, n: nat, hs: seq<Shdr>, names: seq<Byte>)
    requires n <= |ss|
  {
    |hs| == n && forall i :: 0 <= i < n ==> hs[i] == SectionHeader(ss, i, hs[i].name) && NameAt(names, hs[i].name, ss[i].name)
  }

  lemma UserHeadersStay(ss: seq<Section>, n: nat, hs: seq<Shdr>, names: seq<Byte>, names': seq<Byte>)
    requires n <= |ss| && UserHeaders(ss, n, hs, names) && |names| <= |names'| && names'[..|names|] == names
    ensures UserHeaders(ss, n, hs, names')
  {
  }

  /** The headers, the symbols and their names, and where the contents end. */
  method Sections(ss: seq<Section>, shst: StrTab, st: StrTab)
    returns (phdrs: seq<Phdr>, shdrs: seq<Shdr>, symbs: seq<Byte>, symcount: nat, dataOff: nat)
    requires shst.Valid() && st.Valid() && shst != st
    modifies shst, st
    ensures shst.Valid() && st.Valid() && phdrs == ProgramHeaders(ss, |ss|) && UserHeaders(ss, |ss|, shdrs, shst.bs)
    ensures SymbolTable(ss, |ss|, symbs, st.bs) && symcount == 1 + SymbolsBefore(ss, |ss|) && dataOff == SymOff(ss)
  {
    hide NameAt, UserHeaders, SymbolTable, PageUp;
    dataOff := PageUp(HeadersEnd(ss));
    phdrs, shdrs, symbs, symcount := [], [], SymBytes(NULL_SYM), 1;
    NothingListed(ss, shst.bs, st.bs);
    for i := 0 to |ss|
      invariant shst.Valid() && st.Valid() && dataOff == OffsetOf(ss, i) && symcount == 1 + SymbolsBefore(ss, i)
      invariant phdrs == ProgramHeaders(ss, i) && UserHeaders(ss, i, shdrs, shst.bs) && SymbolTable(ss, i, symbs, st.bs)
    {
      var sect := ss[i];
      ghost var names := shst.bs;
      var name := shst.StrOff(sect.name);
      UserHeadersStay(ss, i, shdrs, names, shst.bs);
      if sect.loadable {
        var p := LoadHeader(sect, dataOff);
        phdrs := phdrs + [p];
        symbs, symcount := AddSymbols(ss, i, st, symbs, symcount);
      } else {
        NoSymbolsAdded(ss, i, symbs, st.bs);
      }
      var sHdr := Shdr(name, sect.stype, sect.flags, sect.addr, dataOff, |sect.data|, 0, 0,
                       if sect.loadable && sect.exec then 0x1000 else 8, 0);
      OneMoreUser(ss, i, shdrs, sHdr, shst.bs);
      dataOff := dataOff + PageUp(|sect.data|);
      shdrs := shdrs + [sHdr];
    }
  }

  method LoadHeader(sect: Section, dataOff: nat) returns (p: Phdr)
    ensures p == Phdr(if sect.exec then 5 else if sect.writable then 6 else 4, dataOff, sect.addr, |sect.data|,
                      if sect.exec then 0x1000 else 8)
  {
    p := Phdr(4, dataOff, sect.addr, |sect.data|, 8);
    if sect.exec {
      p := p.(flags := 5, align := 0x1000);
    } else if sect.writable {
      p := p.(flags := 6);
    }
  }

  lemma NothingListed(ss: seq<Section>, names: seq<Byte>, strtab: seq<Byte>)
    ensures UserHeaders(ss, 0, [], names) && SymbolTable(ss, 0, SymBytes(NULL_SYM), strtab)
  {
  }

  lemma OneMoreUser(ss: seq<Section>, i: nat, hs: seq<Shdr>, h: Shdr, names: seq<Byte>)
    requires i < |ss| && UserHeaders(ss, i, hs, names) && h == SectionHeader(ss, i, h.name) &&
             NameAt(names, h.name, ss[i].name)
    ensures UserHeaders(ss, i + 1, hs + [h], names)
  {
  }

  lemma NoSymbolsAdded(ss: seq<Section>, i: nat, symtab: seq<Byte>, strtab: seq<Byte>)
    requires i < |ss| && !ss[i].loadable && SymbolTable(ss, i, symtab, strtab)
    ensures SymbolTable(ss, i + 1, symtab, strtab)
  {
  }

  method WriteHeaders(f: File, ss: seq<Section>, phdrs: seq<Phdr>, hs: seq<Shdr>)
    requires f.bytes == [] && phdrs == ProgramHeaders(ss, |ss|) && |hs| == |ss| + 4
    modifies f
    ensures Headers(ss, hs, f.bytes) && |f.bytes| == ShOff(ss) + SHDR_SIZE * |hs|
  {
    hide HasPiece, EhdrBytes, PhdrBytes, ShdrBytes, ProgramHeaders;
    var n := |ss|;
    var ehdr := Ehdr(EHDR_SIZE, EHDR_SIZE + PHDR_SIZE * |phdrs|, |phdrs|, n + 4, n + 3);
    f.Write(EhdrBytes(ehdr));
    PieceAdded([], EhdrBytes(ehdr));
    assert [] + EhdrBytes(ehdr) == EhdrBytes(ehdr);
    for i := 0 to |phdrs|
      invariant |f.bytes| == EHDR_SIZE + PHDR_SIZE * i && HasPiece(f.bytes, 0, EhdrBytes(ehdr))
      invariant forall j :: 0 <= j < i ==> HasPiece(f.bytes, EHDR_SIZE + PHDR_SIZE * j, PhdrBytes(phdrs[j]))
    {
      ghost var before := f.bytes;
      f.Write(PhdrBytes(phdrs[i]));
      assert f.bytes[..|before|] == before;
      PieceAdded(before, PhdrBytes(phdrs[i]));
      PieceStays(before, f.bytes, 0, EhdrBytes(ehdr));
      forall j | 0 <= j < i ensures HasPiece(f.bytes, EHDR_SIZE + PHDR_SIZE * j, PhdrBytes(phdrs[j])) {
        PieceStays(before, f.bytes, EHDR_SIZE + PHDR_SIZE * j, PhdrBytes(phdrs[j]));
      }
    }
    WriteSectionHeaders(f, ss, hs);
  }

  method WriteSectionHeaders(f: File, ss: seq<Section>, hs: seq<Shdr>)
    requires |f.bytes| == ShOff(ss) && |hs| == |ss| + 4 && Headers(ss, [], f.bytes)
    modifies f
    ensures Headers(ss, hs, f.bytes) && |f.bytes| == ShOff(ss) + SHDR_SIZE * |hs|
  {
    hide HasPiece, EhdrBytes, PhdrBytes, ShdrBytes, ProgramHeaders;
    for i := 0 to |hs|
      invariant |f.bytes| == ShOff(ss) + SHDR_SIZE * i && Headers(ss, hs[..i], f.bytes)
    {
      ghost var before := f.bytes;
      f.Write(ShdrBytes(hs[i]));
      assert f.bytes[..|before|] == before;
      HeadersStay(ss, hs[..i], before, f.bytes);
      PieceAdded(before, ShdrBytes(hs[i]));
      OneMoreHeader(ss, hs, i, f.bytes);
    }
    assert hs[..|hs|] == hs;
  }

  lemma OneMoreHeader(ss: seq<Section>, hs: seq<Shdr>, i: nat, file: seq<Byte>)
    requires i < |hs| && Headers(ss, hs[..i], file) && HasPiece(file, ShOff(ss) + SHDR_SIZE * i, ShdrBytes(hs[i]))
    ensures Headers(ss, hs[..i + 1], file)
  {
    hide HasPiece, EhdrBytes, PhdrBytes, ShdrBytes, ProgramHeaders;
    forall j | 0 <= j < i + 1 ensures HasPiece(file, ShOff(ss) + SHDR_SIZE * j, ShdrBytes(hs[..i + 1][j])) {
      if j < i { assert hs[..i][j] == hs[..i + 1][j]; }
    }
  }

  /** Writes the sections one by one.  The padding before each is never negative
      exactly if the number of headers fits its 16 bits. */
  method WriteContents(f: File, ss: seq<Section>, ghost hs: seq<Shdr>) returns (ok: bool)
    requires Headers(ss, hs, f.bytes) && |hs| == |ss| + 4 && |f.bytes| == ShOff(ss) + SHDR_SIZE * |hs|
    modifies f
    ensures ok <==> CountFits(ss)
    ensures ok ==> Headers(ss, hs, f.bytes) && Contents(ss, |ss|, f.bytes) && |f.bytes| < SymOff(ss)
  {
    hide HasPiece, Headers, OffsetOf, PageUp;
    HeadersBelowContents(ss);
    for i := 0 to |ss|
      invariant Headers(ss, hs, f.bytes) && Contents(ss, i, f.bytes)
      invariant i == 0 ==> |f.bytes| == ShOff(ss) + SHDR_SIZE * (|ss| + 4)
      invariant i > 0 || CountFits(ss) ==> CountFits(ss) && |f.bytes| < OffsetOf(ss, i)
    {
      ghost var before := f.bytes;
      OffsetsAscend(ss, i, i + 1);
      ok := f.WriteSection(ss[i].data, OffsetOf(ss, i));
      if !ok { return; }
      HeadersStay(ss, hs, before, f.bytes);
      ContentsStay(ss, i, before, f.bytes);
      PieceAtEnd(f.bytes, OffsetOf(ss, i), ss[i].data);
    }
    ok := true;
  }

  /** The headers end before the first contents exactly if their number fits. */
  lemma HeadersBelowContents(ss: seq<Section>)
    ensures ShOff(ss) + SHDR_SIZE * (|ss| + 4) <= OffsetOf(ss, 0) <==> CountFits(ss)
    ensures CountFits(ss) ==> HeadersEnd(ss) == ShOff(ss) + SHDR_SIZE * (|ss| + 4) < OffsetOf(ss, 0)
  {
    hide PageUp;
    PageUpIsBeyond(HeadersEnd(ss));
    if !CountFits(ss) { assert |ss| + 4 >= ShNum(ss) + 0x1_0000; }
  }

  lemma PieceAtEnd(file: seq<Byte>, at: nat, piece: seq<Byte>)
    requires |file| == at + |piece| && file[at..] == piece
    ensures HasPiece(file, at, piece)
  {
  }

  /** The whole file; false is a panic. */
  method WriteElf(ss: seq<Section>) returns (ok: bool, file: seq<Byte>, hs: seq<Shdr>, x: Extra)
    ensures ok <==> CountFits(ss)
    ensures ok ==> SectionHeaders(ss, x, hs) && SymbolTable(ss, |ss|, x.symtab, x.strtab) && Image(ss, x, hs, file)
  {
    hide Headers, Contents, HasPiece, SymbolTable, NameAt, ProgramHeaders;
    var shst := new StrTab();
    var st := new StrTab();
    var phdrs, shdrs, symbs, symcount, dataOff := Sections(ss, shst, st);
    hs, x := LastHeaders(ss, shdrs, symbs, symcount, dataOff, shst, st);
    var f := new File();
    WriteHeaders(f, ss, phdrs, hs);
    ok := WriteContents(f, ss, hs);
    file := f.bytes;
    if !ok { return; }
    WriteExtra(f, ss, x, hs);
    file := f.bytes;
  }

  /** The headers of the three sections at the end. */
  method LastHeaders(ss: seq<Section>, shdrs: seq<Shdr>, symbs: seq<Byte>, symcount: nat, dataOff: nat, shst: StrTab, st: StrTab)
    returns (hs: seq<Shdr>, x: Extra)
    requires shst.Valid() && st.Valid() && shst != st && UserHeaders(ss, |ss|, shdrs, shst.bs)
    requires SymbolTable(ss, |ss|, symbs, st.bs) && symcount == 1 + SymbolsBefore(ss, |ss|) && dataOff == SymOff(ss)
    modifies shst
    ensures SectionHeaders(ss, x, hs) && SymbolTable(ss, |ss|, x.symtab, x.strtab)
  {
    hide NameAt, SectionHeader, SymbolTable, PageUp, OffsetOf, SymbolsBefore;
    ghost var names0 := shst.bs;
    var a := shst.StrOff(SYMTAB_NAME);
    ghost var names1 := shst.bs;
    var off := dataOff;
    var shstrndx := (|ss| + 3) % 0x1_0000;
    var symSect := Shdr(a, SHT_SYMTAB, 0, 0, off, |symbs|, (shstrndx + 0xffff) % 0x1_0000, symcount, 8, SYM_SIZE);
    off := off + PageUp(|symbs|);
    var b := shst.StrOff(STRTAB_NAME);
    ghost var names2 := shst.bs;
    var strSect := Shdr(b, SHT_STRTAB, 0, 0, off, |st.bs|, 0, 0, 1, 0);
    off := off + PageUp(|st.bs|);
    var c := shst.StrOff(SHSTRTAB_NAME);
    var shStrSect := Shdr(c, SHT_STRTAB, 0, 0, off, |shst.bs|, 0, 0, 1, 0);
    x := Extra(symbs, st.bs, shst.bs);
    NameStays(names1, names2, a, SYMTAB_NAME);
    NameStays(names2, shst.bs, a, SYMTAB_NAME);
    NameStays(names2, shst.bs, b, STRTAB_NAME);
    UserHeadersStay(ss, |ss|, shdrs, names0, names1);
    UserHeadersStay(ss, |ss|, shdrs, names1, names2);
    UserHeadersStay(ss, |ss|, shdrs, names2, shst.bs);
    hs := [NULL_SHDR] + shdrs + [symSect, strSect, shStrSect];
    forall i | 0 < i <= |ss| ensures hs[i] == SectionHeader(ss, i - 1, hs[i].name) && Titled(hs[i], x, ss[i - 1].name) {
      assert hs[i] == shdrs[i - 1];
    }
  }

  method WriteExtra(f: File, ss: seq<Section>, x: Extra, ghost hs: seq<Shdr>)
    requires Headers(ss, hs, f.bytes) && Contents(ss, |ss|, f.bytes) && |f.bytes| < SymOff(ss)
    modifies f
    ensures Image(ss, x, hs, f.bytes)
  {
    hide Headers, Contents, HasPiece, PageUp, OffsetOf;
    PageUpIsBeyond(|x.symtab|);
    PageUpIsBeyond(|x.strtab|);
    ghost var f0 := f.bytes;
    var _ := f.WriteSection(x.symtab, SymOff(ss));
    ghost var f1 := f.bytes;
    var _ := f.WriteSection(x.strtab, StrOff(ss, x));
    ghost var f2 := f.bytes;
    var _ := f.WriteSection(x.shstrtab, ShStrOff(ss, x));
    PieceAtEnd(f1, SymOff(ss), x.symtab);
    PieceAtEnd(f2, StrOff(ss, x), x.strtab);
    PieceAtEnd(f.bytes, ShStrOff(ss, x), x.shstrtab);
    PieceStays(f1, f2, SymOff(ss), x.symtab);
    PieceStays(f2, f.bytes, SymOff(ss), x.symtab);
    PieceStays(f2, f.bytes, StrOff(ss, x), x.strtab);
    HeadersStay(ss, hs, f0, f1);
    HeadersStay(ss, hs, f1, f2);
    HeadersStay(ss, hs, f2, f.bytes);
    ContentsStay(ss, |ss|, f0, f1);
    ContentsStay(ss, |ss|, f1, f2);
    ContentsStay(ss, |ss|, f2, f.bytes);
  }

  // ----- what the layout guarantees -----

  lemma HeaderOffsets(ss: seq<Section>, x: Extra, hs: seq<Shdr>)
    requires SectionHeaders(ss, x, hs)
    ensures |hs| == |ss| + 4
    ensures forall i :: 0 < i <= |ss| ==> hs[i].offset == OffsetOf(ss, i - 1) && hs[i].size == |ss[i - 1].data|
    ensures hs[|ss| + 1].offset == SymOff(ss) && hs[|ss| + 1].size == |x.symtab|
    ensures hs[|ss| + 2].offset == StrOff(ss, x) && hs[|ss| + 2].size == |x.strtab|
    ensures hs[|ss| + 3].offset == ShStrOff(ss, x) && hs[|ss| + 3].size == |x.shstrtab|
  {
  }

  /** The regions of the file ascend without overlap: the sections in the order of
      their headers, and before them all headers, exactly if these can be counted. */
  lemma RegionsDisjoint(ss: seq<Section>, x: Extra, hs: seq<Shdr>, i: nat, j: nat)
    requires SectionHeaders(ss, x, hs) && 0 < i < j < |hs|
    ensures HeadersEnd(ss) < hs[i].offset && hs[i].offset + hs[i].size < hs[j].offset
    ensures ShOff(ss) + SHDR_SIZE * |hs| < hs[1].offset <==> CountFits(ss)
  {
    HeadersBelowContents(ss);
    hide SectionHeaders, OffsetOf, PageUp, HeadersEnd, StrOff, ShStrOff;
    var n := |ss|;
    HeaderOffsets(ss, x, hs);
    if j <= n {
      OffsetsAscend(ss, i - 1, j - 1);
    } else {
      ExtraAscend(ss, x);
      if i <= n { OffsetsAscend(ss, i - 1, n); }
    }
  }

  lemma ExtraAscend(ss: seq<Section>, x: Extra)
    ensures HeadersEnd(ss) < SymOff(ss) && SymOff(ss) + |x.symtab| < StrOff(ss, x)
    ensures StrOff(ss, x) + |x.strtab| < ShStrOff(ss, x)
  {
    hide OffsetOf, HeadersEnd;
    OffsetsAscend(ss, |ss|, |ss|);
    PageUpIsBeyond(|x.symtab|);
    PageUpIsBeyond(|x.strtab|);
  }

  /** A program header maps the bytes of its section, and where the section is
      linked at a page boundary, file offset and address agree in the page. */
  lemma SegmentCongruent(ss: seq<Section>, i: nat)
    requires i < |ss| && ss[i].addr % 0x1000 == 0
    ensures ProgramHeader(ss, i).offset == OffsetOf(ss, i) && ProgramHeader(ss, i).filesz == |ss[i].data|
    ensures (ProgramHeader(ss, i).vaddr - ProgramHeader(ss, i).offset) % 0x1000 == 0
  {
    hide OffsetOf, HeadersEnd;
    OffsetsAscend(ss, i, i);
    SumAligned(ss[i].addr, OffsetOf(ss, i));
  }

  // ----- reading the file back -----

  /** The number in some bytes of a file. */
  function Number(file: seq<Byte>, at: nat, n: nat): nat
    requires at + n <= |file|
  {
    Value(file[at..at + n])
  }

  lemma NumberRead(file: seq<Byte>, at: nat, n: nat, x: int)
    requires at + n <= |file| && file[at..at + n] == LE(x, n) && 0 <= x < Pow256(n)
    ensures Number(file, at, n) == x
  {
    ValueOfLittleEndian(x, n);
  }

  lemma Widths()
    ensures Pow256(1) == 0x100 && Pow256(2) == 0x1_0000 && Pow256(4) == 0x1_0000_0000
    ensures Pow256(8) == 0x1_0000_0000_0000_0000
  {
  }

  lemma SubSlice(s: seq<Byte>, a: nat, b: nat, c: nat, d: nat)
    requires a <= b <= |s| && c <= d <= b - a
    ensures s[a..b][c..d] == s[a + c..a + d]
  {
    var x := s[a..b][c..d];
    assert |x| == d - c && forall i :: 0 <= i < d - c ==> x[i] == s[a + c + i];
  }

  /** A field of a piece of the file. */
  lemma FieldRead(file: seq<Byte>, at: nat, piece: seq<Byte>, off: nat, n: nat, x: int)
    requires HasPiece(file, at, piece) && off + n <= |piece| && piece[off..off + n] == LE(x, n) && 0 <= x < Pow256(n)
    ensures at + off + n <= |file| && Number(file, at + off, n) == x
  {
    SubSlice(file, at, at + |piece|, off, off + n);
    NumberRead(file, at + off, n, x);
  }

  const MAX64: nat := 0x1_0000_0000_0000_0000

  lemma EhdrFields(h: Ehdr)
    ensures var bs := EhdrBytes(h);
            && bs[24..32] == LE(ENTRY_ADDR, 8) && bs[32..40] == LE(h.phoff, 8) && bs[40..48] == LE(h.shoff, 8)
            && bs[56..58] == LE(h.phnum, 2) && bs[60..62] == LE(h.shnum, 2) && bs[62..64] == LE(h.shstrndx, 2)
  {
    hide LE;
  }

  /** The ELF header of a written file says where the program and section headers
      are, how many of them there are, and which section holds their names. */
  lemma {:induction false} HeaderReadsBack(ss: seq<Section>, hs: seq<Shdr>, file: seq<Byte>)
    requires Headers(ss, hs, file) && |hs| == |ss| + 4 && CountFits(ss) && ShOff(ss) < MAX64
    ensures |file| >= EHDR_SIZE && Number(file, 24, 8) == ENTRY_ADDR
    ensures Number(file, 32, 8) == EHDR_SIZE && Number(file, 40, 8) == ShOff(ss)
    ensures Number(file, 56, 2) == Loadable(ss, |ss|) && Number(file, 60, 2) == |hs| && Number(file, 62, 2) == |hs| - 1
  {
    hide HasPiece, EhdrBytes, PhdrBytes, ShdrBytes, ProgramHeaders, Number, LE, Loadable;
    var h := Ehdr(EHDR_SIZE, ShOff(ss), Loadable(ss, |ss|), |ss| + 4, |ss| + 3);
    Widths();
    EhdrFields(h);
    LoadableAtMost(ss, |ss|);
    FieldRead(file, 0, EhdrBytes(h), 24, 8, ENTRY_ADDR);
    FieldRead(file, 0, EhdrBytes(h), 32, 8, h.phoff);
    FieldRead(file, 0, EhdrBytes(h), 40, 8, h.shoff);
    FieldRead(file, 0, EhdrBytes(h), 56, 2, h.phnum);
    FieldRead(file, 0, EhdrBytes(h), 60, 2, h.shnum);
    FieldRead(file, 0, EhdrBytes(h), 62, 2, h.shstrndx);
  }

  lemma {:induction false} LoadableAtMost(ss: seq<Section>, n: nat)
    requires n <= |ss|
    ensures Loadable(ss, n) <= n
  {
    if n > 0 { LoadableAtMost(ss, n - 1); }
  }

  lemma ShdrFields(h: Shdr)
    ensures var bs := ShdrBytes(h);
            && bs[0..4] == LE(h.name, 4) && bs[4..8] == LE(h.stype, 4) && bs[16..24] == LE(h.addr, 8)
            && bs[24..32] == LE(h.offset, 8) && bs[32..40] == LE(h.size, 8) && bs[40..44] == LE(h.link, 4)
            && bs[44..48] == LE(h.info, 4) && bs[56..64] == LE(h.entsize, 8)
            && bs[8..16] == LE(h.flags, 8) && bs[48..56] == LE(h.align, 8)
  {
    hide LE;
  }

  /** The numbers of a section header fit its fields. */
  predicate ShdrFits(h: Shdr) {
    && h.name < 0x1_0000_0000 && 0 <= h.stype < 0x1_0000_0000 && h.link < 0x1_0000_0000 && h.info < 0x1_0000_0000
    && h.addr < MAX64 && h.offset < MAX64 && h.size < MAX64 && h.entsize < MAX64
  }

  /** The i-th section header of a written file. */
  lemma SectionHeaderReadsBack(ss: seq<Section>, hs: seq<Shdr>, file: seq<Byte>, i: nat)
    requires Headers(ss, hs, file) && i < |hs| && ShdrFits(hs[i])
    ensures var at, h := ShOff(ss) + SHDR_SIZE * i, hs[i];
            && at + SHDR_SIZE <= |file| && Number(file, at, 4) == h.name && Number(file, at + 4, 4) == h.stype
            && Number(file, at + 16, 8) == h.addr && Number(file, at + 24, 8) == h.offset && Number(file, at + 32, 8) == h.size
            && Number(file, at + 40, 4) == h.link && Number(file, at + 44, 4) == h.info && Number(file, at + 56, 8) == h.entsize
            && (0 <= h.flags < MAX64 ==> Number(file, at + 8, 8) == h.flags)
            && (h.align < MAX64 ==> Number(file, at + 48, 8) == h.align)
  {
    hide HasPiece, ShdrBytes, EhdrBytes, PhdrBytes, ProgramHeaders, Number, LE, ShOff;
    var at, h := ShOff(ss) + SHDR_SIZE * i, hs[i];
    Widths();
    ShdrFields(h);
    FieldRead(file, at, ShdrBytes(h), 0, 4, h.name);
    FieldRead(file, at, ShdrBytes(h), 4, 4, h.stype);
    FieldRead(file, at, ShdrBytes(h), 16, 8, h.addr);
    FieldRead(file, at, ShdrBytes(h), 24, 8, h.offset);
    FieldRead(file, at, ShdrBytes(h), 32, 8, h.size);
    FieldRead(file, at, ShdrBytes(h), 40, 4, h.link);
    FieldRead(file, at, ShdrBytes(h), 44, 4, h.info);
    FieldRead(file, at, ShdrBytes(h), 56, 8, h.entsize);
    if 0 <= h.flags < MAX64 { FieldRead(file, at, ShdrBytes(h), 8, 8, h.flags); }
    if h.align < MAX64 { FieldRead(file, at, ShdrBytes(h), 48, 8, h.align); }
  }

  lemma PhdrFields(h: Phdr)
    ensures var bs := PhdrBytes(h);
            && bs[0..4] == LE(1, 4) && bs[4..8] == LE(h.flags, 4) && bs[8..16] == LE(h.offset, 8)
            && bs[16..24] == LE(h.vaddr, 8) && bs[32..40] == LE(h.filesz, 8) && bs[40..48] == LE(h.filesz, 8)
  {
    hide LE;
  }

  predicate PhdrFits(h: Phdr) {
    0 <= h.flags < 0x1_0000_0000 && h.offset < MAX64 && h.vaddr < MAX64 && h.filesz < MAX64
  }

  lemma PhdrRead(file: seq<Byte>, at: nat, h: Phdr)
    requires HasPiece(file, at, PhdrBytes(h)) && PhdrFits(h)
    ensures at + PHDR_SIZE <= |file| && Number(file, at, 4) == 1 && Number(file, at + 4, 4) == h.flags
    ensures Number(file, at + 8, 8) == h.offset && Number(file, at + 16, 8) == h.vaddr
    ensures Number(file, at + 32, 8) == h.filesz == Number(file, at + 40, 8)
  {
    hide PhdrBytes, Number, LE;
    Widths();
    PhdrFields(h);
    FieldRead(file, at, PhdrBytes(h), 0, 4, 1);
    FieldRead(file, at, PhdrBytes(h), 4, 4, h.flags);
    FieldRead(file, at, PhdrBytes(h), 8, 8, h.offset);
    FieldRead(file, at, PhdrBytes(h), 16, 8, h.vaddr);
    FieldRead(file, at, PhdrBytes(h), 32, 8, h.filesz);
    FieldRead(file, at, PhdrBytes(h), 40, 8, h.filesz);
  }

  /** The program header of a loadable section in a written file: its bytes at its
      offset are loaded at its address. */
  lemma {:induction false} ProgramHeaderReadsBack(ss: seq<Section>, hs: seq<Shdr>, file: seq<Byte>, i: nat)
    requires Headers(ss, hs, file) && i < |ss| && ss[i].loadable && PhdrFits(ProgramHeader(ss, i))
    ensures var at := EHDR_SIZE + PHDR_SIZE * Loadable(ss, i);
            && at + PHDR_SIZE <= |file| && Number(file, at, 4) == 1
            && Number(file, at + 4, 4) == (if ss[i].exec then 5 else if ss[i].writable then 6 else 4)
            && Number(file, at + 8, 8) == OffsetOf(ss, i) && Number(file, at + 16, 8) == ss[i].addr
            && Number(file, at + 32, 8) == |ss[i].data| == Number(file, at + 40, 8)
  {
    hide HasPiece, ShdrBytes, EhdrBytes, PhdrBytes, ProgramHeaders, Number, LE, ShOff, OffsetOf, Loadable;
    ProgramHeaderListed(ss, i, |ss|);
    PhdrRead(file, EHDR_SIZE + PHDR_SIZE * Loadable(ss, i), ProgramHeader(ss, i));
  }

  lemma {:induction false} ProgramHeaderListed(ss: seq<Section>, i: nat, n: nat)
    requires i < n <= |ss| && ss[i].loadable
    ensures Loadable(ss, i) < Loadable(ss, n) && ProgramHeaders(ss, n)[Loadable(ss, i)] == ProgramHeader(ss, i)
  {
    hide ProgramHeader;
    if i < n - 1 { ProgramHeaderListed(ss, i, n - 1); }
  }

  lemma SymFields(y: Sym)
    ensures var bs := SymBytes(y);
            && bs[0..4] == LE(y.name, 4) && bs[4..5] == LE(y.info, 1) && bs[6..8] == LE(y.shndx, 2)
            && bs[8..16] == LE(y.value, 8) && bs[16..24] == LE(y.size, 8)
  {
    hide LE;
  }

  predicate SymFits(y: Sym) {
    && y.name < 0x1_0000_0000 && 0 <= y.info < 0x100 && y.shndx < 0x1_0000 && y.value < MAX64 && y.size < MAX64
  }

  lemma SymRead(table: seq<Byte>, at: nat, y: Sym)
    requires HasPiece(table, at, SymBytes(y)) && SymFits(y)
    ensures at + SYM_SIZE <= |table| && Number(table, at, 4) == y.name && Number(table, at + 4, 1) == y.info
    ensures Number(table, at + 6, 2) == y.shndx && Number(table, at + 8, 8) == y.value && Number(table, at + 16, 8) == y.size
  {
    hide HasPiece, SymBytes, Number, LE;
    Widths();
    SymFields(y);
    FieldRead(table, at, SymBytes(y), 0, 4, y.name);
    FieldRead(table, at, SymBytes(y), 4, 1, y.info);
    FieldRead(table, at, SymBytes(y), 6, 2, y.shndx);
    FieldRead(table, at, SymBytes(y), 8, 8, y.value);
    FieldRead(table, at, SymBytes(y), 16, 8, y.size);
  }

  /** A symbol in the table of a written file: its name, kind, section, address and
      size. */
  lemma {:induction false} SymbolReadsBack(ss: seq<Section>, symtab: seq<Byte>, strtab: seq<Byte>, i: nat, j: nat)
    requires SymbolTable(ss, |ss|, symtab, strtab) && CountFits(ss) && |strtab| < 0x1_0000_0000
    requires i < |ss| && ss[i].loadable && j < |ss[i].syms| && SymFits(SymbolEntry(ss, i, j, 0))
    ensures var at, y := SYM_SIZE * (1 + SymbolsBefore(ss, i) + j), ss[i].syms[j];
            && at + SYM_SIZE <= |symtab| && NameAt(strtab, Number(symtab, at, 4), y.name)
            && Number(symtab, at + 4, 1) == (if y.isFunc then 2 else 1) && Number(symtab, at + 6, 2) == i + 1
            && Number(symtab, at + 8, 8) == y.address && Number(symtab, at + 16, 8) == y.size
  {
    hide HasPiece, SymBytes, Number, LE, SymbolsBefore;
    assert SymbolListed(ss, symtab, strtab, i, j);
    var at, s := SYM_SIZE * (1 + SymbolsBefore(ss, i) + j), ss[i].syms[j];
    var name: nat :| NameAt(strtab, name, s.name) && HasPiece(symtab, at, SymBytes(SymbolEntry(ss, i, j, name)));
    SymRead(symtab, at, SymbolEntry(ss, i, j, name));
  }
}
