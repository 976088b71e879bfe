/** From object files to an executable (linker.go, LinkExe): the sections of the
    linked binary as those of the ELF file. */
module Executable {
  import opened Wrappers
  import opened Bytes
  import opened ObjectFile
  import opened Linkage
  import Linking
  import Elf
  import Loading
  import Objects

  /** A name as bytes. */
  function NameBytes(s: string): seq<Byte> { seq(|s|, i requires 0 <= i < |s| => (s[i] as int) % 256) }

  function ElfSymbols(syms: seq<SectSym>, isFunc: bool): (ys: seq<Elf.Symbol>)
    ensures |ys| == |syms|
    ensures forall i :: 0 <= i < |syms| ==> ys[i] == Elf.Symbol(NameBytes(syms[i].name), isFunc, syms[i].address, syms[i].size)
  {
    if syms == [] then []
    else [Elf.Symbol(NameBytes(syms[0].name), isFunc, syms[0].address, syms[0].size)] + ElfSymbols(syms[1..], isFunc)
  }

  const SHF_ALLOC: int := 2

  function ElfSection(s: Linking.Section, writable: bool, exec: bool): Elf.Section
    requires s.offset >= 0
  {
    Elf.Section(NameBytes(s.name), 1, SHF_ALLOC + (if writable then Elf.SHF_WRITE else 0) +
                (if exec then Elf.SHF_EXECINSTR else 0),
                writable, exec, s.offset, s.val, true, ElfSymbols(s.symbols, exec))
  }

  predicate Placed(bin: Linking.LinkedBin) { bin.text.offset >= 0 && bin.data.offset >= 0 && bin.bss.offset >= 0 }

  /** Code, writable variables, and constants. */
  function ElfSections(bin: Linking.LinkedBin): seq<Elf.Section>
    requires Placed(bin)
  {
    [ElfSection(bin.text, false, true), ElfSection(bin.data, true, false), ElfSection(bin.bss, false, false)]
  }

  /** The program headers of a linked binary map its sections to the addresses it
      was linked for, at file offsets that agree with them in the page, and the
      entry address of the file is that of the entry function. */
  lemma LoadedWhereLinked(p: Program, bin: Linking.LinkedBin)
    requires Linking.Linked(p, Elf.ENTRY_ADDR, bin)
    ensures Placed(bin) && Linking.AddressOf(bin, Code(ENTRY)) == Some(Elf.ENTRY_ADDR)
    ensures var ss := ElfSections(bin);
            forall i :: 0 <= i < 3 ==>
              var h := Elf.ProgramHeader(ss, i);
              && h.vaddr == ss[i].addr && h.filesz == |ss[i].data| && (h.vaddr - h.offset) % 0x1000 == 0
    ensures var ss := ElfSections(bin);
            && ss[0].data == bin.text.val && ss[1].data == bin.data.val && ss[2].data == bin.bss.val
            && ss[0].addr == bin.text.offset && ss[1].addr == bin.data.offset && ss[2].addr == bin.bss.offset
  {
    hide Linking.HoldsReachable, Linking.AllInOrder, Linking.NoneOverlap, Linking.AddressOf;
    PagesAfter(Elf.ENTRY_ADDR, |bin.text.val|, |bin.data.val|);
    var ss := ElfSections(bin);
    assert ss[0].addr % 0x1000 == 0 && ss[1].addr % 0x1000 == 0 && ss[2].addr % 0x1000 == 0;
    Elf.SegmentCongruent(ss, 0);
    Elf.SegmentCongruent(ss, 1);
    Elf.SegmentCongruent(ss, 2);
  }

  /** Bit k of some flags. */
  predicate Bit(flags: int, k: nat)
    requires k < 3
  {
    flags / [1, 2, 4][k] % 2 == 1
  }

  /** All three segments may be read; only the variables may be written, and only the
      code may be run.  The sections say so, too. */
  lemma Permissions(bin: Linking.LinkedBin, i: nat, name: nat)
    requires Placed(bin) && i < 3
    ensures var flags := Elf.ProgramHeader(ElfSections(bin), i).flags;
            Bit(flags, 2) && (Bit(flags, 1) <==> i == 1) && (Bit(flags, 0) <==> i == 0)
    ensures var flags := Elf.SectionHeader(ElfSections(bin), i, name).flags;
            Bit(flags, 1) && (Bit(flags, 0) <==> i == 1) && (Bit(flags, 2) <==> i == 0)
  {
    hide Elf.OffsetOf, ElfSymbols, NameBytes;
    var ss := ElfSections(bin);
    assert ss[i].exec == (i == 0) && ss[i].writable == (i == 1);
  }

  /** What a linked binary is to be in memory: the code, which may be run, the
      variables, which may be written, and the constants, each where it was linked. */
  function ProcessOf(bin: Linking.LinkedBin, entry: nat): Loading.Process
    requires Placed(bin)
  {
    Loading.Process(entry, [
      Loading.Segment(bin.text.offset, true, false, true, bin.text.val, |bin.text.val|),
      Loading.Segment(bin.data.offset, true, true, false, bin.data.val, |bin.data.val|),
      Loading.Segment(bin.bss.offset, true, false, false, bin.bss.val, |bin.bss.val|)])
  }

  lemma PageAfterAtMost(n: nat)
    ensures n < PageAfter(n) <= n + 0x1000 && PageAfter(n) % 0x1000 == 0
  {
  }

  lemma AllMappable(p: Program, bin: Linking.LinkedBin)
    requires Linking.Linked(p, Elf.ENTRY_ADDR, bin) && Linking.Small(bin) && Placed(bin)
    ensures Loading.Mappable(ElfSections(bin)) && Elf.ShOff(ElfSections(bin)) < Elf.MAX64
  {
    hide Linking.HoldsReachable, Linking.AllInOrder, Linking.NoneOverlap, Linking.AddressOf, Elf.PageUp, ElfSymbols, NameBytes;
    hide PageAfter;
    var ss := ElfSections(bin);
    PageAfterAtMost(bin.text.offset + |bin.text.val|);
    PageAfterAtMost(bin.data.offset + |bin.data.val|);
    assert Elf.Loadable(ss, 3) <= 3 by { Elf.LoadableAtMost(ss, 3); }
    Elf.PageUpIsBeyond(Elf.HeadersEnd(ss));
    Elf.PageUpIsBeyond(|ss[0].data|);
    Elf.PageUpIsBeyond(|ss[1].data|);
    assert Elf.OffsetOf(ss, 0) <= 0x1_0000 && Elf.OffsetOf(ss, 1) <= 0x2_0000_0000 && Elf.OffsetOf(ss, 2) <= 0x4_0000_0000;
  }

  lemma SegmentsAre(bin: Linking.LinkedBin, entry: nat)
    requires Placed(bin)
    ensures Loading.Process(entry, Loading.SegmentsFrom(ElfSections(bin), 0)) == ProcessOf(bin, entry)
  {
    hide ElfSymbols, NameBytes;
    var ss := ElfSections(bin);
    assert Loading.SegmentsFrom(ss, 3) == [] && Loading.SegmentsFrom(ss, 2) == [Loading.SegmentOf(ss[2])] + [];
    assert Loading.SegmentsFrom(ss, 1) == [Loading.SegmentOf(ss[1])] + Loading.SegmentsFrom(ss, 2);
  }

  /** The file of a linked binary, read by the System V gABI, is loaded as that binary
      and started at its entry function. */
  lemma LoadsAsLinked(p: Program, bin: Linking.LinkedBin, x: Elf.Extra, hs: seq<Elf.Shdr>, file: seq<Byte>)
    requires Linking.Linked(p, Elf.ENTRY_ADDR, bin) && Linking.Small(bin) && Placed(bin)
    requires Elf.SectionHeaders(ElfSections(bin), x, hs) && Elf.Image(ElfSections(bin), x, hs, file)
    ensures exists entry: nat ::
              Linking.AddressOf(bin, Code(ENTRY)) == Some(entry) && Loading.Load(file) == Some(ProcessOf(bin, entry))
  {
    hide Elf.Image, Loading.Mappable, Loading.Load, Linking.Linked, Elf.ShOff;
    LoadedWhereLinked(p, bin);
    AllMappable(p, bin);
    SegmentsAre(bin, Elf.ENTRY_ADDR);
    Loading.LoadsSections(ElfSections(bin), x, hs, file);
  }

  /** Links object files and writes the executable. */
  method LinkExe(os: seq<OFile>)
    returns (ok: bool, p: Program, bin: Linking.LinkedBin, file: seq<Byte>, hs: seq<Elf.Shdr>, x: Elf.Extra)
    requires Objects.ObjectsStamped(os)
    requires forall p :: Objects.Merged(os, p) ==> Fits(p) && Linking.WellSlotted(p)
    ensures ok ==> Objects.Merged(os, p) && Linking.Linked(p, Elf.ENTRY_ADDR, bin) && Placed(bin)
    ensures ok ==> Elf.SectionHeaders(ElfSections(bin), x, hs) && Elf.Image(ElfSections(bin), x, hs, file)
    ensures ok ==> exists entry: nat ::
              Linking.AddressOf(bin, Code(ENTRY)) == Some(entry) && Loading.Load(file) == Some(ProcessOf(bin, entry))
    ensures !ok ==> Objects.Clash(os) || (Objects.Merged(os, p) && !Linkable(p))
  {
    hide Elf.SectionHeaders, Elf.Image, Objects.Merged, Objects.Clash, Linkable, Linking.WellSlotted, Fits,
      Objects.ObjectsStamped;
    hs, x, file := [], Elf.Extra([], [], []), [];
    ok, p, bin := Objects.Link(os, Elf.ENTRY_ADDR);
    if !ok { return; }
    LoadedWhereLinked(p, bin);
    ok, file, hs, x := Elf.WriteElf(ElfSections(bin));
    if ok { LoadsAsLinked(p, bin, x, hs, file); }
  }
}
