/** What a system that follows the System V gABI (chapters 4 and 5, and the AMD64
    supplement) makes of an executable file: it reads the headers from the bytes and
    maps the loadable segments. */
module Loading {
  import opened Wrappers
  import opened Bytes
  import opened Elf

  /** Bytes at an address; the rest of the memory asked for is zero. */
  datatype Segment = Segment(
    vaddr: nat, readable: bool, writable: bool, executable: bool, content: seq<Byte>, memory: nat)

  /** A process image: where it starts, and its segments. */
  datatype Process = Process(entry: nat, segments: seq<Segment>)

  const PT_LOAD: nat := 1
  const ET_EXEC: nat := 2
  const EM_X86_64: nat := 62
  const EV_CURRENT: nat := 1

  /** The magic number, 64-bit objects, the low byte first, the current version. */
  predicate Identified(file: seq<Byte>) {
    |file| >= 64 && file[..4] == [0x7f, 'E' as int, 'L' as int, 'F' as int] && file[4..7] == [2, 1, 1]
  }

  /** An executable file for the AMD64, with headers of the sizes of that class. */
  predicate IsExecutable(file: seq<Byte>) {
    && Identified(file)
    && Number(file, 16, 2) == ET_EXEC && Number(file, 18, 2) == EM_X86_64 && Number(file, 20, 4) == EV_CURRENT
    && Number(file, 52, 2) == 64 && Number(file, 54, 2) == 56
  }

  /** Alignments are 0, 1 or powers of two. */
  predicate PowerOfTwo(n: nat) { n == 1 || (n > 1 && n % 2 == 0 && PowerOfTwo(n / 2)) }

  /** Address and offset agree modulo the alignment. */
  predicate Aligned(vaddr: nat, offset: nat, align: nat) {
    align == 0 || (PowerOfTwo(align) && vaddr % align == offset % align)
  }

  /** The segment that a program header describes. */
  function ReadSegment(file: seq<Byte>, at: nat): Option<Segment>
    requires at + 56 <= |file|
  {
    var (flags, offset, vaddr) := (Number(file, at + 4, 4), Number(file, at + 8, 8), Number(file, at + 16, 8));
    var (size, memory, align) := (Number(file, at + 32, 8), Number(file, at + 40, 8), Number(file, at + 48, 8));
    if offset + size > |file| || memory < size || !Aligned(vaddr, offset, align) then None
    else Some(Segment(vaddr, flags / 4 % 2 == 1, flags / 2 % 2 == 1, flags % 2 == 1, file[offset..offset + size], memory))
  }

  /** The loadable segments of a table of n program headers. */
  function ReadSegments(file: seq<Byte>, at: nat, n: nat): Option<seq<Segment>>
    decreases n
  {
    if n == 0 then Some([])
    else if at + 56 > |file| then None
    else
      var rest := ReadSegments(file, at + 56, n - 1);
      if rest.None? || Number(file, at, 4) != PT_LOAD then rest
      else
        var first := ReadSegment(file, at);
        if first.None? then None else Some([first.value] + rest.value)
  }

  function Load(file: seq<Byte>): Option<Process> {
    if !IsExecutable(file) then None
    else
      var segments := ReadSegments(file, Number(file, 32, 8), Number(file, 56, 2));
      if segments.None? then None else Some(Process(Number(file, 24, 8), segments.value))
  }

  // ----- a written file -----

  /** The segment that a section is to become. */
  function SegmentOf(s: Section): Segment {
    Segment(s.addr, true, s.writable && !s.exec, s.exec, s.data, |s.data|)
  }

  /** The segments of the sections from n on that are to be loaded. */
  function SegmentsFrom(ss: seq<Section>, n: nat): seq<Segment>
    requires n <= |ss|
    decreases |ss| - n
  {
    if n == |ss| then [] else (if ss[n].loadable then [SegmentOf(ss[n])] else []) + SegmentsFrom(ss, n + 1)
  }

  /** Sections at page boundaries, whose addresses and offsets are numbers of 64 bits. */
  predicate Mappable(ss: seq<Section>) {
    forall i :: 0 <= i < |ss| && ss[i].loadable ==>
      ss[i].addr % 0x1000 == 0 && ss[i].addr < MAX64 && OffsetOf(ss, i) < MAX64 && |ss[i].data| < MAX64
  }

  lemma PageIsPower()
    ensures PowerOfTwo(8) && PowerOfTwo(0x1000)
  {
    assert PowerOfTwo(0x1000 / 2 / 2 / 2 / 2 / 2 / 2 / 2 / 2 / 2);
    assert PowerOfTwo(0x1000 / 2 / 2 / 2 / 2 / 2 / 2);
    assert PowerOfTwo(0x1000 / 2 / 2 / 2);
  }

  /** The alignment of a section's segment divides the page. */
  lemma PagesAgree(vaddr: nat, offset: nat, align: nat)
    requires vaddr % 0x1000 == 0 && offset % 0x1000 == 0 && (align == 8 || align == 0x1000)
    ensures Aligned(vaddr, offset, align)
  {
    PageIsPower();
    DividesPage(vaddr);
    DividesPage(offset);
    hide PowerOfTwo;
  }

  lemma DividesPage(n: nat)
    requires n % 0x1000 == 0
    ensures n % 8 == 0
  {
    assert n == 8 * (n / 0x1000 * 0x200);
  }

  lemma ContentRead(file: seq<Byte>, at: nat, piece: seq<Byte>)
    requires HasPiece(file, at, piece)
    ensures at + |piece| <= |file| && file[at..at + |piece|] == piece
  {
  }

  /** The header of a loadable section reads as its segment. */
  lemma SegmentRead(ss: seq<Section>, hs: seq<Shdr>, file: seq<Byte>, i: nat)
    requires Headers(ss, hs, file) && Contents(ss, |ss|, file) && Mappable(ss) && i < |ss| && ss[i].loadable
    ensures var at := EHDR_SIZE + PHDR_SIZE * Loadable(ss, i);
            at + 56 <= |file| && Number(file, at, 4) == PT_LOAD && ReadSegment(file, at) == Some(SegmentOf(ss[i]))
  {
    hide Headers, HasPiece, Number, OffsetOf, Aligned, Loadable;
    ProgramHeaderReadsBack(ss, hs, file, i);
    AlignReadsBack(ss, hs, file, i);
    OffsetsAscend(ss, i, i);
    PagesAgree(ss[i].addr, OffsetOf(ss, i), if ss[i].exec then 0x1000 else 8);
    ContentRead(file, OffsetOf(ss, i), ss[i].data);
  }

  lemma AlignReadsBack(ss: seq<Section>, hs: seq<Shdr>, file: seq<Byte>, i: nat)
    requires Headers(ss, hs, file) && i < |ss| && ss[i].loadable
    ensures var at := EHDR_SIZE + PHDR_SIZE * Loadable(ss, i);
            at + PHDR_SIZE <= |file| && Number(file, at + 48, 8) == if ss[i].exec then 0x1000 else 8
  {
    hide HasPiece, ShdrBytes, EhdrBytes, PhdrBytes, ProgramHeaders, Number, LE, ShOff, OffsetOf, Loadable;
    ProgramHeaderListed(ss, i, |ss|);
    var h := ProgramHeader(ss, i);
    AlignField(h);
    Widths();
    FieldRead(file, EHDR_SIZE + PHDR_SIZE * Loadable(ss, i), PhdrBytes(h), 48, 8, h.align);
  }

  lemma AlignField(h: Phdr)
    ensures PhdrBytes(h)[48..56] == LE(h.align, 8)
  {
    hide LE;
  }

  lemma {:induction false} SegmentsRead(ss: seq<Section>, hs: seq<Shdr>, file: seq<Byte>, i: nat)
    requires Headers(ss, hs, file) && Contents(ss, |ss|, file) && Mappable(ss) && i <= |ss|
    ensures Loadable(ss, i) <= Loadable(ss, |ss|)
    ensures ReadSegments(file, EHDR_SIZE + PHDR_SIZE * Loadable(ss, i), Loadable(ss, |ss|) - Loadable(ss, i)) ==
            Some(SegmentsFrom(ss, i))
    decreases |ss| - i
  {
    hide Headers, Contents, Mappable, HasPiece, Number, ReadSegment, SegmentOf;
    if i < |ss| {
      SegmentsRead(ss, hs, file, i + 1);
      var at, n := EHDR_SIZE + PHDR_SIZE * Loadable(ss, i), Loadable(ss, |ss|) - Loadable(ss, i);
      if ss[i].loadable {
        SegmentRead(ss, hs, file, i);
        var rest := ReadSegments(file, at + 56, n - 1);
        assert rest == Some(SegmentsFrom(ss, i + 1));
        assert ReadSegments(file, at, n) == Some([SegmentOf(ss[i])] + rest.value);
      } else {
        assert [] + SegmentsFrom(ss, i + 1) == SegmentsFrom(ss, i + 1);
      }
    }
  }

  lemma IdentFields(h: Ehdr)
    ensures var bs := EhdrBytes(h);
            && bs[..4] == [0x7f, 'E' as int, 'L' as int, 'F' as int] && bs[4..7] == [2, 1, 1]
            && bs[16..18] == LE(2, 2) && bs[18..20] == LE(62, 2) && bs[20..24] == LE(1, 4)
            && bs[52..54] == LE(64, 2) && bs[54..56] == LE(56, 2)
  {
    hide LE;
  }

  lemma ExecutableRead(ss: seq<Section>, hs: seq<Shdr>, file: seq<Byte>)
    requires Headers(ss, hs, file)
    ensures IsExecutable(file)
  {
    hide HasPiece, EhdrBytes, PhdrBytes, ShdrBytes, ProgramHeaders, Number, LE, Loadable;
    var h := Ehdr(EHDR_SIZE, ShOff(ss), Loadable(ss, |ss|), |ss| + 4, |ss| + 3);
    Widths();
    IdentFields(h);
    ContentRead(file, 0, EhdrBytes(h));
    SubSlice(file, 0, 64, 0, 4);
    SubSlice(file, 0, 64, 4, 7);
    FieldRead(file, 0, EhdrBytes(h), 16, 2, 2);
    FieldRead(file, 0, EhdrBytes(h), 18, 2, 62);
    FieldRead(file, 0, EhdrBytes(h), 20, 4, 1);
    FieldRead(file, 0, EhdrBytes(h), 52, 2, 64);
    FieldRead(file, 0, EhdrBytes(h), 54, 2, 56);
  }

  /** A written file is an executable, and it loads as the sections that it was to
      hold: each at its address, with its bytes and permissions, and no others. */
  lemma LoadsSections(ss: seq<Section>, x: Extra, hs: seq<Shdr>, file: seq<Byte>)
    requires Image(ss, x, hs, file) && |hs| == |ss| + 4 && CountFits(ss) && ShOff(ss) < MAX64 && Mappable(ss)
    ensures Load(file) == Some(Process(ENTRY_ADDR, SegmentsFrom(ss, 0)))
  {
    hide Headers, Contents, Mappable, HasPiece, Number, ReadSegments, SegmentsFrom;
    ExecutableRead(ss, hs, file);
    HeaderReadsBack(ss, hs, file);
    SegmentsRead(ss, hs, file, 0);
  }
}
