/** Type descriptors and interface descriptors as byte records (typeinfo.go): a
    head, a table of method entries, the names, and the borrow masks, each
    reached by offsets from the start. */
module TypeInfo {
  import opened Bytes
  import opened ObjectFile

  /** The two records differ in their head and in the entry's function pointer. */
  datatype Kind = Typedesc | IfaceDesc

  /** `extra` is the receiver shape or the declaration index; only a typedesc
      method has a function. */
  datatype Method = Method(
    name: seq<Byte>, sig: seq<Byte>, nameHash: nat, sigHash: nat, extra: nat, fnSym: string, slotMasks: seq<nat>)

  datatype Record = Record(name: seq<Byte>, sizeBytes: nat, cacheSym: string, methods: seq<Method>)

  const TWO64: int := 0x1_0000_0000_0000_0000

  // ----- layout, in 8-byte words -----

  function HeadWords(k: Kind): nat { if k.Typedesc? then 5 else 3 }

  function EntryWords(k: Kind): nat { if k.Typedesc? then 9 else 8 }

  /** The column of an entry that holds the offset of its masks. */
  function MaskColumn(k: Kind): nat { EntryWords(k) - 1 }

  const CACHE_WORD: nat := 3
  const FN_COLUMN: nat := 7

  /** The offset of the first byte of an entry. */
  function EntryAt(k: Kind, i: nat): nat { 8 * HeadWords(k) + i * (8 * EntryWords(k)) }

  /** The names follow the last entry. */
  function BlobStart(k: Kind, methods: nat): nat { EntryAt(k, methods) }

  /** The names of the record and of its first methods. */
  function Blob(rec: Record, i: nat): seq<Byte>
    requires i <= |rec.methods|
  {
    if i == 0 then rec.name else Blob(rec, i - 1) + rec.methods[i - 1].name + rec.methods[i - 1].sig
  }

  function Words(ws: seq<nat>): (bs: seq<Byte>)
    ensures |bs| == 8 * |ws|
  {
    if ws == [] then [] else LittleEndian(ws[0], 8) + Words(ws[1..])
  }

  /** A borrow descriptor: the number of slots, then their masks. */
  function SlotMaskBytes(masks: seq<nat>): seq<Byte> { LittleEndian(|masks|, 8) + Words(masks) }

  /** The descriptors of the first methods; one without masks has none. */
  function Masks(rec: Record, i: nat): seq<Byte>
    requires i <= |rec.methods|
  {
    if i == 0 then []
    else Masks(rec, i - 1) + if rec.methods[i - 1].slotMasks == [] then [] else SlotMaskBytes(rec.methods[i - 1].slotMasks)
  }

  function MasksStart(k: Kind, rec: Record): nat { BlobStart(k, |rec.methods|) + |Blob(rec, |rec.methods|)| }

  /** Zero says that a method has no masks. */
  function MaskOffset(k: Kind, rec: Record, i: nat): nat
    requires i < |rec.methods|
  {
    if rec.methods[i].slotMasks == [] then 0 else MasksStart(k, rec) + |Masks(rec, i)|
  }

  function HeadWord(k: Kind, rec: Record, w: nat): nat {
    if w == 0 then BlobStart(k, |rec.methods|)
    else if w == 1 then |rec.name|
    else if w == HeadWords(k) - 1 then |rec.methods|
    else if w == 2 then rec.sizeBytes
    else 0
  }

  function EntryWord(k: Kind, rec: Record, i: nat, c: nat): nat
    requires i < |rec.methods|
  {
    var m := rec.methods[i];
    var at := BlobStart(k, |rec.methods|) + |Blob(rec, i)|;
    if c == 0 then at
    else if c == 1 then |m.name|
    else if c == 2 then at + |m.name|
    else if c == 3 then |m.sig|
    else if c == 4 then m.nameHash
    else if c == 5 then m.sigHash
    else if c == 6 then m.extra
    else if c == MaskColumn(k) then MaskOffset(k, rec, i)
    else 0
  }

  ghost predicate HasWord(b: seq<Byte>, at: int, w: int) {
    0 <= at && at + 8 <= |b| && b[at..at + 8] == LittleEndian(w, 8)
  }

  /** The bytes are those of the record. */
  ghost predicate Encodes(k: Kind, rec: Record, b: seq<Byte>) {
    var n := |rec.methods|;
    && |b| == MasksStart(k, rec) + |Masks(rec, n)|
    && (forall w :: 0 <= w < HeadWords(k) ==> HasWord(b, 8 * w, HeadWord(k, rec, w)))
    && (forall i, c :: 0 <= i < n && 0 <= c < EntryWords(k) ==> HasWord(b, EntryAt(k, i) + 8 * c, EntryWord(k, rec, i, c)))
    && b[BlobStart(k, n)..MasksStart(k, rec)] == Blob(rec, n)
    && b[MasksStart(k, rec)..] == Masks(rec, n)
  }

  /** One relocation for the cache, one for each function. */
  function Relocs(k: Kind, rec: Record): seq<DataReloc> {
    if k.IfaceDesc? then [] else [DataReloc(8 * CACHE_WORD, rec.cacheSym, 0)] + FnRelocs(rec, |rec.methods|)
  }

  function FnRelocs(rec: Record, i: nat): seq<DataReloc>
    requires i <= |rec.methods|
  {
    if i == 0 then []
    else FnRelocs(rec, i - 1) + [DataReloc(Uint32(EntryAt(Typedesc, i - 1) + 8 * FN_COLUMN), rec.methods[i - 1].fnSym, 0)]
  }

  // ----- decoding -----

  function Word(b: seq<Byte>, at: nat): nat
    requires at + 8 <= |b|
  {
    Value(b[at..at + 8])
  }

  function GetStr(b: seq<Byte>, off: nat, length: nat): seq<Byte> {
    if off + length > |b| then [] else b[off..off + length]
  }

  function RelAt(relocs: seq<DataReloc>, off: nat): string {
    if relocs == [] then "" else if relocs[0].offset == off then relocs[0].symbol else RelAt(relocs[1..], off)
  }

  function MaskWords(b: seq<Byte>, at: nat, n: nat): (ms: seq<nat>)
    requires at + 8 * n <= |b|
    ensures |ms| == n
    decreases n
  {
    if n == 0 then [] else [Word(b, at)] + MaskWords(b, at + 8, n - 1)
  }

  /** The masks at some offset; an offset of zero, or one that does not fit, has none. */
  function SlotMasksAt(b: seq<Byte>, off: nat): seq<nat> {
    if off == 0 || off + 8 > |b| then []
    else
      var n := Word(b, off);
      if off + 8 + 8 * n > |b| then [] else MaskWords(b, off + 8, n)
  }

  function MethodAt(k: Kind, b: seq<Byte>, relocs: seq<DataReloc>, i: nat): Method
    requires EntryAt(k, i + 1) <= |b|
  {
    var base := EntryAt(k, i);
    MethodOf(
      b, Word(b, base), Word(b, base + 8), Word(b, base + 16), Word(b, base + 24), Word(b, base + 32), Word(b, base + 40),
      Word(b, base + 48), if k.Typedesc? then RelAt(relocs, Uint32(base + 8 * FN_COLUMN)) else "",
      Word(b, base + 8 * MaskColumn(k)))
  }

  function MethodOf(b: seq<Byte>, nameOff: nat, nameLen: nat, sigOff: nat, sigLen: nat, nameHash: nat, sigHash: nat,
                    extra: nat, fnSym: string, maskOff: nat): Method {
    Method(GetStr(b, nameOff, nameLen), GetStr(b, sigOff, sigLen), nameHash, sigHash, extra, fnSym, SlotMasksAt(b, maskOff))
  }

  /** The entries from i on, as long as they lie in the record. */
  function MethodsFrom(k: Kind, b: seq<Byte>, relocs: seq<DataReloc>, i: nat, n: nat): seq<Method>
    decreases n - i
  {
    if i >= n || EntryAt(k, i + 1) > |b| then []
    else [MethodAt(k, b, relocs, i)] + MethodsFrom(k, b, relocs, i + 1, n)
  }

  function Decode(k: Kind, b: seq<Byte>, relocs: seq<DataReloc>): Record {
    if |b| < 8 * HeadWords(k) then Record([], 0, "", [])
    else Record(
      GetStr(b, Word(b, 0), Word(b, 8)),
      if k.Typedesc? then Word(b, 16) else 0,
      if k.Typedesc? then RelAt(relocs, 8 * CACHE_WORD) else "",
      MethodsFrom(k, b, relocs, 0, Word(b, 8 * (HeadWords(k) - 1))))
  }

  // ----- round trip -----

  /** All numbers are 64 bits wide, and the record is smaller than 4 GiB; an
      interface descriptor has neither size nor symbols. */
  ghost predicate Encodable(k: Kind, rec: Record) {
    && MasksStart(k, rec) + |Masks(rec, |rec.methods|)| < TWO32
    && rec.sizeBytes < TWO64
    && (forall i :: 0 <= i < |rec.methods| ==> EncodableMethod(rec.methods[i]))
    && (k.IfaceDesc? ==> rec.sizeBytes == 0 && rec.cacheSym == "" && forall i :: 0 <= i < |rec.methods| ==> rec.methods[i].fnSym == "")
  }

  predicate EncodableMethod(m: Method) {
    && m.nameHash < TWO64 && m.sigHash < TWO64 && m.extra < TWO64
    && forall i :: 0 <= i < |m.slotMasks| ==> m.slotMasks[i] < TWO64
  }

  lemma WordRead(b: seq<Byte>, at: nat, w: nat)
    requires HasWord(b, at, w) && w < TWO64
    ensures Word(b, at) == w
  {
    assert Pow256(8) == TWO64;
    ValueOfLittleEndian(w, 8);
  }

  /** Where the names of a method lie. */
  lemma {:induction false} BlobGrows(rec: Record, i: nat, n: nat)
    requires i <= n <= |rec.methods|
    ensures |Blob(rec, i)| <= |Blob(rec, n)| && Blob(rec, n)[..|Blob(rec, i)|] == Blob(rec, i)
    decreases n
  {
    if i < n {
      BlobGrows(rec, i, n - 1);
      assert Blob(rec, n)[..|Blob(rec, n - 1)|] == Blob(rec, n - 1);
      assert Blob(rec, n)[..|Blob(rec, i)|] == Blob(rec, n - 1)[..|Blob(rec, i)|];
    } else {
      assert Blob(rec, n)[..|Blob(rec, i)|] == Blob(rec, n);
    }
  }

  lemma {:induction false} MasksGrow(rec: Record, i: nat, n: nat)
    requires i <= n <= |rec.methods|
    ensures |Masks(rec, i)| <= |Masks(rec, n)| && Masks(rec, n)[..|Masks(rec, i)|] == Masks(rec, i)
    decreases n
  {
    hide SlotMaskBytes;
    if i < n {
      MasksGrow(rec, i, n - 1);
      assert Masks(rec, n)[..|Masks(rec, n - 1)|] == Masks(rec, n - 1);
      SubSlice(Masks(rec, n), 0, |Masks(rec, n - 1)|, 0, |Masks(rec, i)|);
    } else {
      assert Masks(rec, n)[..|Masks(rec, i)|] == Masks(rec, n);
    }
  }

  lemma {:induction false} MaskWordsRead(b: seq<Byte>, at: nat, masks: seq<nat>)
    requires at + 8 * |masks| <= |b| && b[at..at + 8 * |masks|] == Words(masks)
    requires forall i :: 0 <= i < |masks| ==> masks[i] < TWO64
    ensures MaskWords(b, at, |masks|) == masks
    decreases |masks|
  {
    hide LittleEndian, Word;
    if masks != [] {
      var n := 8 * |masks|;
      SubSlice(b, at, at + n, 0, 8);
      SubSlice(b, at, at + n, 8, n);
      assert Words(masks)[0..8] == LittleEndian(masks[0], 8) && Words(masks)[8..n] == Words(masks[1..]);
      WordRead(b, at, masks[0]);
      MaskWordsRead(b, at + 8, masks[1..]);
    }
  }

  lemma {:induction false} FnRelocFound(rec: Record, i: nat, n: nat, before: seq<DataReloc>)
    requires i < n <= |rec.methods| && EntryAt(Typedesc, n) < TWO32
    requires forall r <- before :: r.offset < EntryAt(Typedesc, 0) + 8 * FN_COLUMN
    ensures RelAt(before + FnRelocs(rec, n), EntryAt(Typedesc, i) + 8 * FN_COLUMN) == rec.methods[i].fnSym
    decreases n
  {
    var last := FnRelocs(rec, n);
    FnRelocsAre(rec, n);
    RelAtIndex(before + last, |before| + i);
  }

  lemma {:induction false} FnRelocsAre(rec: Record, n: nat)
    requires n <= |rec.methods| && EntryAt(Typedesc, n) < TWO32
    ensures |FnRelocs(rec, n)| == n
    ensures forall i :: 0 <= i < n ==>
              FnRelocs(rec, n)[i] == DataReloc(EntryAt(Typedesc, i) + 8 * FN_COLUMN, rec.methods[i].fnSym, 0)
  {
    if n > 0 { FnRelocsAre(rec, n - 1); }
  }

  lemma {:induction false} RelAtIndex(relocs: seq<DataReloc>, i: nat)
    requires i < |relocs| && forall j :: 0 <= j < i ==> relocs[j].offset != relocs[i].offset
    ensures RelAt(relocs, relocs[i].offset) == relocs[i].symbol
  {
    if i > 0 {
      assert relocs[1..][i - 1] == relocs[i];
      RelAtIndex(relocs[1..], i - 1);
    }
  }

  lemma SubSlice(s: seq<Byte>, a: nat, b: nat, c: nat, d: nat)
    requires a <= b <= |s| && c <= d <= b - a
    ensures s[a..b][c..d] == s[a + c..a + d]
  {
    var x := s[a..b][c..d];
    assert |x| == d - c && forall i :: 0 <= i < d - c ==> x[i] == s[a + c + i];
  }

  lemma ThreeParts(s: seq<Byte>, a: seq<Byte>, x: seq<Byte>, y: seq<Byte>)
    requires |a| + |x| + |y| <= |s| && s[..|a| + |x| + |y|] == a + x + y
    ensures s[|a|..|a| + |x|] == x && s[|a| + |x|..|a| + |x| + |y|] == y
  {
  }

  /** A piece of the names, read back from the record. */
  lemma NamesRead(k: Kind, rec: Record, b: seq<Byte>, at: nat, s: seq<Byte>)
    requires Encodes(k, rec, b)
    requires at + |s| <= |Blob(rec, |rec.methods|)| && Blob(rec, |rec.methods|)[at..at + |s|] == s
    ensures GetStr(b, BlobStart(k, |rec.methods|) + at, |s|) == s
  {
    hide HasWord, Blob, Masks, BlobStart;
    SubSlice(b, BlobStart(k, |rec.methods|), MasksStart(k, rec), at, at + |s|);
  }

  lemma BlobNext(rec: Record, i: nat)
    requires i < |rec.methods|
    ensures Blob(rec, i + 1) == Blob(rec, i) + rec.methods[i].name + rec.methods[i].sig
  {
  }

  lemma BlobParts(rec: Record, i: nat)
    requires i < |rec.methods|
    ensures var all, at, m := Blob(rec, |rec.methods|), |Blob(rec, i)|, rec.methods[i];
            && at + |m.name| + |m.sig| <= |all| && all[at..at + |m.name|] == m.name
            && all[at + |m.name|..at + |m.name| + |m.sig|] == m.sig
  {
    hide Blob;
    BlobGrows(rec, i + 1, |rec.methods|);
    BlobNext(rec, i);
    var all, before, name, sig := Blob(rec, |rec.methods|), Blob(rec, i), rec.methods[i].name, rec.methods[i].sig;
    assert |before + name + sig| == |before| + |name| + |sig|;
    ThreeParts(all, before, name, sig);
  }

  lemma MasksNext(rec: Record, i: nat)
    requires i < |rec.methods| && rec.methods[i].slotMasks != []
    ensures Masks(rec, i + 1) == Masks(rec, i) + SlotMaskBytes(rec.methods[i].slotMasks) + []
  {
  }

  /** The mask offset of a method without masks is zero; any other lies behind the
      names, and never is. */
  lemma MasksRead(k: Kind, rec: Record, b: seq<Byte>, i: nat)
    requires Encodes(k, rec, b) && i < |rec.methods| && EncodableMethod(rec.methods[i]) && |b| < TWO32
    ensures MaskOffset(k, rec, i) == 0 <==> rec.methods[i].slotMasks == []
    ensures SlotMasksAt(b, MaskOffset(k, rec, i)) == rec.methods[i].slotMasks
  {
    hide Blob, Masks, SlotMaskBytes, SlotMasksAt, BlobStart, MasksStart, Encodes;
    var ms, n := rec.methods[i].slotMasks, |rec.methods|;
    NoMasks(b);
    if ms != [] {
      MasksGrow(rec, i + 1, n);
      MasksNext(rec, i);
      ThreeParts(Masks(rec, n), Masks(rec, i), SlotMaskBytes(ms), []);
      MasksLast(k, rec, b);
      var start, at, size := MasksStart(k, rec), |Masks(rec, i)|, |SlotMaskBytes(ms)|;
      SubSlice(b, start, |b|, at, at + size);
      DescriptorSize(ms);
      DescriptorRead(b, start + at, ms);
    }
  }

  lemma NoMasks(b: seq<Byte>)
    ensures SlotMasksAt(b, 0) == []
  {
  }

  lemma MasksLast(k: Kind, rec: Record, b: seq<Byte>)
    requires Encodes(k, rec, b)
    ensures 0 < MasksStart(k, rec) <= |b| && b[MasksStart(k, rec)..|b|] == Masks(rec, |rec.methods|)
  {
    hide Blob, Masks, HasWord, HeadWord, EntryWord;
  }

  lemma DescriptorSize(ms: seq<nat>)
    ensures |SlotMaskBytes(ms)| == 8 + 8 * |ms|
  {
  }

  lemma DescriptorRead(b: seq<Byte>, off: nat, ms: seq<nat>)
    requires 0 < off && off + 8 + 8 * |ms| <= |b| < TWO32 && b[off..off + 8 + 8 * |ms|] == SlotMaskBytes(ms)
    requires forall i :: 0 <= i < |ms| ==> ms[i] < TWO64
    ensures SlotMasksAt(b, off) == ms
  {
    hide LittleEndian, Words, MaskWords, Word;
    var d, n := SlotMaskBytes(ms), 8 + 8 * |ms|;
    assert d[..8] == LittleEndian(|ms|, 8) && d[8..n] == Words(ms);
    SubSlice(b, off, off + n, 0, 8);
    SubSlice(b, off, off + n, 8, n);
    WordRead(b, off, |ms|);
    MaskWordsRead(b, off + 8, ms);
  }

  lemma EncodableFacts(k: Kind, rec: Record, i: nat)
    requires Encodable(k, rec) && i < |rec.methods|
    ensures MasksStart(k, rec) + |Masks(rec, |rec.methods|)| < TWO32 && EncodableMethod(rec.methods[i])
  {
  }

  lemma EntryWordIsSmall(k: Kind, rec: Record, i: nat, c: nat)
    requires Encodable(k, rec) && i < |rec.methods|
    ensures EntryWord(k, rec, i, c) < TWO64
  {
    hide Encodable, Blob, Masks, BlobStart, MasksStart, MaskOffset;
    EncodableFacts(k, rec, i);
    BlobParts(rec, i);
    MaskOffsetBound(k, rec, i);
    StartBound(k, rec);
  }

  lemma StartBound(k: Kind, rec: Record)
    ensures BlobStart(k, |rec.methods|) + |Blob(rec, |rec.methods|)| == MasksStart(k, rec)
  {
  }

  lemma MaskOffsetBound(k: Kind, rec: Record, i: nat)
    requires i < |rec.methods|
    ensures MaskOffset(k, rec, i) <= MasksStart(k, rec) + |Masks(rec, |rec.methods|)|
  {
    hide MasksStart, Masks;
    MasksGrow(rec, i, |rec.methods|);
  }

  lemma EntryRead(k: Kind, rec: Record, b: seq<Byte>, i: nat, c: nat)
    requires Encodes(k, rec, b) && Encodable(k, rec) && i < |rec.methods| && c < EntryWords(k)
    ensures EntryAt(k, i) + 8 * c + 8 <= |b| && Word(b, EntryAt(k, i) + 8 * c) == EntryWord(k, rec, i, c)
  {
    hide Blob, Masks, Word, EntryWord, EntryAt, Encodable, EntryWords, BlobStart, MasksStart, HeadWord;
    EntryWordIsSmall(k, rec, i, c);
    assert HasWord(b, EntryAt(k, i) + 8 * c, EntryWord(k, rec, i, c));
    WordRead(b, EntryAt(k, i) + 8 * c, EntryWord(k, rec, i, c));
  }

  lemma EntryFits(k: Kind, i: nat, n: nat)
    requires i < n
    ensures EntryAt(k, i) + 8 * EntryWords(k) == EntryAt(k, i + 1) <= BlobStart(k, n)
  {
  }

  /** The names of a method, by the words of its entry. */
  lemma MethodNames(k: Kind, rec: Record, b: seq<Byte>, i: nat)
    requires Encodes(k, rec, b) && i < |rec.methods|
    ensures GetStr(b, EntryWord(k, rec, i, 0), EntryWord(k, rec, i, 1)) == rec.methods[i].name
    ensures GetStr(b, EntryWord(k, rec, i, 2), EntryWord(k, rec, i, 3)) == rec.methods[i].sig
  {
    hide Encodes, Blob, GetStr;
    var m, at := rec.methods[i], |Blob(rec, i)|;
    BlobParts(rec, i);
    NamesRead(k, rec, b, at, m.name);
    NamesRead(k, rec, b, at + |m.name|, m.sig);
  }

  lemma MethodRead(k: Kind, rec: Record, b: seq<Byte>, i: nat)
    requires Encodes(k, rec, b) && Encodable(k, rec) && i < |rec.methods|
    ensures EntryAt(k, i + 1) <= |b| && MethodAt(k, b, Relocs(k, rec), i) == rec.methods[i]
  {
    EntryFits(k, i, |rec.methods|);
    Sizes(k, rec, b);
    hide Encodes, Encodable, Word, EntryAt, EntryWord, Relocs, BlobStart, MethodOf, Uint32, RelAt;
    AllWordsRead(k, rec, b, i);
    FunctionRead(k, rec, i);
    WordsGiveMethod(k, rec, b, i);
  }

  lemma AllWordsRead(k: Kind, rec: Record, b: seq<Byte>, i: nat)
    requires Encodes(k, rec, b) && Encodable(k, rec) && i < |rec.methods| && EntryAt(k, i + 1) <= |b|
    ensures var base := EntryAt(k, i);
            && Word(b, base) == EntryWord(k, rec, i, 0) && Word(b, base + 8) == EntryWord(k, rec, i, 1)
            && Word(b, base + 16) == EntryWord(k, rec, i, 2) && Word(b, base + 24) == EntryWord(k, rec, i, 3)
            && Word(b, base + 32) == EntryWord(k, rec, i, 4) && Word(b, base + 40) == EntryWord(k, rec, i, 5)
            && Word(b, base + 48) == EntryWord(k, rec, i, 6)
            && Word(b, base + 8 * MaskColumn(k)) == EntryWord(k, rec, i, MaskColumn(k))
  {
    hide Encodes, Encodable, Word, EntryWord;
    EntryRead(k, rec, b, i, 0);
    EntryRead(k, rec, b, i, 1);
    EntryRead(k, rec, b, i, 2);
    EntryRead(k, rec, b, i, 3);
    EntryRead(k, rec, b, i, 4);
    EntryRead(k, rec, b, i, 5);
    EntryRead(k, rec, b, i, 6);
    EntryRead(k, rec, b, i, MaskColumn(k));
  }

  lemma WordsGiveMethod(k: Kind, rec: Record, b: seq<Byte>, i: nat)
    requires Encodes(k, rec, b) && Encodable(k, rec) && i < |rec.methods|
    ensures MethodOf(b, EntryWord(k, rec, i, 0), EntryWord(k, rec, i, 1), EntryWord(k, rec, i, 2), EntryWord(k, rec, i, 3),
                     EntryWord(k, rec, i, 4), EntryWord(k, rec, i, 5), EntryWord(k, rec, i, 6), rec.methods[i].fnSym,
                     EntryWord(k, rec, i, MaskColumn(k))) == rec.methods[i]
  {
    PlainWords(k, rec, i);
    hide Encodes, Encodable, GetStr, SlotMasksAt, EntryWord, MaskOffset;
    MethodNames(k, rec, b, i);
    MaskedMethod(k, rec, b, i);
  }

  lemma PlainWords(k: Kind, rec: Record, i: nat)
    requires i < |rec.methods|
    ensures var m := rec.methods[i];
            && EntryWord(k, rec, i, 4) == m.nameHash && EntryWord(k, rec, i, 5) == m.sigHash &&
               EntryWord(k, rec, i, 6) == m.extra
            && EntryWord(k, rec, i, MaskColumn(k)) == MaskOffset(k, rec, i)
  {
  }

  lemma Sizes(k: Kind, rec: Record, b: seq<Byte>)
    requires Encodes(k, rec, b) && Encodable(k, rec)
    ensures 8 * HeadWords(k) <= BlobStart(k, |rec.methods|) <= |b| < TWO32
  {
    hide HasWord, Blob, Masks;
  }

  lemma MaskedMethod(k: Kind, rec: Record, b: seq<Byte>, i: nat)
    requires Encodes(k, rec, b) && Encodable(k, rec) && i < |rec.methods|
    ensures SlotMasksAt(b, MaskOffset(k, rec, i)) == rec.methods[i].slotMasks
  {
    hide Encodes, Masks, Blob;
    Sizes(k, rec, b);
    MasksRead(k, rec, b, i);
  }

  lemma FunctionRead(k: Kind, rec: Record, i: nat)
    requires Encodable(k, rec) && i < |rec.methods|
    ensures (if k.Typedesc? then RelAt(Relocs(k, rec), Uint32(EntryAt(k, i) + 8 * FN_COLUMN)) else "") == rec.methods[i].fnSym
  {
    hide Encodable, Blob, Masks, RelAt, FnRelocs;
    FunctionSlots(k, rec, i);
    if k.Typedesc? {
      hide EntryAt, Uint32;
      FnRelocFound(rec, i, |rec.methods|, [DataReloc(8 * CACHE_WORD, rec.cacheSym, 0)]);
    } else {
      NoFunction(k, rec, i);
    }
  }

  lemma NoFunction(k: Kind, rec: Record, i: nat)
    requires Encodable(k, rec) && i < |rec.methods| && k.IfaceDesc?
    ensures rec.methods[i].fnSym == ""
  {
  }

  lemma FunctionSlots(k: Kind, rec: Record, i: nat)
    requires Encodable(k, rec) && i < |rec.methods|
    ensures EntryAt(k, |rec.methods|) < TWO32 && 8 * CACHE_WORD < EntryAt(Typedesc, 0) + 8 * FN_COLUMN
    ensures k.Typedesc? ==> Uint32(EntryAt(k, i) + 8 * FN_COLUMN) == EntryAt(k, i) + 8 * FN_COLUMN
  {
    hide Blob, Masks;
    EntryFits(k, i, |rec.methods|);
  }

  lemma {:induction false} MethodsRead(k: Kind, rec: Record, b: seq<Byte>, i: nat)
    requires Encodes(k, rec, b) && Encodable(k, rec) && i <= |rec.methods|
    ensures MethodsFrom(k, b, Relocs(k, rec), i, |rec.methods|) == rec.methods[i..]
    decreases |rec.methods| - i
  {
    hide Encodes, Encodable, MethodAt, Relocs;
    if i < |rec.methods| {
      MethodRead(k, rec, b, i);
      MethodsRead(k, rec, b, i + 1);
      assert rec.methods[i..] == [rec.methods[i]] + rec.methods[i + 1..];
    }
  }

  lemma HeadWordIsSmall(k: Kind, rec: Record, w: nat)
    requires Encodable(k, rec)
    ensures HeadWord(k, rec, w) < TWO64
  {
    hide Masks, Blob, BlobStart;
    MethodsBound(k, |rec.methods|);
    NameBound(rec);
    StartBound(k, rec);
    hide MasksStart;
  }

  lemma MethodsBound(k: Kind, n: nat)
    ensures n <= BlobStart(k, n)
  {
  }

  lemma NameBound(rec: Record)
    ensures |rec.name| <= |Blob(rec, |rec.methods|)|
  {
    BlobGrows(rec, 0, |rec.methods|);
  }

  lemma HeadRead(k: Kind, rec: Record, b: seq<Byte>, w: nat)
    requires Encodes(k, rec, b) && Encodable(k, rec) && w < HeadWords(k)
    ensures 8 * w + 8 <= |b| && Word(b, 8 * w) == HeadWord(k, rec, w)
  {
    HeadWordIsSmall(k, rec, w);
    hide Masks, Word, HeadWord, Encodable;
    assert HasWord(b, 8 * w, HeadWord(k, rec, w));
    WordRead(b, 8 * w, HeadWord(k, rec, w));
  }

  lemma NameRead(k: Kind, rec: Record, b: seq<Byte>)
    requires Encodes(k, rec, b)
    ensures GetStr(b, BlobStart(k, |rec.methods|), |rec.name|) == rec.name
  {
    hide Encodes, GetStr, BlobStart;
    BlobGrows(rec, 0, |rec.methods|);
    NamesRead(k, rec, b, 0, rec.name);
  }

  /** Decoding an encoded record gives it back, with any number of methods,
      names and mask lists. */
  lemma RoundTrip(k: Kind, rec: Record, b: seq<Byte>)
    requires Encodes(k, rec, b) && Encodable(k, rec)
    ensures Decode(k, b, Relocs(k, rec)) == rec
  {
    OtherFields(k, rec);
    hide Encodes, Encodable, GetStr, Word, MethodsFrom, BlobStart, RelAt, Relocs;
    Sizes(k, rec, b);
    NameRead(k, rec, b);
    HeadIsRead(k, rec, b);
    MethodsRead(k, rec, b, 0);
    assert rec.methods[0..] == rec.methods;
  }

  lemma HeadIsRead(k: Kind, rec: Record, b: seq<Byte>)
    requires Encodes(k, rec, b) && Encodable(k, rec) && 8 * HeadWords(k) <= |b|
    ensures Word(b, 0) == BlobStart(k, |rec.methods|) && Word(b, 8) == |rec.name|
    ensures k.Typedesc? ==> Word(b, 16) == rec.sizeBytes
    ensures Word(b, 8 * (HeadWords(k) - 1)) == |rec.methods|
  {
    hide Encodes, Encodable, Word, BlobStart;
    HeadRead(k, rec, b, 0);
    HeadRead(k, rec, b, 1);
    HeadRead(k, rec, b, 2);
    HeadRead(k, rec, b, HeadWords(k) - 1);
  }

  lemma OtherFields(k: Kind, rec: Record)
    requires Encodable(k, rec)
    ensures k.Typedesc? ==> RelAt(Relocs(k, rec), 8 * CACHE_WORD) == rec.cacheSym
    ensures k.IfaceDesc? ==> rec.sizeBytes == 0 && rec.cacheSym == ""
  {
  }

  // ----- as the assembler writes it -----

  /** The words of an entry with some mask offset. */
  function EntrySeq(k: Kind, rec: Record, i: nat, mask: nat): (ws: seq<nat>)
    requires i < |rec.methods|
    ensures |ws| == EntryWords(k)
  {
    var m := rec.methods[i];
    var at := BlobStart(k, |rec.methods|) + |Blob(rec, i)|;
    [at, |m.name|, at + |m.name|, |m.sig|, m.nameHash, m.sigHash, m.extra] + (if k.Typedesc? then [0] else []) + [mask]
  }

  function HeadSeq(k: Kind, rec: Record): (ws: seq<nat>)
    ensures |ws| == HeadWords(k)
  {
    [BlobStart(k, |rec.methods|), |rec.name|] + (if k.Typedesc? then [rec.sizeBytes, 0] else []) + [|rec.methods|]
  }

  ghost predicate EntryIn(k: Kind, rec: Record, buf: seq<Byte>, j: nat, mask: nat)
    requires j < |rec.methods|
  {
    EntryAt(k, j + 1) <= |buf| && buf[EntryAt(k, j)..EntryAt(k, j + 1)] == Words(EntrySeq(k, rec, j, mask))
  }

  ghost predicate HeadIn(k: Kind, rec: Record, buf: seq<Byte>) {
    EntryAt(k, 0) <= |buf| && buf[..EntryAt(k, 0)] == Words(HeadSeq(k, rec))
  }

  lemma {:induction false} WordsAt(ws: seq<nat>, c: nat)
    requires c < |ws|
    ensures 8 * c + 8 <= |Words(ws)| && Words(ws)[8 * c..8 * c + 8] == LittleEndian(ws[c], 8)
  {
    hide LittleEndian;
    if c > 0 {
      WordsAt(ws[1..], c - 1);
      var tail := Words(ws[1..]);
      assert Words(ws) == LittleEndian(ws[0], 8) + tail;
      SubSlice(Words(ws), 8, |Words(ws)|, 8 * (c - 1), 8 * (c - 1) + 8);
      assert Words(ws)[8..] == tail;
    }
  }

  lemma WordIn(buf: seq<Byte>, base: nat, ws: seq<nat>, c: nat)
    requires c < |ws| && base + 8 * |ws| <= |buf| && buf[base..base + 8 * |ws|] == Words(ws)
    ensures HasWord(buf, base + 8 * c, ws[c])
  {
    hide LittleEndian, Words;
    WordsAt(ws, c);
    SubSlice(buf, base, base + 8 * |ws|, 8 * c, 8 * c + 8);
  }

  lemma EntriesInOrder(k: Kind, j: nat, i: nat)
    requires j < i
    ensures EntryAt(k, j + 1) == EntryAt(k, j) + 8 * EntryWords(k) <= EntryAt(k, i)
  {
  }

  /** Writes outside an entry leave it. */
  lemma EntryKept(k: Kind, rec: Record, before: seq<Byte>, after: seq<Byte>, j: nat, mask: nat, lo: nat, hi: nat)
    requires j < |rec.methods| && EntryIn(k, rec, before, j, mask) && |after| == |before|
    requires EntryAt(k, j + 1) <= lo || hi <= EntryAt(k, j)
    requires forall x :: 0 <= x < |before| && !(lo <= x < hi) ==> after[x] == before[x]
    ensures EntryIn(k, rec, after, j, mask)
  {
  }

  lemma HeadKept(k: Kind, rec: Record, before: seq<Byte>, after: seq<Byte>, lo: nat, hi: nat)
    requires HeadIn(k, rec, before) && |after| == |before| && EntryAt(k, 0) <= lo
    requires forall x :: 0 <= x < |before| && !(lo <= x < hi) ==> after[x] == before[x]
    ensures HeadIn(k, rec, after)
  {
  }

  method PutU64(buf: array<Byte>, off: nat, v: nat)
    requires off + 8 <= buf.Length
    modifies buf
    ensures buf[off..off + 8] == LittleEndian(v, 8)
    ensures forall x :: 0 <= x < buf.Length && !(off <= x < off + 8) ==> buf[x] == old(buf[x])
  {
    Write(buf, Patch(off, LittleEndian(v, 8)));
  }

  /** Puts some words one after the other. */
  method PutWords(buf: array<Byte>, off: nat, ws: seq<nat>)
    requires off + 8 * |ws| <= buf.Length
    modifies buf
    ensures buf[off..off + 8 * |ws|] == Words(ws)
    ensures forall x :: 0 <= x < buf.Length && !(off <= x < off + 8 * |ws|) ==> buf[x] == old(buf[x])
    decreases |ws|
  {
    hide LittleEndian;
    if ws == [] { return; }
    PutU64(buf, off, ws[0]);
    PutWords(buf, off + 8, ws[1..]);
    assert buf[off..off + 8] == LittleEndian(ws[0], 8);
    assert buf[off..off + 8 * |ws|] == buf[off..off + 8] + buf[off + 8..off + 8 + 8 * |ws[1..]|];
  }

  lemma Backpatched(buf: seq<Byte>, before: seq<Byte>, base: nat, ws: seq<nat>, c: nat, v: nat)
    requires c < |ws| && base + 8 * |ws| <= |before| == |buf| && before[base..base + 8 * |ws|] == Words(ws)
    requires buf[base + 8 * c..base + 8 * c + 8] == LittleEndian(v, 8)
    requires forall x :: 0 <= x < |buf| && !(base + 8 * c <= x < base + 8 * c + 8) ==> buf[x] == before[x]
    ensures buf[base..base + 8 * |ws|] == Words(ws[c := v])
  {
    hide LittleEndian, Words;
    forall d | 0 <= d < |ws| ensures HasWord(buf, base + 8 * d, ws[c := v][d]) {
      WordIn(before, base, ws, d);
      if d != c { assert buf[base + 8 * d..base + 8 * d + 8] == before[base + 8 * d..base + 8 * d + 8]; }
    }
    AllWordsIn(buf, base, ws[c := v]);
  }

  lemma {:induction false} AllWordsIn(buf: seq<Byte>, base: nat, ws: seq<nat>)
    requires base + 8 * |ws| <= |buf| && forall d :: 0 <= d < |ws| ==> HasWord(buf, base + 8 * d, ws[d])
    ensures buf[base..base + 8 * |ws|] == Words(ws)
    decreases |ws|
  {
    hide LittleEndian;
    if ws == [] {
      assert buf[base..base] == [];
    } else {
      forall d | 0 <= d < |ws[1..]| ensures HasWord(buf, base + 8 + 8 * d, ws[1..][d]) {
        assert HasWord(buf, base + 8 * (d + 1), ws[d + 1]);
      }
      AllWordsIn(buf, base + 8, ws[1..]);
      assert HasWord(buf, base + 8 * 0, ws[0]);
      assert buf[base..base + 8 * |ws|] == buf[base..base + 8] + buf[base + 8..base + 8 + 8 * |ws[1..]|];
    }
  }

  method EncodeSlotMasks(masks: seq<nat>) returns (b: seq<Byte>)
    ensures b == SlotMaskBytes(masks)
  {
    var a := new Byte[8 + 8 * |masks|];
    PutU64(a, 0, |masks|);
    PutWords(a, 8, masks);
    assert a[..] == a[0..8] + a[8..8 + 8 * |masks|];
    b := a[..];
  }

  /** A record and its relocations, with the mask offsets patched in once the
      names are all there. */
  method Encode(k: Kind, rec: Record) returns (out: seq<Byte>, relocs: seq<DataReloc>)
    ensures Encodes(k, rec, out) && relocs == Relocs(k, rec)
  {
    hide Encodes, Words, EntrySeq, HeadSeq, EntryAt, Masks, Blob, EntryIn, HeadIn;
    var n := |rec.methods|;
    var buf := new Byte[BlobStart(k, n)];
    relocs := if k.Typedesc? then [DataReloc(8 * CACHE_WORD, rec.cacheSym, 0)] else [];
    var blob := Table(k, rec, buf);
    relocs := relocs + if k.Typedesc? then Functions(rec) else [];
    var masks := PatchMasks(k, rec, buf, blob);
    out := buf[..] + blob + masks;
    Assembled(k, rec, buf[..], out);
  }

  /** The relocations of the functions. */
  function Functions(rec: Record): seq<DataReloc> { FnRelocs(rec, |rec.methods|) }

  lemma NothingYet(rec: Record)
    ensures Blob(rec, 0) == rec.name && Masks(rec, 0) == []
  {
  }

  /** Fills the head and the table, with no mask offsets yet, and collects the names. */
  method Table(k: Kind, rec: Record, buf: array<Byte>) returns (blob: seq<Byte>)
    requires buf.Length == BlobStart(k, |rec.methods|)
    modifies buf
    ensures HeadIn(k, rec, buf[..]) && forall j :: 0 <= j < |rec.methods| ==> EntryIn(k, rec, buf[..], j, 0)
    ensures blob == Blob(rec, |rec.methods|)
  {
    hide Words, EntrySeq, HeadSeq, EntryAt, Blob;
    var n := |rec.methods|;
    NothingYet(rec);
    blob := rec.name;
    HeadFits(k, n);
    PutWords(buf, 0, HeadSeq(k, rec));
    assert HeadIn(k, rec, buf[..]);
    for i := 0 to n
      invariant HeadIn(k, rec, buf[..]) && blob == Blob(rec, i)
      invariant forall j :: 0 <= j < i ==> EntryIn(k, rec, buf[..], j, 0)
    {
      ghost var before := buf[..];
      EntriesInOrder(k, i, i + 1);
      EntryFits(k, i, n);
      EntryFits(k, 0, i + 1);
      BlobNext(rec, i);
      PutWords(buf, EntryAt(k, i), EntrySeq(k, rec, i, 0));
      blob := blob + rec.methods[i].name + rec.methods[i].sig;
      FirstEntryFirst(k, i);
      HeadKept(k, rec, before, buf[..], EntryAt(k, i), EntryAt(k, i + 1));
      forall j | 0 <= j < i ensures EntryIn(k, rec, buf[..], j, 0) {
        EntriesInOrder(k, j, i);
        EntryKept(k, rec, before, buf[..], j, 0, EntryAt(k, i), EntryAt(k, i + 1));
      }
    }
  }

  lemma HeadFits(k: Kind, n: nat)
    ensures 8 * HeadWords(k) == EntryAt(k, 0) <= BlobStart(k, n)
  {
  }

  lemma FirstEntryFirst(k: Kind, i: nat)
    ensures EntryAt(k, 0) <= EntryAt(k, i)
  {
  }

  /** Appends the masks of the methods that have some and patches their offsets in. */
  method PatchMasks(k: Kind, rec: Record, buf: array<Byte>, blob: seq<Byte>) returns (masks: seq<Byte>)
    requires buf.Length == BlobStart(k, |rec.methods|) && blob == Blob(rec, |rec.methods|)
    requires HeadIn(k, rec, buf[..]) && forall j :: 0 <= j < |rec.methods| ==> EntryIn(k, rec, buf[..], j, 0)
    modifies buf
    ensures HeadIn(k, rec, buf[..]) && forall j :: 0 <= j < |rec.methods| ==> EntryIn(k, rec, buf[..], j, MaskOffset(k, rec, j))
    ensures masks == Masks(rec, |rec.methods|)
  {
    hide Words, EntrySeq, HeadSeq, EntryAt, Blob, SlotMaskBytes, EntryIn, HeadIn;
    var n := |rec.methods|;
    var masksStart := BlobStart(k, n) + |blob|;
    NothingYet(rec);
    masks := [];
    for i := 0 to n
      invariant HeadIn(k, rec, buf[..]) && masks == Masks(rec, i)
      invariant forall j :: 0 <= j < i ==> EntryIn(k, rec, buf[..], j, MaskOffset(k, rec, j))
      invariant forall j :: i <= j < n ==> EntryIn(k, rec, buf[..], j, 0)
    {
      if rec.methods[i].slotMasks == [] { continue; }
      assert EntryIn(k, rec, buf[..], i, 0);
      PatchEntry(k, rec, buf, i, masksStart + |masks|);
      var descriptor := EncodeSlotMasks(rec.methods[i].slotMasks);
      masks := masks + descriptor;
    }
  }

  method PatchEntry(k: Kind, rec: Record, buf: array<Byte>, i: nat, at: nat)
    requires i < |rec.methods| && buf.Length == BlobStart(k, |rec.methods|)
    requires HeadIn(k, rec, buf[..]) && EntryIn(k, rec, buf[..], i, 0)
    modifies buf
    ensures HeadIn(k, rec, buf[..]) && EntryIn(k, rec, buf[..], i, at)
    ensures forall j, mask ::
              0 <= j < |rec.methods| && j != i && EntryIn(k, rec, old(buf[..]), j, mask) ==> EntryIn(k, rec, buf[..], j, mask)
  {
    hide Words, HeadSeq, EntryAt, Blob, HeadIn, EntryIn;
    ghost var before := buf[..];
    EntryFits(k, i, |rec.methods|);
    FirstEntryFirst(k, i);
    var off := EntryAt(k, i) + 8 * MaskColumn(k);
    PutU64(buf, off, at);
    PatchedEntry(k, rec, before, buf[..], i, at);
    HeadKept(k, rec, before, buf[..], off, off + 8);
    forall j, mask | 0 <= j < |rec.methods| && j != i && EntryIn(k, rec, before, j, mask)
      ensures EntryIn(k, rec, buf[..], j, mask)
    {
      if j < i { EntriesInOrder(k, j, i); } else { EntriesInOrder(k, i, j); }
      EntryKept(k, rec, before, buf[..], j, mask, off, off + 8);
    }
  }

  lemma PatchedEntry(k: Kind, rec: Record, before: seq<Byte>, after: seq<Byte>, i: nat, at: nat)
    requires i < |rec.methods| && EntryIn(k, rec, before, i, 0) && |after| == |before|
    requires EntryAt(k, i + 1) == EntryAt(k, i) + 8 * EntryWords(k) <= |before|
    requires var off := EntryAt(k, i) + 8 * MaskColumn(k);
             after[off..off + 8] == LittleEndian(at, 8) &&
             forall x :: 0 <= x < |after| && !(off <= x < off + 8) ==> after[x] == before[x]
    ensures EntryIn(k, rec, after, i, at)
  {
    hide Words, EntryAt, Blob, BlobStart, LittleEndian;
    assert EntrySeq(k, rec, i, 0)[MaskColumn(k) := at] == EntrySeq(k, rec, i, at);
    Backpatched(after, before, EntryAt(k, i), EntrySeq(k, rec, i, 0), MaskColumn(k), at);
  }

  lemma Assembled(k: Kind, rec: Record, buf: seq<Byte>, out: seq<Byte>)
    requires |buf| == BlobStart(k, |rec.methods|) && out == buf + Blob(rec, |rec.methods|) + Masks(rec, |rec.methods|)
    requires HeadIn(k, rec, buf) && forall j :: 0 <= j < |rec.methods| ==> EntryIn(k, rec, buf, j, MaskOffset(k, rec, j))
    ensures Encodes(k, rec, out)
  {
    hide Words, EntryAt, Blob, Masks, EntrySeq, HasWord, EntryWord, HeadWord, BlobStart;
    var n := |rec.methods|;
    forall w | 0 <= w < HeadWords(k) ensures HasWord(out, 8 * w, HeadWord(k, rec, w)) {
      HeadWordIn(k, rec, buf, w);
      HasWordMore(buf, Blob(rec, n) + Masks(rec, n), 8 * w, HeadWord(k, rec, w));
      assert buf + (Blob(rec, n) + Masks(rec, n)) == out;
    }
    forall i, c | 0 <= i < n && 0 <= c < EntryWords(k) ensures HasWord(out, EntryAt(k, i) + 8 * c, EntryWord(k, rec, i, c)) {
      EntryWordIn(k, rec, buf, i, c);
      HasWordMore(buf, Blob(rec, n) + Masks(rec, n), EntryAt(k, i) + 8 * c, EntryWord(k, rec, i, c));
      assert buf + (Blob(rec, n) + Masks(rec, n)) == out;
    }
    assert out[BlobStart(k, n)..MasksStart(k, rec)] == Blob(rec, n);
    assert out[MasksStart(k, rec)..] == Masks(rec, n);
  }

  lemma HasWordMore(b: seq<Byte>, more: seq<Byte>, at: nat, w: nat)
    requires HasWord(b, at, w)
    ensures HasWord(b + more, at, w)
  {
  }

  lemma HeadWordIn(k: Kind, rec: Record, buf: seq<Byte>, w: nat)
    requires HeadIn(k, rec, buf) && w < HeadWords(k)
    ensures HasWord(buf, 8 * w, HeadWord(k, rec, w))
  {
    hide Words, HasWord, BlobStart;
    HeadFits(k, 0);
    hide EntryAt;
    assert buf[0..8 * HeadWords(k)] == buf[..EntryAt(k, 0)];
    WordIn(buf, 0, HeadSeq(k, rec), w);
  }

  lemma EntryWordIn(k: Kind, rec: Record, buf: seq<Byte>, i: nat, c: nat)
    requires i < |rec.methods| && EntryIn(k, rec, buf, i, MaskOffset(k, rec, i)) && c < EntryWords(k)
    ensures HasWord(buf, EntryAt(k, i) + 8 * c, EntryWord(k, rec, i, c))
  {
    hide Words, HasWord, BlobStart, EntryAt, Blob, MaskOffset, EntryWord, EntrySeq, EntryWords;
    EntriesInOrder(k, i, i + 1);
    EntrySeqWord(k, rec, i, c);
    WordIn(buf, EntryAt(k, i), EntrySeq(k, rec, i, MaskOffset(k, rec, i)), c);
  }

  lemma EntrySeqWord(k: Kind, rec: Record, i: nat, c: nat)
    requires i < |rec.methods| && c < EntryWords(k)
    ensures EntrySeq(k, rec, i, MaskOffset(k, rec, i))[c] == EntryWord(k, rec, i, c)
  {
    hide BlobStart, Blob, MaskOffset;
  }

  // ----- as it is read -----

  method DecodeSlotMasks(b: seq<Byte>, off: nat) returns (masks: seq<nat>)
    ensures masks == SlotMasksAt(b, off)
  {
    hide Word;
    if off == 0 || off + 8 > |b| { return []; }
    var n := Word(b, off);
    if off + 8 + 8 * n > |b| { return []; }
    masks := [];
    for i := 0 to n
      invariant masks + MaskWords(b, off + 8 + 8 * i, n - i) == MaskWords(b, off + 8, n)
    {
      masks := masks + [Word(b, off + 8 + 8 * i)];
    }
  }

  method DecodeRecord(k: Kind, b: seq<Byte>, relocs: seq<DataReloc>) returns (rec: Record)
    ensures rec == Decode(k, b, relocs)
  {
    hide MethodAt, GetStr, Word, RelAt;
    if |b| < 8 * HeadWords(k) { return Record([], 0, "", []); }
    rec := Record(
      GetStr(b, Word(b, 0), Word(b, 8)),
      if k.Typedesc? then Word(b, 16) else 0,
      if k.Typedesc? then RelAt(relocs, 8 * CACHE_WORD) else "",
      []);
    var n := Word(b, 8 * (HeadWords(k) - 1));
    for i := 0 to n
      invariant rec.methods + MethodsFrom(k, b, relocs, i, n) == MethodsFrom(k, b, relocs, 0, n)
      invariant rec == Decode(k, b, relocs).(methods := rec.methods)
    {
      if EntryAt(k, i + 1) > |b| { break; }
      rec := rec.(methods := rec.methods + [MethodAt(k, b, relocs, i)]);
    }
  }
}
