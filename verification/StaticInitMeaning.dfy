/** What the bytes, slots and anonymous globals of a static initialiser mean: a
    reading, written without the encoder, under which they are the constant. */
module StaticInitMeaning {
  import opened Wrappers
  import opened Bytes
  import opened StaticInit

  // ----- reading -----

  /** The slots in some bytes of a payload, by their offset there. */
  function SlotsIn(rs: seq<Reloc>, off: nat, n: nat): seq<Reloc> {
    if rs == [] then []
    else
      (if off <= rs[0].offset < off + n then [rs[0].(offset := rs[0].offset - off)] else []) + SlotsIn(rs[1..], off, n)
  }

  /** Some bytes of a payload with their slots. */
  function Part(p: Payload, off: nat, n: nat): Payload
    requires off + n <= |p.bytes|
  {
    Payload(p.bytes[off..off + n], SlotsIn(p.relocs, off, n))
  }

  predicate AllZero(bs: seq<Byte>) { forall i :: 0 <= i < |bs| ==> bs[i] == 0 }

  predicate Blank(p: Payload) { p.relocs == [] && AllZero(p.bytes) }

  /** The widths that the names of the types say. */
  function ScalarBits(s: ScalarName): nat {
    if s in {I64, U64} then 64 else if s in {I32, U32} then 32 else if s in {I16, U16} then 16 else 8
  }

  /** A number in some bytes, in two's complement. */
  predicate Number(p: Payload, bits: nat, v: int) {
    8 * |p.bytes| == bits && p.relocs == [] && Value(p.bytes) == v % Pow256(|p.bytes|)
  }

  /** Eight bytes for an address. */
  predicate Pointer(p: Payload, symbol: Sym, addend: int) {
    |p.bytes| == 8 && AllZero(p.bytes) && p.relocs == [Reloc(0, symbol, addend)]
  }

  /** An address and a length. */
  predicate Header(p: Payload, symbol: Sym, length: nat) {
    |p.bytes| == 16 && Pointer(Part(p, 0, 8), symbol, 0) && Number(Part(p, 8, 8), 64, length)
  }

  /** The anonymous global that the first slot leads to. */
  function Followed(p: Payload, anons: seq<Anon>): Option<nat> {
    if p.relocs != [] && p.relocs[0].symbol.Anonymous? && p.relocs[0].symbol.i < |anons|
    then Some(p.relocs[0].symbol.i)
    else None
  }

  /** Member k is the first of its name, and the literal gives it. */
  predicate Own(ms: seq<Member>, k: nat, given: set<string>)
    requires k < |ms|
  {
    ms[k].name in given && forall j :: 0 <= j < k ==> ms[j].name != ms[k].name
  }

  /** The payload reads as the constant at a type. */
  ghost predicate Reads(t: Ty, init: Init, p: Payload, anons: seq<Anon>)
    decreases init, 1
  {
    match init
    case IntLit(v) => t.core.Scalar? && Number(p, ScalarBits(t.core.scalar), v)
    case Negative(v) => t.core.Scalar? && Number(p, ScalarBits(t.core.scalar), 0 - v)
    case ByteLit(b) => p == Payload([b], [])
    case StringLit(s) =>
      if IsArray(t) then
        |s| <= t.core.n == |p.bytes| && p.bytes[..|s|] == s && AllZero(p.bytes[|s|..]) && p.relocs == []
      else Header(p, StringConstant(s), |s|)
    case StructLit(_, fields) =>
      && t.core.Struct? && |p.bytes| == SizeOf(t.core.members)
      && forall k :: 0 <= k < |t.core.members| ==>
           MemberLies(t.core.members, k) && ReadsMember(t.core.members, k, init, p, anons)
    case ArrayLit(elems) =>
      if IsArray(t) then t.core.n == |elems| && ReadsElements(t.core.elem, init, p, anons)
      else
        t.core.List? && Followed(p, anons).Some? &&
        var a := Followed(p, anons).value;
        && Header(p, Anonymous(a), |elems|) && anons[a].t == Ty(0, false, List(t.core.elem, |elems|))
        && ReadsElements(t.core.elem, init, anons[a].payload, anons)
    case AddressOf(_, _, vtable) => ReadsAddress(t, init, vtable, p, anons)
    case AddressOfElement(_, _, _, vtable) => ReadsAddress(t, init, vtable, p, anons)
    case AddressOfLiteral(_, _, vtable) => ReadsAddress(t, init, vtable, p, anons)
    case Cast(u, arg) => Reads(u, arg, p, anons)
    case NotConstant => false
  }

  /** Where a member lies: after those before it. */
  function MemberOffset(ms: seq<Member>, k: nat): nat
    requires k <= |ms|
  {
    SizeOf(ms[..k])
  }

  predicate MemberLies(ms: seq<Member>, k: nat)
    requires k < |ms|
  {
    MemberOffset(ms, k) + Size(ms[k].t) <= SizeOf(ms)
  }

  ghost predicate ReadsMember(ms: seq<Member>, k: nat, init: Init, p: Payload, anons: seq<Anon>)
    requires init.StructLit? && k < |ms| && MemberLies(ms, k) && |p.bytes| == SizeOf(ms)
    decreases init, 0
  {
    var part := Part(p, MemberOffset(ms, k), Size(ms[k].t));
    var i := FieldIndex(init.fields, ms[k].name);
    if Own(ms, k, Names(init.fields)) && i >= 0 then Reads(ms[k].t, init.fields[i].val, part, anons) else Blank(part)
  }

  ghost predicate ReadsElements(t: Ty, init: Init, p: Payload, anons: seq<Anon>)
    requires init.ArrayLit?
    decreases init, 0
  {
    && |p.bytes| == Size(t) * |init.elems|
    && forall k :: 0 <= k < |init.elems| ==>
         ElementLies(k, Size(t), |p.bytes|) && Reads(t, init.elems[k], Part(p, k * Size(t), Size(t)), anons)
  }

  predicate ElementLies(k: nat, size: nat, n: nat) { k * size + size <= n }

  /** An address by itself, or with a vtable behind it as an interface. */
  ghost predicate ReadsAddress(t: Ty, init: Init, vtable: Option<string>, p: Payload, anons: seq<Anon>)
    requires IsAddress(init)
    decreases init, 0, 1
  {
    if t.ptr == 0 && t.core.Interface? then
      && vtable.Some? && |p.bytes| == 16 && Pointer(Part(p, 8, 8), Vtable(vtable.value), 0)
      && ReadsTarget(init, Part(p, 0, 8), anons)
    else ReadsTarget(init, p, anons)
  }

  ghost predicate ReadsTarget(init: Init, p: Payload, anons: seq<Anon>)
    requires IsAddress(init)
    decreases init, 0, 0
  {
    match init
    case AddressOf(symbol, _, _) => Pointer(p, Global(symbol), 0)
    case AddressOfElement(symbol, index, pointer, _) => Pointer(p, Global(symbol), index * Size(Pointee(pointer)))
    case AddressOfLiteral(lit, _, _) =>
      Followed(p, anons).Some? &&
      var a := Followed(p, anons).value;
      && Pointer(p, Anonymous(a), 0) && LitType(lit) == Some(anons[a].t)
      && Reads(anons[a].t, lit, anons[a].payload, anons)
  }

  // ----- numbers -----

  lemma ModuloIs(x: int, r: int, k: int, m: int)
    requires 0 <= r < m && r == x + k * m
    ensures r == x % m
  {
    var d := x / m;
    assert x == d * m + x % m;
    assert r - x % m == (d + k) * m by { Distribute(d, k, m); }
    if d + k != 0 { Multiple(d + k, m); }
  }

  lemma Distribute(d: int, k: int, m: int)
    ensures d * m + k * m == (d + k) * m
  {
  }

  lemma {:induction false} AtLeast(j: nat, m: int)
    requires m > 0 && j > 0
    ensures j * m >= m
  {
    if j > 1 {
      AtLeast(j - 1, m);
      Distribute(j - 1, 1, m);
    }
  }

  lemma Multiple(j: int, m: int)
    requires m > 0 && j != 0
    ensures j * m >= m || j * m <= -m
  {
    AtLeast(if j > 0 then j else -j, m);
    Distribute(j, -j, m);
  }

  lemma NumberWritten(v: int, n: nat)
    ensures Value(LittleEndian(v, n)) == v % Pow256(n)
  {
    ValueIsCongruent(v, n);
    var k: int :| Value(LittleEndian(v, n)) == v + k * Pow256(n);
    LittleEndianOfValue(LittleEndian(v, n));
    ModuloIs(v, Value(LittleEndian(v, n)), k, Pow256(n));
  }

  lemma IntReads(t: Ty, v: int)
    requires EncodeInt(t, v).Some?
    ensures t.core.Scalar? && Number(EncodeInt(t, v).value, ScalarBits(t.core.scalar), v)
  {
    NumberWritten(v, Width(t.core.scalar));
  }

  lemma OneSlot(r: Reloc, off: nat, n: nat)
    ensures SlotsIn([r], off, n) == if off <= r.offset < off + n then [r.(offset := r.offset - off)] else []
  {
    assert [r][1..] == [];
  }

  lemma HeaderReads(symbol: Sym, length: nat)
    ensures Header(SliceHeader(symbol, length), symbol, length)
  {
    hide LittleEndian, Value;
    NumberWritten(length, 8);
    var p := SliceHeader(symbol, length);
    OneSlot(p.relocs[0], 0, 8);
    OneSlot(p.relocs[0], 8, 8);
    assert p.bytes[8..16] == LittleEndian(length, 8);
    assert p.bytes[0..8] == Zeros(8);
  }

  // ----- parts -----

  lemma {:induction false} SlotsInBoth(a: seq<Reloc>, b: seq<Reloc>, off: nat, n: nat)
    ensures SlotsIn(a + b, off, n) == SlotsIn(a, off, n) + SlotsIn(b, off, n)
  {
    if a == [] {
      assert a + b == b;
    } else {
      SlotsInBoth(a[1..], b, off, n);
      var first := if off <= a[0].offset < off + n then [a[0].(offset := a[0].offset - off)] else [];
      assert (a + b)[0] == a[0] && (a + b)[1..] == a[1..] + b;
      assert first + (SlotsIn(a[1..], off, n) + SlotsIn(b, off, n)) == first + SlotsIn(a[1..], off, n) + SlotsIn(b, off, n);
    }
  }

  lemma {:induction false} SlotsOutside(rs: seq<Reloc>, off: nat, n: nat)
    requires forall i :: 0 <= i < |rs| ==> rs[i].offset < off || rs[i].offset >= off + n
    ensures SlotsIn(rs, off, n) == []
  {
    if rs != [] { SlotsOutside(rs[1..], off, n); }
  }

  lemma {:induction false} SlotsInside(rs: seq<Reloc>, off: nat, n: nat)
    requires forall i :: 0 <= i < |rs| ==> rs[i].offset < n
    ensures SlotsIn(Shift(rs, off), off, n) == rs
  {
    if rs != [] { SlotsInside(rs[1..], off, n); }
  }

  /** What was put into a payload is what its part there is. */
  lemma ContainedIsPart(r: Payload, off: nat, p: Payload)
    requires Contains(r, off, p) && SlotsFit(p)
    ensures off + |p.bytes| <= |r.bytes| && Part(r, off, |p.bytes|) == p
  {
    var k: nat :| SlotsFrom(r, off, p, k);
    var n, end := |p.bytes|, k + |p.relocs|;
    assert r.relocs == r.relocs[..k] + (r.relocs[k..end] + r.relocs[end..]);
    SlotsInBoth(r.relocs[..k], r.relocs[k..end] + r.relocs[end..], off, n);
    SlotsInBoth(r.relocs[k..end], r.relocs[end..], off, n);
    SlotsOutside(r.relocs[..k], off, n);
    SlotsOutside(r.relocs[end..], off, n);
    SlotsInside(p.relocs, off, n);
  }

  // ----- more anonymous globals -----

  /** What reads as a constant still does when more globals have been queued. */
  lemma {:induction false} ReadsMore(t: Ty, init: Init, p: Payload, anons: seq<Anon>, more: seq<Anon>)
    requires Reads(t, init, p, anons) && anons <= more
    ensures Reads(t, init, p, more)
    decreases init, 1
  {
    match init
    case StructLit(_, fields) =>
      var ms := t.core.members;
      forall k | 0 <= k < |ms| ensures MemberLies(ms, k) && ReadsMember(ms, k, init, p, more) {
        assert MemberLies(ms, k) && ReadsMember(ms, k, init, p, anons);
        var i := FieldIndex(fields, ms[k].name);
        if Own(ms, k, Names(fields)) && i >= 0 {
          ReadsMore(ms[k].t, fields[i].val, Part(p, MemberOffset(ms, k), Size(ms[k].t)), anons, more);
        }
      }
    case ArrayLit(_) =>
      ElementsReadMore(t.core.elem, init, if IsArray(t) then p else anons[Followed(p, anons).value].payload, anons, more);
    case AddressOf(_, _, vtable) => AddressReadsMore(t, init, vtable, p, anons, more);
    case AddressOfElement(_, _, _, vtable) => AddressReadsMore(t, init, vtable, p, anons, more);
    case AddressOfLiteral(_, _, vtable) => AddressReadsMore(t, init, vtable, p, anons, more);
    case Cast(u, arg) => ReadsMore(u, arg, p, anons, more);
    case _ =>
  }

  lemma {:induction false} ElementsReadMore(t: Ty, init: Init, p: Payload, anons: seq<Anon>, more: seq<Anon>)
    requires init.ArrayLit? && ReadsElements(t, init, p, anons) && anons <= more
    ensures ReadsElements(t, init, p, more)
    decreases init, 0
  {
    forall k | 0 <= k < |init.elems|
      ensures ElementLies(k, Size(t), |p.bytes|) && Reads(t, init.elems[k], Part(p, k * Size(t), Size(t)), more)
    {
      assert ElementLies(k, Size(t), |p.bytes|);
      ReadsMore(t, init.elems[k], Part(p, k * Size(t), Size(t)), anons, more);
    }
  }

  lemma {:induction false} AddressReadsMore(t: Ty, init: Init, vtable: Option<string>, p: Payload, anons: seq<Anon>,
                                           more: seq<Anon>)
    requires IsAddress(init) && ReadsAddress(t, init, vtable, p, anons) && anons <= more
    ensures ReadsAddress(t, init, vtable, p, more)
    decreases init, 0, 1
  {
    TargetReadsMore(init, if t.ptr == 0 && t.core.Interface? then Part(p, 0, 8) else p, anons, more);
  }

  lemma {:induction false} TargetReadsMore(init: Init, p: Payload, anons: seq<Anon>, more: seq<Anon>)
    requires IsAddress(init) && ReadsTarget(init, p, anons) && anons <= more
    ensures ReadsTarget(init, p, more)
    decreases init, 0, 0
  {
    if init.AddressOfLiteral? {
      var a := Followed(p, anons).value;
      ReadsMore(anons[a].t, init.lit, anons[a].payload, anons, more);
    }
  }

  // ----- every encoding reads -----

  /** Whatever is encoded, for whatever type and whatever is queued already, reads as
      the constant it was made of. */
  lemma {:induction false} EncodedReads(t: Ty, init: Init, q: seq<Anon>)
    requires Encode(t, init, q).Some?
    ensures Reads(t, init, Encode(t, init, q).value.0, Encode(t, init, q).value.1)
    decreases init, 3
  {
    match init
    case IntLit(v) => IntReads(t, v);
    case Negative(v) => IntReads(t, 0 - v);
    case ByteLit(_) =>
    case StringLit(s) => if !IsArray(t) { HeaderReads(StringConstant(s), |s|); }
    case StructLit(lt, fields) => StructReads(t, init, q);
    case ArrayLit(_) => ArrayReads(t, init, q);
    case AddressOf(_, p, v) => AddressReads(t, init, p, v, q);
    case AddressOfElement(_, _, p, v) => AddressReads(t, init, p, v, q);
    case AddressOfLiteral(_, p, v) => AddressReads(t, init, p, v, q);
    case Cast(u, arg) => EncodedReads(u, arg, q);
  }

  lemma {:induction false} AddressReads(t: Ty, init: Init, pointer: Ty, vtable: Option<string>, q: seq<Anon>)
    requires IsAddress(init) && EncodeAddress(t, init, pointer, vtable, q).Some?
    ensures var e := EncodeAddress(t, init, pointer, vtable, q).value; ReadsAddress(t, init, vtable, e.0, e.1)
    decreases init, 2
  {
    hide Encode, ReadsTarget;
    if t.ptr == 0 && t.core.Interface? {
      TargetReads(pointer, init, q);
      var (p, _) := EncodeTarget(pointer, init, q).value;
      Appended(p, Vtable(vtable.value));
    } else {
      TargetReads(t, init, q);
    }
  }

  lemma Appended(p: Payload, v: Sym)
    requires |p.bytes| == 8 && |p.relocs| == 1 && p.relocs[0].offset == 0
    ensures var r := Payload(p.bytes + Zeros(8), p.relocs + [Reloc(8, v, 0)]);
            |r.bytes| == 16 && Part(r, 0, 8) == p && Pointer(Part(r, 8, 8), v, 0)
  {
    var last := Reloc(8, v, 0);
    assert p.relocs == [p.relocs[0]];
    SlotsInBoth(p.relocs, [last], 0, 8);
    SlotsInBoth(p.relocs, [last], 8, 8);
    OneSlot(p.relocs[0], 0, 8);
    OneSlot(p.relocs[0], 8, 8);
    OneSlot(last, 0, 8);
    OneSlot(last, 8, 8);
    var r := Payload(p.bytes + Zeros(8), p.relocs + [last]);
    assert r.bytes[0..8] == p.bytes && r.bytes[8..16] == Zeros(8);
  }

  lemma {:induction false} TargetReads(t: Ty, init: Init, q: seq<Anon>)
    requires IsAddress(init) && EncodeTarget(t, init, q).Some?
    ensures var e := EncodeTarget(t, init, q).value; ReadsTarget(init, e.0, e.1)
    ensures var p := EncodeTarget(t, init, q).value.0; |p.bytes| == 8 && |p.relocs| == 1 && p.relocs[0].offset == 0
    decreases init, 1
  {
    hide Encode;
    if init.AddressOfLiteral? {
      var lt := LitType(init.lit).value;
      var (p, q1) := Encode(lt, init.lit, q).value;
      EncodedReads(lt, init.lit, q);
      ReadsMore(lt, init.lit, p, q1, q1 + [Anon(lt, p)]);
    }
  }

  lemma {:induction false} ArrayReads(t: Ty, init: Init, q: seq<Anon>)
    requires init.ArrayLit? && EncodeArray(t, init.elems, q).Some?
    ensures var e := EncodeArray(t, init.elems, q).value; Reads(t, init, e.0, e.1)
    decreases init, 2
  {
    hide Encode, EncodeElements, ReadsElements, Header;
    ElementsRead(t.core.elem, init, q);
    if IsSlice(t) {
      var (p, q1) := EncodeElements(t.core.elem, init.elems, NOTHING, q).value;
      var a := Anon(Ty(0, false, List(t.core.elem, |init.elems|)), p);
      HeaderReads(Anonymous(|q1|), |init.elems|);
      ElementsReadMore(t.core.elem, init, p, q1, q1 + [a]);
    }
  }

  lemma {:induction false} ElementsRead(t: Ty, init: Init, q: seq<Anon>)
    requires init.ArrayLit? && EncodeElements(t, init.elems, NOTHING, q).Some?
    ensures var e := EncodeElements(t, init.elems, NOTHING, q).value; ReadsElements(t, init, e.0, e.1)
    decreases init, 1
  {
    hide Reads, EncodeElements;
    var (p, q1) := EncodeElements(t, init.elems, NOTHING, q).value;
    ElementsAreGood(t, init.elems, NOTHING, q, false);
    forall k | 0 <= k < |init.elems|
      ensures ElementLies(k, Size(t), |p.bytes|) && Reads(t, init.elems[k], Part(p, k * Size(t), Size(t)), q1)
    {
      ElementFound(t, init, q, k);
    }
  }

  lemma {:induction false} ElementFound(t: Ty, init: Init, q: seq<Anon>, k: nat)
    requires init.ArrayLit? && EncodeElements(t, init.elems, NOTHING, q).Some? && k < |init.elems|
    ensures var (p, q1) := EncodeElements(t, init.elems, NOTHING, q).value;
            ElementLies(k, Size(t), |p.bytes|) && Reads(t, init.elems[k], Part(p, k * Size(t), Size(t)), q1)
    decreases init, 0
  {
    hide Reads, EncodeElements, Size, Part;
    ElementRead(t, init.elems, NOTHING, q, k);
    assert |NOTHING.bytes| + k * Size(t) == k * Size(t);
  }

  lemma {:induction false} ElementRead(t: Ty, elems: seq<Init>, acc: Payload, q: seq<Anon>, k: nat)
    requires EncodeElements(t, elems, acc, q).Some? && k < |elems| && SlotsFit(acc)
    ensures var e := EncodeElements(t, elems, acc, q).value;
            |acc.bytes| + k * Size(t) + Size(t) <= |e.0.bytes| &&
            Reads(t, elems[k], Part(e.0, |acc.bytes| + k * Size(t), Size(t)), e.1)
    decreases elems, 1
  {
    hide Behind, Join, Encode, Contains, SlotsFit, Reads, Extends;
    var (p, q1) := Encode(t, elems[0], q).value;
    var (r, q2) := EncodeElements(t, elems, acc, q).value;
    EncodedFits(t, elems[0], q);
    if k == 0 {
      ElementsAreBehind(t, elems[1..], Join(acc, p), q1);
      JoinedIsContained(acc, p, r);
      ContainedIsPart(r, |acc.bytes|, p);
      ElementsExtend(t, elems[1..], Join(acc, p), q1);
      ExtendsIsPrefix(q1, q2);
      EncodedReads(t, elems[0], q);
      ReadsMore(t, elems[0], p, q1, q2);
    } else {
      JoinFits(acc, p);
      JoinedSize(acc, p);
      ElementRead(t, elems[1..], Join(acc, p), q1, k - 1);
      Next(k, Size(t));
    }
  }

  lemma Next(k: nat, n: nat)
    requires k > 0
    ensures k * n == n + (k - 1) * n
  {
  }

  lemma ExtendsIsPrefix(q: seq<Anon>, r: seq<Anon>)
    requires Extends(q, r, false)
    ensures q <= r
  {
  }

  lemma {:induction false} StructReads(t: Ty, init: Init, q: seq<Anon>)
    requires init.StructLit? && EncodeStruct(t, init.t, init.fields, q).Some?
    ensures var e := EncodeStruct(t, init.t, init.fields, q).value; Reads(t, init, e.0, e.1)
    decreases init, 2
  {
    hide Encode, EncodeMembers, ReadsMember;
    var ms := t.core.members;
    var (p, _, q1) := EncodeMembers(ms, init.fields, Names(init.fields), NOTHING, q).value;
    MembersAreGood(ms, init.fields, Names(init.fields), NOTHING, q, false);
    forall k | 0 <= k < |ms| ensures MemberLies(ms, k) && ReadsMember(ms, k, init, p, q1) {
      MemberRead(ms, init, Names(init.fields), NOTHING, q, k);
      MemberIsRead(ms, k, init, p, q1);
    }
  }

  /** A member behind what is already there. */
  ghost predicate MemberReads(ms: seq<Member>, k: nat, fields: seq<FieldInit>, left: set<string>, p: Payload, off: nat,
                              anons: seq<Anon>)
    requires k < |ms| && off + Size(ms[k].t) <= |p.bytes|
  {
    var part := Part(p, off, Size(ms[k].t));
    var i := FieldIndex(fields, ms[k].name);
    if Own(ms, k, left) && i >= 0 then Reads(ms[k].t, fields[i].val, part, anons) else Blank(part)
  }

  lemma MemberIsRead(ms: seq<Member>, k: nat, init: Init, p: Payload, anons: seq<Anon>)
    requires init.StructLit? && k < |ms| && |p.bytes| == SizeOf(ms) && MemberLies(ms, k)
    requires MemberReads(ms, k, init.fields, Names(init.fields), p, MemberOffset(ms, k), anons)
    ensures ReadsMember(ms, k, init, p, anons)
  {
  }

  /** The encoding of the first member, and what is left to do. */
  ghost predicate Split(ms: seq<Member>, fields: seq<FieldInit>, left: set<string>, q: seq<Anon>,
                        p: Payload, q1: seq<Anon>, left': set<string>)
    requires ms != []
  {
    var m, i := ms[0], FieldIndex(fields, ms[0].name);
    if m.name in left && i >= 0 then
      Encode(m.t, fields[i].val, q) == Some((p, q1)) && left' == left - {m.name}
    else p == Payload(Zeros(Size(m.t)), []) && q1 == q && left' == left
  }

  lemma {:induction false} FirstMemberRead(ms: seq<Member>, init: Init, left: set<string>, acc: Payload, q: seq<Anon>,
                                          p: Payload, q1: seq<Anon>, left': set<string>)
    requires init.StructLit? && ms != [] && EncodeMembers(ms, init.fields, left, acc, q).Some? && SlotsFit(acc)
    requires Split(ms, init.fields, left, q, p, q1, left')
    ensures var e := EncodeMembers(ms, init.fields, left, acc, q).value;
            |acc.bytes| + Size(ms[0].t) <= |e.0.bytes| && MemberReads(ms, 0, init.fields, left, e.0, |acc.bytes|, e.2)
    decreases init, 0
  {
    hide Behind, Join, Encode, Contains, SlotsFit, Reads, Extends, ZeroInitializable, Size;
    var m, i := ms[0], FieldIndex(init.fields, ms[0].name);
    var (r, _, q2) := EncodeMembers(ms, init.fields, left, acc, q).value;
    if m.name in left && i >= 0 { EncodedFits(m.t, init.fields[i].val, q); } else { NoSlots(p); }
    MembersAreBehind(ms[1..], init.fields, left', Join(acc, p), q1);
    JoinedIsContained(acc, p, r);
    ContainedIsPart(r, |acc.bytes|, p);
    if m.name in left && i >= 0 {
      MembersExtend(ms[1..], init.fields, left', Join(acc, p), q1);
      ExtendsIsPrefix(q1, q2);
      EncodedReads(m.t, init.fields[i].val, q);
      ReadsMore(m.t, init.fields[i].val, p, q1, q2);
    }
  }

  lemma {:induction false} MemberRead(ms: seq<Member>, init: Init, left: set<string>, acc: Payload, q: seq<Anon>, k: nat)
    requires init.StructLit? && EncodeMembers(ms, init.fields, left, acc, q).Some? && k < |ms| && SlotsFit(acc)
    ensures MemberLies(ms, k)
    ensures var e := EncodeMembers(ms, init.fields, left, acc, q).value;
            |acc.bytes| + MemberOffset(ms, k) + Size(ms[k].t) <= |e.0.bytes| &&
            MemberReads(ms, k, init.fields, left, e.0, |acc.bytes| + MemberOffset(ms, k), e.2)
    decreases init, 1, |ms|
  {
    hide Join, Encode, SlotsFit, Reads, ZeroInitializable, Size;
    var m, i := ms[0], FieldIndex(init.fields, ms[0].name);
    var given := m.name in left && i >= 0;
    var (p, q1) := if given then Encode(m.t, init.fields[i].val, q).value else (Payload(Zeros(Size(m.t)), []), q);
    var left' := if given then left - {m.name} else left;
    if k == 0 {
      FirstMemberRead(ms, init, left, acc, q, p, q1, left');
    } else {
      if given { EncodedFits(m.t, init.fields[i].val, q); } else { NoSlots(p); }
      JoinFits(acc, p);
      JoinedSize(acc, p);
      MemberRead(ms[1..], init, left', Join(acc, p), q1, k - 1);
      assert ms[..k][1..] == ms[1..][..k - 1];
      LaterMember(ms, k, left, left', given);
    }
  }

  lemma LaterMember(ms: seq<Member>, k: nat, left: set<string>, left': set<string>, given: bool)
    requires 0 < k < |ms| && left' == if given then left - {ms[0].name} else left
    ensures given ==> Own(ms, k, left) == Own(ms[1..], k - 1, left')
  {
    assert ms[1..][k - 1] == ms[k];
  }

  // ----- what can be encoded -----

  /** How many bytes a constant takes at a type. */
  function Length(t: Ty, init: Init): nat
    decreases init
  {
    match init
    case IntLit(_) => if t.core.Scalar? then ScalarBits(t.core.scalar) / 8 else 0
    case Negative(_) => if t.core.Scalar? then ScalarBits(t.core.scalar) / 8 else 0
    case ByteLit(_) => 1
    case StringLit(_) => if IsArray(t) then t.core.n else 16
    case StructLit(_, _) => if t.core.Struct? then SizeOf(t.core.members) else 0
    case ArrayLit(elems) => if IsArray(t) then Size(t.core.elem) * |elems| else 16
    case Cast(u, arg) => Length(u, arg)
    case NotConstant => 0
    case _ => if t.ptr == 0 && t.core.Interface? then 16 else 8
  }

  /** Whether a constant is one for a type: numbers and strings of the right kind,
      literals whose fields are members, and given where zero is no value, all parts
      as long as their types, and addresses for what holds one. */
  ghost predicate Admits(t: Ty, init: Init)
    decreases init, 1
  {
    match init
    case IntLit(_) => t.core.Scalar?
    case Negative(_) => t.core.Scalar?
    case ByteLit(_) => Size(t) == 1
    case StringLit(s) => OfBytes(t) && (IsArray(t) ==> |s| <= t.core.n)
    case StructLit(lt, fields) =>
      && t.core.Struct? && lt.core.Struct? && lt.core.name == t.core.name && NoFieldTwice(fields)
      && (forall i :: 0 <= i < |fields| ==> IsMember(t.core.members, fields[i].name))
      && forall k :: 0 <= k < |t.core.members| ==> AdmitsMember(t.core.members, k, init)
    case ArrayLit(elems) =>
      && t.core.List? && (IsArray(t) ==> t.core.n == |elems|)
      && forall k :: 0 <= k < |elems| ==> Admits(t.core.elem, elems[k]) && Length(t.core.elem, elems[k]) == Size(t.core.elem)
    case AddressOf(_, pointer, vtable) => AdmitsAddress(t, init, pointer, vtable)
    case AddressOfElement(_, _, pointer, vtable) => AdmitsAddress(t, init, pointer, vtable)
    case AddressOfLiteral(_, pointer, vtable) => AdmitsAddress(t, init, pointer, vtable)
    case Cast(u, arg) => Admits(u, arg)
    case NotConstant => false
  }

  predicate IsMember(ms: seq<Member>, name: string) { exists k :: 0 <= k < |ms| && ms[k].name == name }

  ghost predicate AdmitsMember(ms: seq<Member>, k: nat, init: Init)
    requires init.StructLit? && k < |ms|
    decreases init, 0
  {
    var i := FieldIndex(init.fields, ms[k].name);
    if Own(ms, k, Names(init.fields)) && i >= 0 then
      Admits(ms[k].t, init.fields[i].val) && Length(ms[k].t, init.fields[i].val) == Size(ms[k].t)
    else ZeroInitializable(ms[k].t)
  }

  ghost predicate AdmitsAddress(t: Ty, init: Init, pointer: Ty, vtable: Option<string>)
    requires IsAddress(init)
    decreases init, 0
  {
    var plain := t.ptr == 0 && t.core.Interface?;
    var holder := if plain then pointer else t;
    && (plain ==> vtable.Some? && !(pointer.ptr == 0 && pointer.core.Interface?))
    && (holder.ptr > 0 || holder.core.Fn?)
    && (init.AddressOfLiteral? ==> LitType(init.lit).Some? && Admits(LitType(init.lit).value, init.lit))
  }

  /** A constant is encoded exactly if it is one for the type, in as many bytes. */
  lemma {:induction false} EncodedExactly(t: Ty, init: Init, q: seq<Anon>)
    ensures Encode(t, init, q).Some? <==> Admits(t, init)
    ensures Encode(t, init, q).Some? ==> |Encode(t, init, q).value.0.bytes| == Length(t, init)
    decreases init, 3
  {
    hide EncodeArray, EncodeStruct, EncodeAddress, AdmitsAddress;
    match init
    case StructLit(_, _) => StructExactly(t, init, q);
    case ArrayLit(_) => ArrayExactly(t, init, q);
    case AddressOf(_, p, v) => AddressExactly(t, init, p, v, q);
    case AddressOfElement(_, _, p, v) => AddressExactly(t, init, p, v, q);
    case AddressOfLiteral(_, p, v) => AddressExactly(t, init, p, v, q);
    case Cast(u, arg) => EncodedExactly(u, arg, q);
    case _ =>
  }

  lemma {:induction false} ArrayExactly(t: Ty, init: Init, q: seq<Anon>)
    requires init.ArrayLit?
    ensures EncodeArray(t, init.elems, q).Some? <==> Admits(t, init)
    ensures EncodeArray(t, init.elems, q).Some? ==> |EncodeArray(t, init.elems, q).value.0.bytes| == Length(t, init)
    decreases init, 2
  {
    hide Encode, EncodeElements;
    if t.core.List? {
      ElementsExactly(t.core.elem, init.elems, NOTHING, q);
      if EncodeElements(t.core.elem, init.elems, NOTHING, q).Some? {
        ElementsAreGood(t.core.elem, init.elems, NOTHING, q, false);
      }
    }
  }

  lemma {:induction false} AddressExactly(t: Ty, init: Init, pointer: Ty, vtable: Option<string>, q: seq<Anon>)
    requires IsAddress(init)
    ensures var e := EncodeAddress(t, init, pointer, vtable, q);
            && (e.Some? <==> AdmitsAddress(t, init, pointer, vtable))
            && (e.Some? ==> |e.value.0.bytes| == if t.ptr == 0 && t.core.Interface? then 16 else 8)
    decreases init, 2
  {
    hide Encode, Admits;
    if init.AddressOfLiteral? && LitType(init.lit).Some? { EncodedExactly(LitType(init.lit).value, init.lit, q); }
  }

  lemma {:induction false} ElementsExactly(t: Ty, elems: seq<Init>, acc: Payload, q: seq<Anon>)
    ensures EncodeElements(t, elems, acc, q).Some? <==>
              forall k :: 0 <= k < |elems| ==> Admits(t, elems[k]) && Length(t, elems[k]) == Size(t)
    decreases elems, 1
  {
    hide Encode, Admits, Length, Join;
    if elems != [] {
      EncodedExactly(t, elems[0], q);
      if Encode(t, elems[0], q).Some? && |Encode(t, elems[0], q).value.0.bytes| == Size(t) {
        var (p, q1) := Encode(t, elems[0], q).value;
        ElementsExactly(t, elems[1..], Join(acc, p), q1);
        forall k | 0 <= k < |elems| ensures k > 0 ==> elems[k] == elems[1..][k - 1] { }
      }
    }
  }

  ghost predicate AdmitsNext(ms: seq<Member>, k: nat, fields: seq<FieldInit>, left: set<string>)
    requires k < |ms|
  {
    var i := FieldIndex(fields, ms[k].name);
    if Own(ms, k, left) && i >= 0 then Admits(ms[k].t, fields[i].val) && Length(ms[k].t, fields[i].val) == Size(ms[k].t)
    else ZeroInitializable(ms[k].t)
  }

  lemma {:induction false} StructExactly(t: Ty, init: Init, q: seq<Anon>)
    requires init.StructLit?
    ensures EncodeStruct(t, init.t, init.fields, q).Some? <==> Admits(t, init)
    ensures EncodeStruct(t, init.t, init.fields, q).Some? ==>
              |EncodeStruct(t, init.t, init.fields, q).value.0.bytes| == Length(t, init)
    decreases init, 2
  {
    hide Encode, EncodeMembers, ZeroInitializable;
    if t.core.Struct? {
      var ms, fields := t.core.members, init.fields;
      MembersExactly(ms, init, Names(fields), NOTHING, q);
      forall k | 0 <= k < |ms| ensures AdmitsNext(ms, k, fields, Names(fields)) == AdmitsMember(ms, k, init) { }
      if EncodeMembers(ms, fields, Names(fields), NOTHING, q).Some? {
        MembersAreGood(ms, fields, Names(fields), NOTHING, q, false);
        forall name ensures name in Names(fields) ==> FieldIndex(fields, name) >= 0 {
          if name in Names(fields) {
            var i :| 0 <= i < |fields| && fields[i].name == name;
            FieldFound(fields, i);
          }
        }
        var left := EncodeMembers(ms, fields, Names(fields), NOTHING, q).value.1;
        assert left == {} <==> forall i :: 0 <= i < |fields| ==> IsMember(ms, fields[i].name) by {
          forall i | 0 <= i < |fields| ensures fields[i].name in Names(fields) { }
        }
      }
    }
  }

  lemma {:induction false} MembersExactly(ms: seq<Member>, init: Init, left: set<string>, acc: Payload, q: seq<Anon>)
    requires init.StructLit?
    ensures var e := EncodeMembers(ms, init.fields, left, acc, q);
            && (e.Some? <==> forall k :: 0 <= k < |ms| ==> AdmitsNext(ms, k, init.fields, left))
            && (e.Some? ==> forall name :: name in e.value.1 <==>
                              name in left && !(IsMember(ms, name) && FieldIndex(init.fields, name) >= 0))
    decreases init, 1, |ms|
  {
    hide Join, Encode, Admits, Length, ZeroInitializable, Size;
    if ms != [] {
      var m, i := ms[0], FieldIndex(init.fields, ms[0].name);
      var given := m.name in left && i >= 0;
      if given { EncodedExactly(m.t, init.fields[i].val, q); }
      assert AdmitsNext(ms, 0, init.fields, left) <==>
             if given then
               Encode(m.t, init.fields[i].val, q).Some? && |Encode(m.t, init.fields[i].val, q).value.0.bytes| == Size(m.t)
             else ZeroInitializable(m.t);
      if AdmitsNext(ms, 0, init.fields, left) {
        var (p, q1) := if given then Encode(m.t, init.fields[i].val, q).value else (Payload(Zeros(Size(m.t)), []), q);
        var left' := if given then left - {m.name} else left;
        MembersExactly(ms[1..], init, left', Join(acc, p), q1);
        forall k | 0 < k < |ms| ensures AdmitsNext(ms, k, init.fields, left) == AdmitsNext(ms[1..], k - 1, init.fields, left') {
          LaterMember(ms, k, left, left', given);
        }
        forall k | 0 <= k < |ms[1..]|
          ensures AdmitsNext(ms[1..], k, init.fields, left') == AdmitsNext(ms, k + 1, init.fields, left)
        {
          LaterMember(ms, k + 1, left, left', given);
        }
        forall name ensures IsMember(ms, name) <==> name == m.name || IsMember(ms[1..], name) { MemberIn(ms, name); }
      }
    }
  }

  lemma MemberIn(ms: seq<Member>, name: string)
    requires ms != []
    ensures IsMember(ms, name) <==> name == ms[0].name || IsMember(ms[1..], name)
  {
    if IsMember(ms[1..], name) {
      var k :| 0 <= k < |ms[1..]| && ms[1..][k].name == name;
      assert ms[k + 1].name == name;
    }
    if IsMember(ms, name) && name != ms[0].name {
      var k :| 0 <= k < |ms| && ms[k].name == name;
      assert ms[1..][k - 1].name == name;
    }
  }

  /** A global is emitted exactly if its initialiser is one for its type and as long
      as it, and then what is emitted reads as the initialiser. */
  lemma EmittedReads(t: Ty, init: Init)
    ensures Emit(t, init).Some? <==> Admits(t, init) && Length(t, init) == Size(t)
    ensures Emit(t, init).Some? ==> Reads(t, init, Emit(t, init).value.0, Emit(t, init).value.1)
  {
    hide Encode, Admits, Reads, Length;
    EncodedExactly(t, init, []);
    if Emit(t, init).Some? { EncodedReads(t, init, []); }
  }
}
