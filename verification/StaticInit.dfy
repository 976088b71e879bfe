/** Static initialisers (cmd/bosc/globals.go): constants as bytes with address
    slots, and the anonymous globals that `&literal` and slices give rise to. */
module StaticInit {
  import opened Wrappers
  import opened Bytes

  datatype ScalarName = I8 | U8 | BYTE | BOOL | I16 | U16 | I32 | U32 | I64 | U64

  /** A type with its names resolved.  `ptr` counts the pointer levels around
      the core, which keep the core's name. */
  datatype Ty = Ty(ptr: nat, nullable: bool, core: Core)

  /** `List(elem, 0)` is a slice, `List(elem, n)` an array. */
  datatype Core =
    | Scalar(scalar: ScalarName)
    | List(elem: Ty, n: nat)
    | Fn
    | Struct(name: string, members: seq<Member>)
    | Interface(name: string)
    | Alias(name: string, underlying: Ty)

  datatype Member = Member(name: string, t: Ty)

  function Width(s: ScalarName): nat {
    match s
    case I64 => 8
    case U64 => 8
    case I32 => 4
    case U32 => 4
    case I16 => 2
    case U16 => 2
    case _ => 1
  }

  const PTR_SIZE: nat := 8

  /** Bytes that a type occupies in memory. */
  function Size(t: Ty): nat
    decreases t, 0
  {
    if t.core.Fn? || t.ptr > 0 then PTR_SIZE
    else
      match t.core
      case List(elem, n) => if n == 0 then 16 else Size(elem) * n
      case Scalar(s) => Width(s)
      case Alias(_, u) => Size(u)
      case Interface(_) => 16
      case Struct(_, ms) => SizeOf(ms)
      case Fn => PTR_SIZE
  }

  function SizeOf(ms: seq<Member>): nat
    decreases ms, 1
  {
    if ms == [] then 0 else Size(ms[0].t) + SizeOf(ms[1..])
  }

  /** Where a field lies: after everything declared before it. */
  function ByteOffset(ms: seq<Member>, field: string): nat {
    if ms == [] || ms[0].name == field then 0 else Size(ms[0].t) + ByteOffset(ms[1..], field)
  }

  predicate ZeroInitializable(t: Ty)
    decreases t, 0
  {
    if t.ptr > 0 then t.nullable
    else
      match t.core
      case Fn => false
      case List(elem, n) => n == 0 || ZeroInitializable(elem)
      case Interface(_) => t.nullable
      case Alias(_, u) => ZeroInitializable(u)
      case Struct(_, ms) => forall i :: 0 <= i < |ms| ==> ZeroInitializable(ms[i].t)
      case Scalar(_) => true
  }

  /** Constant expressions.  An address carries the type of what it takes the
      address of and, for an interface destination, the vtable if there is one. */
  datatype Init =
    | IntLit(v: nat)
    | ByteLit(b: Byte)
    | StringLit(bytes: seq<Byte>)
    | Negative(v: nat)
    | StructLit(t: Ty, fields: seq<FieldInit>)
    | ArrayLit(elems: seq<Init>)
    | AddressOf(symbol: string, pointer: Ty, vtable: Option<string>)
    | AddressOfElement(symbol: string, index: int, pointer: Ty, vtable: Option<string>)
    | AddressOfLiteral(lit: Init, pointer: Ty, vtable: Option<string>)
    | Cast(underlying: Ty, arg: Init)
    | NotConstant

  datatype FieldInit = FieldInit(name: string, val: Init)

  datatype Sym = Global(name: string) | StringConstant(bytes: seq<Byte>) | Anonymous(i: nat) | Vtable(name: string)

  datatype Reloc = Reloc(offset: nat, symbol: Sym, addend: int)

  datatype Payload = Payload(bytes: seq<Byte>, relocs: seq<Reloc>)

  datatype Anon = Anon(t: Ty, payload: Payload)

  function Shift(rs: seq<Reloc>, base: nat): (s: seq<Reloc>)
    ensures |s| == |rs| && forall i :: 0 <= i < |rs| ==> s[i] == rs[i].(offset := rs[i].offset + base)
  {
    if rs == [] then [] else [rs[0].(offset := rs[0].offset + base)] + Shift(rs[1..], base)
  }

  /** One payload after the other. */
  function Join(p: Payload, q: Payload): Payload { Payload(p.bytes + q.bytes, p.relocs + Shift(q.relocs, |p.bytes|)) }

  function Zeros(n: nat): (z: seq<Byte>)
    ensures |z| == n && forall i :: 0 <= i < n ==> z[i] == 0
  {
    if n == 0 then [] else [0] + Zeros(n - 1)
  }

  const NOTHING: Payload := Payload([], [])

  function Slot(symbol: Sym, addend: int): Payload { Payload(Zeros(8), [Reloc(0, symbol, addend)]) }

  function SliceHeader(symbol: Sym, length: nat): Payload {
    Payload(Zeros(8) + LittleEndian(length, 8), [Reloc(0, symbol, 0)])
  }

  predicate IsArray(t: Ty) { t.core.List? && t.core.n > 0 }

  predicate IsSlice(t: Ty) { t.core.List? && t.core.n == 0 }

  predicate OfBytes(t: Ty) { t.core.List? && t.core.elem.core == Scalar(BYTE) }

  function EncodeInt(t: Ty, v: int): Option<Payload> {
    if t.core.Scalar? then Some(Payload(LittleEndian(v, Width(t.core.scalar)), [])) else None
  }

  function EncodeString(t: Ty, s: seq<Byte>): Option<Payload> {
    if IsArray(t) && OfBytes(t) then
      if |s| > t.core.n then None else Some(Payload(s + Zeros(t.core.n - |s|), []))
    else if IsSlice(t) && OfBytes(t) then Some(SliceHeader(StringConstant(s), |s|))
    else None
  }

  /** The type that a literal has by itself, where its address is taken. */
  function LitType(init: Init): Option<Ty> {
    match init
    case StructLit(t, _) => if t.ptr == 0 && t.core.Struct? then Some(t) else None
    case StringLit(_) => Some(Ty(0, false, List(Ty(0, false, Scalar(BYTE)), 0)))
    case ByteLit(_) => Some(Ty(0, false, Scalar(BYTE)))
    case ArrayLit(es) =>
      if es == [] || LitType(es[0]).None? then None else Some(Ty(0, false, List(LitType(es[0]).value, |es|)))
    case AddressOf(_, p, _) => Some(p)
    case AddressOfElement(_, _, p, _) => Some(p)
    case AddressOfLiteral(_, p, _) => Some(p)
    case _ => None
  }

  /** The encoding of a constant for a destination type, given the anonymous
      globals queued so far; `None` is an error. */
  function Encode(t: Ty, init: Init, q: seq<Anon>): Option<(Payload, seq<Anon>)>
    decreases init, 3
  {
    match init
    case IntLit(v) => Queued(EncodeInt(t, v), q)
    case Negative(v) => Queued(EncodeInt(t, 0 - v), q)
    case ByteLit(b) => if Size(t) == 1 then Some((Payload([b], []), q)) else None
    case StringLit(s) => Queued(EncodeString(t, s), q)
    case StructLit(lt, fields) => EncodeStruct(t, lt, fields, q)
    case ArrayLit(elems) => EncodeArray(t, elems, q)
    case AddressOf(_, pointer, vtable) => EncodeAddress(t, init, pointer, vtable, q)
    case AddressOfElement(_, _, pointer, vtable) => EncodeAddress(t, init, pointer, vtable, q)
    case AddressOfLiteral(_, pointer, vtable) => EncodeAddress(t, init, pointer, vtable, q)
    case Cast(u, arg) => Encode(u, arg, q)
    case NotConstant => None
  }

  function Queued(p: Option<Payload>, q: seq<Anon>): Option<(Payload, seq<Anon>)> {
    if p.None? then None else Some((p.value, q))
  }

  predicate IsAddress(init: Init) { init.AddressOf? || init.AddressOfElement? || init.AddressOfLiteral? }

  /** An address for a pointer, or as the data word of an interface. */
  function EncodeAddress(t: Ty, init: Init, pointer: Ty, vtable: Option<string>, q: seq<Anon>): Option<(Payload, seq<Anon>)>
    requires IsAddress(init)
    decreases init, 2
  {
    if t.ptr == 0 && t.core.Interface? then
      if vtable.None? || (pointer.ptr == 0 && pointer.core.Interface?) then None
      else
        var data := EncodeTarget(pointer, init, q);
        if data.None? then None
        else
          var (p, q1) := data.value;
          Some((Payload(p.bytes + Zeros(8), p.relocs + [Reloc(8, Vtable(vtable.value), 0)]), q1))
    else EncodeTarget(t, init, q)
  }

  function EncodeTarget(t: Ty, init: Init, q: seq<Anon>): Option<(Payload, seq<Anon>)>
    requires IsAddress(init)
    decreases init, 1
  {
    if t.ptr == 0 && !t.core.Fn? then None
    else
      match init
      case AddressOf(symbol, _, _) => Some((Slot(Global(symbol), 0), q))
      case AddressOfElement(symbol, index, pointer, _) => Some((Slot(Global(symbol), index * Size(Pointee(pointer))), q))
      case AddressOfLiteral(lit, _, _) =>
        var lt := LitType(lit);
        if lt.None? then None
        else
          var inner := Encode(lt.value, lit, q);
          if inner.None? then None
          else
            var (p, q1) := inner.value;
            Some((Slot(Anonymous(|q1|), 0), q1 + [Anon(lt.value, p)]))
  }

  function Pointee(t: Ty): Ty { if t.ptr > 0 then t.(ptr := t.ptr - 1) else t }

  function EncodeArray(t: Ty, elems: seq<Init>, q: seq<Anon>): Option<(Payload, seq<Anon>)>
    decreases elems, 2
  {
    if IsArray(t) then
      if t.core.n != |elems| then None else EncodeElements(t.core.elem, elems, NOTHING, q)
    else if IsSlice(t) then
      var backing := EncodeElements(t.core.elem, elems, NOTHING, q);
      if backing.None? then None
      else
        var (p, q1) := backing.value;
        Some((SliceHeader(Anonymous(|q1|), |elems|), q1 + [Anon(Ty(0, false, List(t.core.elem, |elems|)), p)]))
    else None
  }

  /** The elements one after the other, behind what is already there. */
  function EncodeElements(t: Ty, elems: seq<Init>, acc: Payload, q: seq<Anon>): Option<(Payload, seq<Anon>)>
    decreases elems, 1
  {
    if elems == [] then Some((acc, q))
    else
      var e := Encode(t, elems[0], q);
      if e.None? || |e.value.0.bytes| != Size(t) then None
      else EncodeElements(t, elems[1..], Join(acc, e.value.0), e.value.1)
  }

  /** The first field of a literal with some name. */
  function FieldIndex(fields: seq<FieldInit>, name: string): int
    ensures -1 <= FieldIndex(fields, name) < |fields|
    ensures FieldIndex(fields, name) >= 0 ==> fields[FieldIndex(fields, name)].name == name
  {
    if fields == [] then -1
    else if fields[0].name == name then 0
    else
      var i := FieldIndex(fields[1..], name);
      if i < 0 then -1 else i + 1
  }

  predicate NoFieldTwice(fields: seq<FieldInit>) {
    forall i, j :: 0 <= i < j < |fields| ==> fields[i].name != fields[j].name
  }

  function Names(fields: seq<FieldInit>): set<string> { set f <- fields :: f.name }

  function EncodeStruct(t: Ty, lt: Ty, fields: seq<FieldInit>, q: seq<Anon>): Option<(Payload, seq<Anon>)>
    decreases fields, 2
  {
    if !t.core.Struct? || !lt.core.Struct? || lt.core.name != t.core.name || !NoFieldTwice(fields) then None
    else
      var r := EncodeMembers(t.core.members, fields, Names(fields), NOTHING, q);
      if r.None? || r.value.1 != {} then None else Some((r.value.0, r.value.2))
  }

  /** The members in declaration order, zero where the literal has no field left
      for one; returned with the names of the fields not used. */
  function EncodeMembers(ms: seq<Member>, fields: seq<FieldInit>, left: set<string>, acc: Payload, q: seq<Anon>):
    Option<(Payload, set<string>, seq<Anon>)>
    decreases fields, 1, |ms|
  {
    if ms == [] then Some((acc, left, q))
    else
      var m, i := ms[0], FieldIndex(fields, ms[0].name);
      if m.name !in left || i < 0 then
        if ZeroInitializable(m.t) then EncodeMembers(ms[1..], fields, left, Join(acc, Payload(Zeros(Size(m.t)), [])), q) else None
      else
        var e := Encode(m.t, fields[i].val, q);
        if e.None? || |e.value.0.bytes| != Size(m.t) then None
        else EncodeMembers(ms[1..], fields, left - {m.name}, Join(acc, e.value.0), e.value.1)
  }

  /** What is emitted for a global: nothing of another size than its type's. */
  function Emit(t: Ty, init: Init): Option<(Payload, seq<Anon>)> {
    var e := Encode(t, init, []);
    if e.None? || |e.value.0.bytes| != Size(t) then None else e
  }

  // ----- slots -----

  predicate SlotsApart(a: int, b: int) { a + 8 <= b || b + 8 <= a }

  /** Every slot lies wholly inside the payload, apart from the others. */
  ghost predicate SlotsFit(p: Payload) {
    && (forall i :: 0 <= i < |p.relocs| ==> p.relocs[i].offset + 8 <= |p.bytes|)
    && forall i, j :: 0 <= i < j < |p.relocs| ==> SlotsApart(p.relocs[i].offset, p.relocs[j].offset)
  }

  lemma JoinFits(p: Payload, q: Payload)
    requires SlotsFit(p) && SlotsFit(q)
    ensures SlotsFit(Join(p, q))
  {
  }

  /** A payload as long as its type, or the empty backing of an empty slice. */
  predicate Honest(a: Anon) { |a.payload.bytes| == Size(a.t) }

  predicate EmptyBacking(a: Anon) { a.t.ptr == 0 && IsSlice(a.t) && a.payload == NOTHING }

  ghost predicate AnonOk(a: Anon, strict: bool) { SlotsFit(a.payload) && (Honest(a) || (!strict && EmptyBacking(a))) }

  /** What one encoding may add to the queue. */
  ghost predicate Extends(q: seq<Anon>, r: seq<Anon>, strict: bool) {
    |q| <= |r| && r[..|q|] == q && forall i :: |q| <= i < |r| ==> AnonOk(r[i], strict)
  }

  lemma ExtendsMore(q: seq<Anon>, r: seq<Anon>, s: seq<Anon>, strict: bool)
    requires Extends(q, r, strict) && Extends(r, s, strict)
    ensures Extends(q, s, strict)
  {
  }

  lemma ExtendsOne(q: seq<Anon>, r: seq<Anon>, a: Anon, strict: bool)
    requires Extends(q, r, strict) && AnonOk(a, strict)
    ensures Extends(q, r + [a], strict)
  {
  }

  // ----- every encoding -----

  /** No empty slice or array literal anywhere. */
  predicate NoEmptyList(init: Init) {
    match init
    case ArrayLit(es) => es != [] && forall i :: 0 <= i < |es| ==> NoEmptyList(es[i])
    case StructLit(_, fs) => forall i :: 0 <= i < |fs| ==> NoEmptyList(fs[i].val)
    case AddressOfLiteral(lit, _, _) => NoEmptyList(lit)
    case Cast(_, arg) => NoEmptyList(arg)
    case _ => true
  }

  /** What a successful encoding guarantees, of the payload and of the anonymous
      globals it queues. */
  ghost predicate Good(t: Ty, init: Init, q: seq<Anon>, strict: bool, e: Option<(Payload, seq<Anon>)>) {
    e.Some? ==>
      && SlotsFit(e.value.0) && Extends(q, e.value.1, strict)
      && (LitType(init) == Some(t) ==> |e.value.0.bytes| == Size(t))
  }

  lemma {:induction false} EncodeIsGood(t: Ty, init: Init, q: seq<Anon>, strict: bool)
    requires strict ==> NoEmptyList(init)
    ensures Good(t, init, q, strict, Encode(t, init, q))
    decreases init, 3
  {
    match init
    case StructLit(lt, fields) => StructIsGood(t, lt, fields, q, strict);
    case ArrayLit(elems) => ArrayIsGood(t, elems, q, strict);
    case AddressOf(_, p, v) => AddressIsGood(t, init, p, v, q, strict);
    case AddressOfElement(_, _, p, v) => AddressIsGood(t, init, p, v, q, strict);
    case AddressOfLiteral(_, p, v) => AddressIsGood(t, init, p, v, q, strict);
    case Cast(u, arg) => EncodeIsGood(u, arg, q, strict);
    case _ =>
  }

  lemma {:induction false} AddressIsGood(t: Ty, init: Init, pointer: Ty, vtable: Option<string>, q: seq<Anon>, strict: bool)
    requires IsAddress(init) && (strict ==> NoEmptyList(init))
    ensures var e := EncodeAddress(t, init, pointer, vtable, q);
            e.Some? ==> SlotsFit(e.value.0) && Extends(q, e.value.1, strict) &&
                         |e.value.0.bytes| == Size(t.(ptr := if t.core.Interface? then t.ptr else 1))
    decreases init, 2
  {
    hide Encode, Extends, AnonOk;
    TargetIsGood(t, init, q, strict);
    TargetIsGood(pointer, init, q, strict);
  }

  lemma {:induction false} TargetIsGood(t: Ty, init: Init, q: seq<Anon>, strict: bool)
    requires IsAddress(init) && (strict ==> NoEmptyList(init))
    ensures var e := EncodeTarget(t, init, q);
            e.Some? ==> |e.value.0.bytes| == 8 && |e.value.0.relocs| == 1 && e.value.0.relocs[0].offset == 0 &&
                         Extends(q, e.value.1, strict)
    decreases init, 1
  {
    match init
    case AddressOfLiteral(lit, _, _) =>
      if LitType(lit).Some? {
        var lt := LitType(lit).value;
        EncodeIsGood(lt, lit, q, strict);
        if Encode(lt, lit, q).Some? {
          var (p, q1) := Encode(lt, lit, q).value;
          ExtendsOne(q, q1, Anon(lt, p), strict);
        }
      }
    case _ =>
  }

  lemma {:induction false} ArrayIsGood(t: Ty, elems: seq<Init>, q: seq<Anon>, strict: bool)
    requires strict ==> NoEmptyList(ArrayLit(elems))
    ensures Good(t, ArrayLit(elems), q, strict, EncodeArray(t, elems, q))
    decreases elems, 2
  {
    if t.core.List? && EncodeElements(t.core.elem, elems, NOTHING, q).Some? {
      ElementsAreGood(t.core.elem, elems, NOTHING, q, strict);
      var (p, q1) := EncodeElements(t.core.elem, elems, NOTHING, q).value;
      var a := Anon(Ty(0, false, List(t.core.elem, |elems|)), p);
      if elems == [] { assert EmptyBacking(a); } else { assert Honest(a); }
      ExtendsOne(q, q1, a, strict);
    }
  }

  lemma {:induction false} ElementsAreGood(t: Ty, elems: seq<Init>, acc: Payload, q: seq<Anon>, strict: bool)
    requires SlotsFit(acc) && (strict ==> forall i :: 0 <= i < |elems| ==> NoEmptyList(elems[i]))
    ensures var e := EncodeElements(t, elems, acc, q);
            e.Some? ==> SlotsFit(e.value.0) && Extends(q, e.value.1, strict) &&
                         |e.value.0.bytes| == |acc.bytes| + Size(t) * |elems|
    ensures elems == [] ==> EncodeElements(t, elems, acc, q) == Some((acc, q))
    decreases elems, 1
  {
    hide SlotsFit, Encode, Join;
    if elems != [] && EncodeElements(t, elems, acc, q).Some? {
      EncodeIsGood(t, elems[0], q, strict);
      var (p, q1) := Encode(t, elems[0], q).value;
      JoinFits(acc, p);
      JoinedSize(acc, p);
      ElementsAreGood(t, elems[1..], Join(acc, p), q1, strict);
      var (_, q2) := EncodeElements(t, elems[1..], Join(acc, p), q1).value;
      ExtendsMore(q, q1, q2, strict);
      Times(Size(t), |elems|);
    }
  }

  lemma Times(x: nat, n: nat)
    requires n > 0
    ensures x + x * (n - 1) == x * n
  {
  }

  lemma JoinedSize(p: Payload, q: Payload)
    ensures |Join(p, q).bytes| == |p.bytes| + |q.bytes|
  {
  }

  lemma {:induction false} StructIsGood(t: Ty, lt: Ty, fields: seq<FieldInit>, q: seq<Anon>, strict: bool)
    requires strict ==> NoEmptyList(StructLit(lt, fields))
    ensures Good(t, StructLit(lt, fields), q, strict, EncodeStruct(t, lt, fields, q))
    decreases fields, 2
  {
    if t.core.Struct? { MembersAreGood(t.core.members, fields, Names(fields), NOTHING, q, strict); }
  }

  lemma {:induction false} MembersAreGood(ms: seq<Member>, fields: seq<FieldInit>, left: set<string>, acc: Payload, q: seq<Anon>,
                                         strict: bool)
    requires SlotsFit(acc) && (strict ==> forall i :: 0 <= i < |fields| ==> NoEmptyList(fields[i].val))
    ensures var e := EncodeMembers(ms, fields, left, acc, q);
            e.Some? ==> SlotsFit(e.value.0) && Extends(q, e.value.2, strict) && |e.value.0.bytes| == |acc.bytes| + SizeOf(ms)
    decreases fields, 1, |ms|
  {
    hide SlotsFit, Encode, Join;
    if ms != [] && EncodeMembers(ms, fields, left, acc, q).Some? {
      var m, i := ms[0], FieldIndex(fields, ms[0].name);
      if m.name !in left || i < 0 {
        var z := Payload(Zeros(Size(m.t)), []);
        NoSlots(z);
        JoinFits(acc, z);
        JoinedSize(acc, z);
        MembersAreGood(ms[1..], fields, left, Join(acc, z), q, strict);
      } else {
        EncodeIsGood(m.t, fields[i].val, q, strict);
        var (p, q1) := Encode(m.t, fields[i].val, q).value;
        JoinFits(acc, p);
        JoinedSize(acc, p);
        MembersAreGood(ms[1..], fields, left - {m.name}, Join(acc, p), q1, strict);
        var (_, _, q2) := EncodeMembers(ms[1..], fields, left - {m.name}, Join(acc, p), q1).value;
        ExtendsMore(q, q1, q2, strict);
      }
    }
  }

  lemma NoSlots(p: Payload)
    requires p.relocs == []
    ensures SlotsFit(p)
  {
  }

  // ----- empty lists -----

  /** Some global that was queued since has another size than its type's. */
  ghost predicate Spoiled(q: seq<Anon>, r: seq<Anon>) { exists i :: |q| <= i < |r| && !Honest(r[i]) }

  lemma SpoiledMore(q: seq<Anon>, r: seq<Anon>, s: seq<Anon>)
    requires Extends(q, r, false) && Extends(r, s, false) && (Spoiled(q, r) || Spoiled(r, s))
    ensures Spoiled(q, s)
  {
    if Spoiled(q, r) {
      var i :| |q| <= i < |r| && !Honest(r[i]);
      assert s[i] == s[..|r|][i] == r[i];
    }
  }

  /** An empty list anywhere in a constant leaves an empty global declared with the
      size of a slice header. */
  lemma {:induction false} EmptyListSpoils(t: Ty, init: Init, q: seq<Anon>)
    requires Encode(t, init, q).Some? && !NoEmptyList(init)
    ensures Spoiled(q, Encode(t, init, q).value.1)
    decreases init, 3
  {
    match init
    case StructLit(lt, fields) => EmptyListInStruct(t, lt, fields, q);
    case ArrayLit(elems) => EmptyListInArray(t, elems, q);
    case AddressOfLiteral(_, pointer, _) =>
      EmptyListInTarget(if t.ptr == 0 && t.core.Interface? then pointer else t, init, q);
    case Cast(u, arg) => EmptyListSpoils(u, arg, q);
  }

  lemma {:induction false} EmptyListInTarget(t: Ty, init: Init, q: seq<Anon>)
    requires init.AddressOfLiteral? && EncodeTarget(t, init, q).Some? && !NoEmptyList(init.lit)
    ensures Spoiled(q, EncodeTarget(t, init, q).value.1)
    decreases init, 1
  {
    var lt := LitType(init.lit).value;
    EmptyListSpoils(lt, init.lit, q);
    var (p, q1) := Encode(lt, init.lit, q).value;
    var i :| |q| <= i < |q1| && !Honest(q1[i]);
    assert (q1 + [Anon(lt, p)])[i] == q1[i];
  }

  lemma {:induction false} EmptyListInArray(t: Ty, elems: seq<Init>, q: seq<Anon>)
    requires EncodeArray(t, elems, q).Some? && !NoEmptyList(ArrayLit(elems))
    ensures Spoiled(q, EncodeArray(t, elems, q).value.1)
    decreases elems, 2
  {
    if elems == [] {
      var anons := EncodeArray(t, elems, q).value.1;
      assert anons[|q|] == Anon(Ty(0, false, List(t.core.elem, 0)), NOTHING);
    } else {
      var k :| 0 <= k < |elems| && !NoEmptyList(elems[k]);
      EmptyListInElements(t.core.elem, elems, NOTHING, q, k);
      var (p, q1) := EncodeElements(t.core.elem, elems, NOTHING, q).value;
      var i :| |q| <= i < |q1| && !Honest(q1[i]);
      assert (q1 + [Anon(Ty(0, false, List(t.core.elem, |elems|)), p)])[i] == q1[i];
    }
  }

  lemma {:induction false} EmptyListInElements(t: Ty, elems: seq<Init>, acc: Payload, q: seq<Anon>, k: nat)
    requires EncodeElements(t, elems, acc, q).Some? && k < |elems| && !NoEmptyList(elems[k])
    ensures Spoiled(q, EncodeElements(t, elems, acc, q).value.1)
    decreases elems, 1
  {
    hide Spoiled, Encode, Extends, NoEmptyList;
    var (p, q1) := Encode(t, elems[0], q).value;
    EncodeExtends(t, elems[0], q);
    ElementsExtend(t, elems[1..], Join(acc, p), q1);
    if k == 0 {
      EmptyListSpoils(t, elems[0], q);
    } else {
      EmptyListInElements(t, elems[1..], Join(acc, p), q1, k - 1);
    }
    SpoiledMore(q, q1, EncodeElements(t, elems, acc, q).value.1);
  }

  lemma {:induction false} EmptyListInStruct(t: Ty, lt: Ty, fields: seq<FieldInit>, q: seq<Anon>)
    requires EncodeStruct(t, lt, fields, q).Some? && !NoEmptyList(StructLit(lt, fields))
    ensures Spoiled(q, EncodeStruct(t, lt, fields, q).value.1)
    decreases fields, 2
  {
    var k :| 0 <= k < |fields| && !NoEmptyList(fields[k].val);
    assert fields[k].name in Names(fields);
    EmptyListInMembers(t.core.members, fields, Names(fields), NOTHING, q, k);
  }

  /** Every given field is encoded, or the literal is refused. */
  lemma {:induction false} EmptyListInMembers(ms: seq<Member>, fields: seq<FieldInit>, left: set<string>, acc: Payload,
                                             q: seq<Anon>, k: nat)
    requires var e := EncodeMembers(ms, fields, left, acc, q); e.Some? && e.value.1 == {}
    requires NoFieldTwice(fields) && k < |fields| && fields[k].name in left && !NoEmptyList(fields[k].val)
    ensures Spoiled(q, EncodeMembers(ms, fields, left, acc, q).value.2)
    decreases fields, 1, |ms|
  {
    hide Spoiled, Encode, Extends, NoEmptyList, ZeroInitializable, Size;
    if ms != [] {
      var m, i := ms[0], FieldIndex(fields, ms[0].name);
      if m.name !in left || i < 0 {
        FieldFound(fields, k);
        EmptyListInMembers(ms[1..], fields, left, Join(acc, Payload(Zeros(Size(m.t)), [])), q, k);
      } else {
        var (p, q1) := Encode(m.t, fields[i].val, q).value;
        EncodeExtends(m.t, fields[i].val, q);
        MembersExtend(ms[1..], fields, left - {m.name}, Join(acc, p), q1);
        if i == k {
          EmptyListSpoils(m.t, fields[k].val, q);
        } else {
          EmptyListInMembers(ms[1..], fields, left - {m.name}, Join(acc, p), q1, k);
        }
        SpoiledMore(q, q1, EncodeMembers(ms, fields, left, acc, q).value.2);
      }
    }
  }

  lemma {:induction false} FieldFound(fields: seq<FieldInit>, k: nat)
    requires k < |fields|
    ensures FieldIndex(fields, fields[k].name) >= 0
  {
    if fields[0].name != fields[k].name {
      assert fields[1..][k - 1] == fields[k];
      FieldFound(fields[1..], k - 1);
    }
  }

  lemma EncodeExtends(t: Ty, init: Init, q: seq<Anon>)
    requires Encode(t, init, q).Some?
    ensures Extends(q, Encode(t, init, q).value.1, false)
  {
    EncodeIsGood(t, init, q, false);
  }

  lemma {:induction false} ElementsExtend(t: Ty, elems: seq<Init>, acc: Payload, q: seq<Anon>)
    requires EncodeElements(t, elems, acc, q).Some?
    ensures Extends(q, EncodeElements(t, elems, acc, q).value.1, false)
    decreases |elems|
  {
    hide Encode, Join, AnonOk;
    if elems != [] {
      var (p, q1) := Encode(t, elems[0], q).value;
      EncodeExtends(t, elems[0], q);
      ElementsExtend(t, elems[1..], Join(acc, p), q1);
      ExtendsMore(q, q1, EncodeElements(t, elems, acc, q).value.1, false);
    }
  }

  lemma {:induction false} MembersExtend(ms: seq<Member>, fields: seq<FieldInit>, left: set<string>, acc: Payload, q: seq<Anon>)
    requires EncodeMembers(ms, fields, left, acc, q).Some?
    ensures Extends(q, EncodeMembers(ms, fields, left, acc, q).value.2, false)
    decreases |ms|
  {
    hide Encode, Join, AnonOk, ZeroInitializable, Size;
    if ms != [] {
      var m, i := ms[0], FieldIndex(fields, ms[0].name);
      if m.name !in left || i < 0 {
        MembersExtend(ms[1..], fields, left, Join(acc, Payload(Zeros(Size(m.t)), [])), q);
      } else {
        var (p, q1) := Encode(m.t, fields[i].val, q).value;
        EncodeExtends(m.t, fields[i].val, q);
        MembersExtend(ms[1..], fields, left - {m.name}, Join(acc, p), q1);
        ExtendsMore(q, q1, EncodeMembers(ms, fields, left, acc, q).value.2, false);
      }
    }
  }

  // ----- what is emitted -----

  /** Whatever is emitted for a global: the payload has the size of its type, its
      slots lie inside and apart, and so do those of every anonymous global queued
      for it.  Those all have the size of their types too exactly if the
      initialiser has no empty list in it. */
  lemma EmittedIsSound(t: Ty, init: Init)
    requires Emit(t, init).Some?
    ensures var (p, anons) := Emit(t, init).value;
            && |p.bytes| == Size(t) && SlotsFit(p)
            && (forall a <- anons :: SlotsFit(a.payload) && (Honest(a) || EmptyBacking(a)))
            && ((forall a <- anons :: Honest(a)) <==> NoEmptyList(init))
  {
    EncodeIsGood(t, init, [], NoEmptyList(init));
    var (p, anons) := Emit(t, init).value;
    forall a | a in anons ensures AnonOk(a, NoEmptyList(init)) { var i :| 0 <= i < |anons| && anons[i] == a; }
    if !NoEmptyList(init) {
      EmptyListSpoils(t, init, []);
      var i :| 0 <= i < |anons| && !Honest(anons[i]);
      assert anons[i] in anons;
    }
  }

  /** An empty list for a slice is emitted, and is backed by a global declared 16
      bytes long that has none. */
  lemma EmptySliceIsDishonest(elem: Ty)
    ensures var t := Ty(0, false, List(elem, 0));
            && Emit(t, ArrayLit([])) == Some((SliceHeader(Anonymous(0), 0), [Anon(t, NOTHING)]))
            && Size(t) == 16 && !Honest(Anon(t, NOTHING))
  {
    var t := Ty(0, false, List(elem, 0));
    assert EncodeElements(elem, [], NOTHING, []) == Some((NOTHING, []));
    assert [] + [Anon(t, NOTHING)] == [Anon(t, NOTHING)];
  }

  // ----- fields -----

  /** What is already there stays in front, and later slots lie behind it. */
  ghost predicate Behind(acc: Payload, r: Payload) {
    && |acc.bytes| <= |r.bytes| && r.bytes[..|acc.bytes|] == acc.bytes
    && |acc.relocs| <= |r.relocs| && r.relocs[..|acc.relocs|] == acc.relocs
    && forall i :: |acc.relocs| <= i < |r.relocs| ==> r.relocs[i].offset >= |acc.bytes|
  }

  lemma JoinIsBehind(p: Payload, q: Payload)
    ensures Behind(p, Join(p, q))
  {
  }

  lemma BehindMore(p: Payload, q: Payload, r: Payload)
    requires Behind(p, q) && Behind(q, r)
    ensures Behind(p, r)
  {
  }

  lemma {:induction false} MembersAreBehind(ms: seq<Member>, fields: seq<FieldInit>, left: set<string>, acc: Payload,
                                           q: seq<Anon>)
    requires EncodeMembers(ms, fields, left, acc, q).Some?
    ensures Behind(acc, EncodeMembers(ms, fields, left, acc, q).value.0)
    decreases |ms|
  {
    hide Behind, Join, Encode;
    if ms == [] {
      JoinNothing(acc);
      JoinIsBehind(acc, NOTHING);
    } else {
      var m, i := ms[0], FieldIndex(fields, ms[0].name);
      if m.name !in left || i < 0 {
        var z := Payload(Zeros(Size(m.t)), []);
        JoinIsBehind(acc, z);
        MembersAreBehind(ms[1..], fields, left, Join(acc, z), q);
        BehindMore(acc, Join(acc, z), EncodeMembers(ms, fields, left, acc, q).value.0);
      } else {
        var (p, q1) := Encode(m.t, fields[i].val, q).value;
        JoinIsBehind(acc, p);
        MembersAreBehind(ms[1..], fields, left - {m.name}, Join(acc, p), q1);
        BehindMore(acc, Join(acc, p), EncodeMembers(ms, fields, left, acc, q).value.0);
      }
    }
  }

  lemma JoinNothing(p: Payload)
    ensures Join(p, NOTHING) == p
  {
  }

  /** A part of a payload at some offset, with exactly its own slots there. */
  ghost predicate Contains(r: Payload, off: nat, p: Payload) {
    && off + |p.bytes| <= |r.bytes| && r.bytes[off..off + |p.bytes|] == p.bytes
    && exists k :: SlotsFrom(r, off, p, k)
  }

  ghost predicate SlotsFrom(r: Payload, off: nat, p: Payload, k: nat) {
    && k + |p.relocs| <= |r.relocs| && r.relocs[k..k + |p.relocs|] == Shift(p.relocs, off)
    && (forall i :: 0 <= i < k ==> r.relocs[i].offset + 8 <= off)
    && (forall i :: k + |p.relocs| <= i < |r.relocs| ==> r.relocs[i].offset >= off + |p.bytes|)
  }

  lemma JoinedIsContained(acc: Payload, p: Payload, r: Payload)
    requires SlotsFit(acc) && Behind(Join(acc, p), r)
    ensures Contains(r, |acc.bytes|, p)
  {
    var j, k := Join(acc, p), |acc.relocs|;
    assert r.bytes[|acc.bytes|..|j.bytes|] == r.bytes[..|j.bytes|][|acc.bytes|..];
    assert r.relocs[k..k + |p.relocs|] == r.relocs[..|j.relocs|][k..];
    assert j.relocs[k..] == Shift(p.relocs, |acc.bytes|);
    forall i | 0 <= i < k ensures r.relocs[i].offset + 8 <= |acc.bytes| {
      assert r.relocs[i] == r.relocs[..|j.relocs|][i] == acc.relocs[i];
    }
    assert SlotsFrom(r, |acc.bytes|, p, k);
  }

  /** Whether the literal has its own value for a member that is not a repetition. */
  predicate Given(fields: seq<FieldInit>, left: set<string>, name: string) {
    name in left && FieldIndex(fields, name) >= 0
  }

  predicate DistinctMembers(ms: seq<Member>) { forall i, j :: 0 <= i < j < |ms| ==> ms[i].name != ms[j].name }

  /** A member of an encoded struct: its bytes and slots are those of its own
      encoding, for some queue of anonymous globals, shifted to its offset, or
      zero bytes without slots if the literal does not give it. */
  lemma {:induction false} MemberPlaced(ms: seq<Member>, fields: seq<FieldInit>, left: set<string>, acc: Payload,
                                       q: seq<Anon>, k: nat)
    returns (at: seq<Anon>)
    requires EncodeMembers(ms, fields, left, acc, q).Some? && k < |ms| && DistinctMembers(ms) && SlotsFit(acc)
    ensures var r, off, m := EncodeMembers(ms, fields, left, acc, q).value.0, |acc.bytes| + ByteOffset(ms, ms[k].name), ms[k];
            if Given(fields, left, m.name) then
              var e := Encode(m.t, fields[FieldIndex(fields, m.name)].val, at);
              e.Some? && |e.value.0.bytes| == Size(m.t) && Contains(r, off, e.value.0)
            else Contains(r, off, Payload(Zeros(Size(m.t)), []))
    decreases |ms|
  {
    hide Behind, Join, Encode, Contains, SlotsFit;
    var m, i := ms[0], FieldIndex(fields, ms[0].name);
    var r := EncodeMembers(ms, fields, left, acc, q).value.0;
    at := q;
    if m.name !in left || i < 0 {
      var z := Payload(Zeros(Size(m.t)), []);
      if k == 0 {
        MembersAreBehind(ms[1..], fields, left, Join(acc, z), q);
        JoinedIsContained(acc, z, r);
      } else {
        NoSlots(z);
        JoinFits(acc, z);
        JoinedSize(acc, z);
        at := MemberPlaced(ms[1..], fields, left, Join(acc, z), q, k - 1);
      }
    } else {
      var (p, q1) := Encode(m.t, fields[i].val, q).value;
      if k == 0 {
        MembersAreBehind(ms[1..], fields, left - {m.name}, Join(acc, p), q1);
        JoinedIsContained(acc, p, r);
      } else {
        EncodedFits(m.t, fields[i].val, q);
        JoinFits(acc, p);
        JoinedSize(acc, p);
        at := MemberPlaced(ms[1..], fields, left - {m.name}, Join(acc, p), q1, k - 1);
      }
    }
  }

  lemma EncodedFits(t: Ty, init: Init, q: seq<Anon>)
    requires Encode(t, init, q).Some?
    ensures SlotsFit(Encode(t, init, q).value.0)
  {
    EncodeIsGood(t, init, q, false);
  }

  /** The same for the elements of an array. */
  lemma {:induction false} ElementPlaced(t: Ty, elems: seq<Init>, acc: Payload, q: seq<Anon>, k: nat) returns (at: seq<Anon>)
    requires EncodeElements(t, elems, acc, q).Some? && k < |elems| && SlotsFit(acc)
    ensures var e := Encode(t, elems[k], at);
            e.Some? && |e.value.0.bytes| == Size(t) &&
            Contains(EncodeElements(t, elems, acc, q).value.0, |acc.bytes| + k * Size(t), e.value.0)
    decreases |elems|
  {
    hide Behind, Join, Encode, Contains, SlotsFit;
    var (p, q1) := Encode(t, elems[0], q).value;
    if k == 0 {
      at := q;
      ElementsAreBehind(t, elems[1..], Join(acc, p), q1);
      JoinedIsContained(acc, p, EncodeElements(t, elems, acc, q).value.0);
    } else {
      EncodedFits(t, elems[0], q);
      JoinFits(acc, p);
      JoinedSize(acc, p);
      at := ElementPlaced(t, elems[1..], Join(acc, p), q1, k - 1);
      Times(Size(t), k);
      assert k * Size(t) == Size(t) * k && (k - 1) * Size(t) == Size(t) * (k - 1);
    }
  }

  lemma {:induction false} ElementsAreBehind(t: Ty, elems: seq<Init>, acc: Payload, q: seq<Anon>)
    requires EncodeElements(t, elems, acc, q).Some?
    ensures Behind(acc, EncodeElements(t, elems, acc, q).value.0)
    decreases |elems|
  {
    hide Behind, Join, Encode;
    if elems == [] {
      JoinNothing(acc);
      JoinIsBehind(acc, NOTHING);
    } else {
      var (p, q1) := Encode(t, elems[0], q).value;
      JoinIsBehind(acc, p);
      ElementsAreBehind(t, elems[1..], Join(acc, p), q1);
      BehindMore(acc, Join(acc, p), EncodeElements(t, elems, acc, q).value.0);
    }
  }

  // ----- as the compiler does it -----

  class Context {
    var anonGlobals: seq<Anon>

    constructor ()
      ensures anonGlobals == []
    {
      anonGlobals := [];
    }

    method AddAnonGlobal(t: Ty, p: Payload) returns (symbol: Sym)
      modifies this
      ensures anonGlobals == old(anonGlobals) + [Anon(t, p)] && symbol == Anonymous(|old(anonGlobals)|)
    {
      symbol := Anonymous(|anonGlobals|);
      anonGlobals := anonGlobals + [Anon(t, p)];
    }

    method EncodeStaticInit(t: Ty, init: Init) returns (r: Option<Payload>)
      modifies this
      ensures r.Some? == Encode(t, init, old(anonGlobals)).Some?
      ensures r.Some? ==> Encode(t, init, old(anonGlobals)).value == (r.value, anonGlobals)
      decreases init, 3
    {
      match init
      case IntLit(v) => r := EncodeInt(t, v);
      case Negative(v) => r := EncodeInt(t, 0 - v);
      case ByteLit(b) => r := if Size(t) != 1 then None else Some(Payload([b], []));
      case StringLit(s) => r := EncodeString(t, s);
      case StructLit(lt, fields) => r := EncodeStructLiteral(t, lt, fields);
      case ArrayLit(elems) => r := EncodeArrayLiteral(t, elems);
      case AddressOf(_, p, v) => r := EncodeAddressBytes(t, init, p, v);
      case AddressOfElement(_, _, p, v) => r := EncodeAddressBytes(t, init, p, v);
      case AddressOfLiteral(_, p, v) => r := EncodeAddressBytes(t, init, p, v);
      case Cast(u, arg) => r := EncodeStaticInit(u, arg);
      case NotConstant => r := None;
    }

    method EncodeAddressBytes(t: Ty, init: Init, pointer: Ty, vtable: Option<string>) returns (r: Option<Payload>)
      requires IsAddress(init)
      modifies this
      ensures r.Some? == EncodeAddress(t, init, pointer, vtable, old(anonGlobals)).Some?
      ensures r.Some? ==> EncodeAddress(t, init, pointer, vtable, old(anonGlobals)).value == (r.value, anonGlobals)
      decreases init, 2
    {
      if t.ptr == 0 && t.core.Interface? {
        if pointer.ptr == 0 && pointer.core.Interface? { return None; }
        if vtable.None? { return None; }
        r := EncodePointerData(pointer, init);
        if r.None? { return; }
        return Some(Payload(r.value.bytes + Zeros(8), r.value.relocs + [Reloc(8, Vtable(vtable.value), 0)]));
      }
      r := EncodePointerData(t, init);
    }

    method EncodePointerData(t: Ty, init: Init) returns (r: Option<Payload>)
      requires IsAddress(init)
      modifies this
      ensures r.Some? == EncodeTarget(t, init, old(anonGlobals)).Some?
      ensures r.Some? ==> EncodeTarget(t, init, old(anonGlobals)).value == (r.value, anonGlobals)
      decreases init, 1
    {
      if t.ptr == 0 && !t.core.Fn? { return None; }
      match init
      case AddressOf(symbol, _, _) => r := Some(Slot(Global(symbol), 0));
      case AddressOfElement(symbol, index, pointer, _) => r := Some(Slot(Global(symbol), index * Size(Pointee(pointer))));
      case AddressOfLiteral(lit, _, _) =>
        var lt := LitType(lit);
        if lt.None? { return None; }
        r := EncodeStaticInit(lt.value, lit);
        if r.None? { return; }
        var name := AddAnonGlobal(lt.value, r.value);
        r := Some(Slot(name, 0));
    }

    method EncodeArrayLiteral(t: Ty, elems: seq<Init>) returns (r: Option<Payload>)
      modifies this
      ensures r.Some? == EncodeArray(t, elems, old(anonGlobals)).Some?
      ensures r.Some? ==> EncodeArray(t, elems, old(anonGlobals)).value == (r.value, anonGlobals)
      decreases elems, 2
    {
      if !t.core.List? { return None; }
      if t.core.n > 0 {
        if t.core.n != |elems| { return None; }
        r := EncodeArrayContent(t.core.elem, elems);
        return;
      }
      r := EncodeArrayContent(t.core.elem, elems);
      if r.None? { return; }
      var name := AddAnonGlobal(Ty(0, false, List(t.core.elem, |elems|)), r.value);
      r := Some(SliceHeader(name, |elems|));
    }

    method EncodeArrayContent(t: Ty, elems: seq<Init>) returns (r: Option<Payload>)
      modifies this
      ensures r.Some? == EncodeElements(t, elems, NOTHING, old(anonGlobals)).Some?
      ensures r.Some? ==> EncodeElements(t, elems, NOTHING, old(anonGlobals)).value == (r.value, anonGlobals)
      decreases elems, 1
    {
      hide Encode;
      var out := NOTHING;
      for i := 0 to |elems|
        invariant EncodeElements(t, elems, NOTHING, old(anonGlobals)) == EncodeElements(t, elems[i..], out, anonGlobals)
      {
        assert elems[i..][0] == elems[i] && elems[i..][1..] == elems[i + 1..];
        var e := EncodeStaticInit(t, elems[i]);
        if e.None? || |e.value.bytes| != Size(t) { return None; }
        var base := |out.bytes|;
        out := Payload(out.bytes + e.value.bytes, out.relocs + Shift(e.value.relocs, base));
      }
      assert elems[|elems|..] == [];
      return Some(out);
    }

    method EncodeStructLiteral(t: Ty, lt: Ty, fields: seq<FieldInit>) returns (r: Option<Payload>)
      modifies this
      ensures r.Some? == EncodeStruct(t, lt, fields, old(anonGlobals)).Some?
      ensures r.Some? ==> EncodeStruct(t, lt, fields, old(anonGlobals)).value == (r.value, anonGlobals)
      decreases fields, 2
    {
      hide Encode;
      if !t.core.Struct? || !lt.core.Struct? || lt.core.name != t.core.name { return None; }
      var provided: set<string> := {};
      for i := 0 to |fields|
        invariant provided == Names(fields[..i]) && NoFieldTwice(fields[..i])
      {
        assert fields[..i + 1] == fields[..i] + [fields[i]];
        if fields[i].name in provided {
          var j :| 0 <= j < i && fields[j].name == fields[i].name;
          return None;
        }
        provided := provided + {fields[i].name};
      }
      assert fields[..|fields|] == fields;
      r := EncodeFields(t.core.members, fields);
    }

    method EncodeFields(ms: seq<Member>, fields: seq<FieldInit>) returns (r: Option<Payload>)
      modifies this
      ensures var e := EncodeMembers(ms, fields, Names(fields), NOTHING, old(anonGlobals));
              && r.Some? == (e.Some? && e.value.1 == {})
              && (r.Some? ==> e.value.0 == r.value && e.value.2 == anonGlobals)
      decreases fields, 1
    {
      hide Encode;
      var out, provided := NOTHING, Names(fields);
      for i := 0 to |ms|
        invariant EncodeMembers(ms, fields, Names(fields), NOTHING, old(anonGlobals)) ==
                  EncodeMembers(ms[i..], fields, provided, out, anonGlobals)
      {
        assert ms[i..][0] == ms[i] && ms[i..][1..] == ms[i + 1..];
        var m := ms[i];
        var k := FieldIndex(fields, m.name);
        if m.name !in provided || k < 0 {
          if !ZeroInitializable(m.t) { return None; }
          out := Join(out, Payload(Zeros(Size(m.t)), []));
          continue;
        }
        var e := EncodeStaticInit(m.t, fields[k].val);
        if e.None? || |e.value.bytes| != Size(m.t) { return None; }
        var base := |out.bytes|;
        out := Payload(out.bytes + e.value.bytes, out.relocs + Shift(e.value.relocs, base));
        provided := provided - {m.name};
      }
      assert ms[|ms|..] == [];
      r := if provided != {} then None else Some(out);
    }

    /** A global with an initialiser: its payload, if it has the size of its type;
        the anonymous globals are left in the queue. */
    method EmitGlobal(t: Ty, init: Init) returns (r: Option<Payload>)
      requires anonGlobals == []
      modifies this
      ensures r.Some? == Emit(t, init).Some?
      ensures r.Some? ==> Emit(t, init).value == (r.value, anonGlobals)
    {
      r := EncodeStaticInit(t, init);
      if r.Some? && |r.value.bytes| != Size(t) { r := None; }
    }
  }
}
