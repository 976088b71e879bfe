/** A reference decoder for whole instructions, after the Intel SDM, volume 2A,
    section 2.1, and what it recovers from an encoded form. */
module FormDecoding {
  import opened Wrappers
  import opened Bytes
  import opened Registers
  import opened ObjectFile
  import opened Encoder
  import opened Decoding

  datatype Instruction = Instruction(
    prefixes: seq<Byte>,
    rex: seq<Byte>,
    opcode: seq<Byte>,
    operands: Decoded,
    immediate: seq<Byte>,
    length: nat)

  /** The prefixes of section 2.1.1. */
  predicate Legacy(b: Byte) { b in {0xF0, 0xF2, 0xF3, 0x2E, 0x36, 0x3E, 0x26, 0x64, 0x65, 0x66, 0x67} }

  predicate IsRex(b: Byte) { b / 16 == 4 }

  function LegacyCount(bs: seq<Byte>): (n: nat)
    ensures n <= |bs|
  {
    if bs == [] || !Legacy(bs[0]) then 0 else 1 + LegacyCount(bs[1..])
  }

  /** One byte, or two after 0F, or three after 0F 38 and 0F 3A (section 2.1.2). */
  function OpcodeLength(bs: seq<Byte>): nat
    requires bs != []
  {
    if bs[0] != 0x0F then 1 else if |bs| > 1 && (bs[1] == 0x38 || bs[1] == 0x3A) then 3 else 2
  }

  /** The prefixes, the REX prefix if there is one, and what follows them. */
  datatype Head = Head(prefixes: seq<Byte>, rex: seq<Byte>, rest: seq<Byte>)

  function ReadHead(bs: seq<Byte>): Head {
    var n := LegacyCount(bs);
    var rex := if n < |bs| && IsRex(bs[n]) then [bs[n]] else [];
    Head(bs[..n], rex, bs[n + |rex|..])
  }

  /** The width of an operand whose width the opcode leaves open: the REX prefix, then
      the prefix 66, in 64-bit mode (volume 1, table 3-4). */
  function OperandSize(prefixes: seq<Byte>, rex: seq<Byte>): int {
    if ReadRex(rex).w == 1 then 64 else if 0x66 in prefixes then 16 else 32
  }

  /** The width of an operand: as the opcode fixes it, or as the prefixes say. */
  function WidthRead(prefixes: seq<Byte>, rex: seq<Byte>, fixed: Option<int>): int {
    if fixed.Some? then fixed.value else OperandSize(prefixes, rex)
  }

  /** An instruction with a ModRM byte and so many bytes of immediate. */
  function DecodeInstruction(bs: seq<Byte>, immediate: nat): Option<Instruction> {
    var h := ReadHead(bs);
    if h.rest == [] || |h.rest| < OpcodeLength(h.rest) then None else DecodeRest(h.prefixes, h.rex, h.rest, immediate)
  }

  function DecodeRest(prefixes: seq<Byte>, rex: seq<Byte>, op: seq<Byte>, immediate: nat): Option<Instruction>
    requires op != [] && OpcodeLength(op) <= |op|
  {
    var k := OpcodeLength(op);
    var d := Decode(ReadRex(rex), op[k..]);
    if d.None? || |op| < k + d.value.length + immediate then None
    else
      var end := k + d.value.length;
      Some(Instruction(prefixes, rex, op[..k], d.value, op[end..end + immediate], |prefixes| + |rex| + end + immediate))
  }

  // ----- forms -----

  function PrefixParts(ps: seq<Byte>): seq<Part> { seq(|ps|, i requires 0 <= i < |ps| => PrefixPart(ps[i])) }

  function OpcodeParts(ops: seq<Byte>): seq<Part> { seq(|ops|, i requires 0 <= i < |ops| => OpcodePart(ops[i], None)) }

  /** A form with a ModRM part, its immediate being the byte operand of some size. */
  function Form(ps: seq<Byte>, x: Rex, ops: seq<Byte>, m: ModRM, imm: Option<(nat, nat)>): seq<Part> {
    PrefixParts(ps) + [RexPart(x)] + OpcodeParts(ops) + [ModRMPart(m)] +
    if imm.Some? then [ImmediatePart(imm.value.0, imm.value.1)] else []
  }

  /** The opcode bytes are those of one opcode. */
  predicate IsOpcode(ops: seq<Byte>) {
    ops != [] && !Legacy(ops[0]) && !IsRex(ops[0]) && OpcodeLength(ops) == |ops|
  }

  /** The fields of the form speak of operand i and, in the reg field, of a register
      or of the opcode. */
  predicate FormOperands(x: Rex, m: ModRM, os: seq<Arg>, i: nat) {
    && i < |os| && SameOperands(x, m, os, i)
    && m.mode == (if os[i].RegArg? then Literal(3) else Operand(i))
    && match os[i]
       case RegArg(_) => true
       case Ind(base, off, symbol) => Fits32(off) && (symbol == "" ==> Width(base) == 64)
       case BaseIndex(base, index, scale) =>
         Width(base) == 64 && Width(index) == 64 && index != RSP && (scale == 1 || scale == 2 || scale == 4 || scale == 8)
       case Global(_) => true
       case Imm8(_) => false
  }

  predicate ImmediateFits(imm: Option<(nat, nat)>, os: seq<Arg>) {
    imm.Some? ==> imm.value.1 < |os| && os[imm.value.1].Imm8? &&
                  (imm.value.0 == 1 || imm.value.0 == 2 || imm.value.0 == 4 || imm.value.0 == 8)
  }

  function ImmediateBytes(imm: Option<(nat, nat)>, os: seq<Arg>): seq<Byte>
    requires ImmediateFits(imm, os)
  {
    if imm.None? then [] else LittleEndian(os[imm.value.1].imm, imm.value.0)
  }

  /** Where an operand is. */
  function Meant(o: Arg): Place
    requires !o.Imm8? && (o.BaseIndex? ==> o.scale > 0)
  {
    match o
    case RegArg(r) => InRegister(RegByte(r))
    case Ind(base, off, symbol) => if symbol != "" then RipRelative(off) else InMemory(Some(RegByte(base)), None, 1, off)
    case BaseIndex(base, index, scale) => InMemory(Some(RegByte(base)), Some(RegByte(index)), scale, 0)
    case Global(_) => RipRelative(0)
  }

  /** A number that was read names a register exactly if it was read in its width. */
  predicate NamedAt(num: nat, prefixes: seq<Byte>, rex: seq<Byte>, fixed: Option<int>, r: Reg) {
    var width := WidthRead(prefixes, rex, fixed);
    RegisterNamed(num, width, rex != []) == r <==> width == Width(r)
  }

  predicate NamesThem(read: Instruction, m: ModRM, os: seq<Arg>, i: nat, fixed: Option<int>)
    requires i < |os| && (m.reg.Operand? ==> m.reg.i < |os| && os[m.reg.i].RegArg?)
  {
    && (m.reg.Operand? ==> NamedAt(read.operands.reg, read.prefixes, read.rex, fixed, os[m.reg.i].reg))
    && (os[i].RegArg? ==> read.operands.rm.InRegister? &&
                          NamedAt(read.operands.rm.num, read.prefixes, read.rex, fixed, os[i].reg))
  }

  /** The prefix that was read: there is one exactly if the form asks for one or an
      operand needs it, and then it says whether the operands have 64 bits. */
  predicate PrefixRead(rex: seq<Byte>, x: Rex, os: seq<Arg>)
    requires os == [] || RexFieldsIn(x, |os|)
  {
    (rex != [] <==> os == [] || Needed(x, os)) && (rex != [] ==> ReadRex(rex).w == x.w % 2)
  }

  predicate OperandsRead(read: Instruction, x: Rex, m: ModRM, os: seq<Arg>, i: nat)
    requires FormOperands(x, m, os, i)
  {
    PrefixRead(read.rex, x, os) && RegFieldRead(read.operands.reg, m, os) && read.operands.rm == Meant(os[i])
  }

  predicate HasHighByte(os: seq<Arg>) { exists o <- os :: o.RegArg? && o.reg.view.High8? }

  /** With one prefix part, a form is refused exactly for a high byte register beside a
      prefix that is emitted. */
  lemma RefusedByPrefix(parts: seq<Part>, x: Option<Rex>, os: seq<Arg>)
    requires (forall p <- parts :: PartFits(p, |os|)) && (forall p <- parts :: p.RexPart? ==> x == Some(p.rex))
    requires x.Some? ==> RexPart(x.value) in parts
    ensures Refused(parts, os) <==> x.Some? && RexBytes(x.value, os) != [] && HasHighByte(os)
  {
    hide RexBytes;
  }

  // ----- the bytes of a form -----

  lemma {:induction false} FormAppend(a: seq<Part>, b: seq<Part>, os: seq<Arg>, at: nat)
    requires forall p <- a + b :: PartFits(p, |os|)
    requires FormBytes(a, os, at).Some? && FormBytes(b, os, at + |FormBytes(a, os, at).value.bytes|).Some?
    ensures FormBytes(a + b, os, at).Some?
    ensures FormBytes(a + b, os, at).value.bytes ==
            FormBytes(a, os, at).value.bytes + FormBytes(b, os, at + |FormBytes(a, os, at).value.bytes|).value.bytes
    decreases |b|
  {
    hide PartBytes;
    if b == [] {
      assert a + b == a;
    } else {
      var most := b[..|b| - 1];
      assert (a + b)[..|a + b| - 1] == a + most;
      assert forall p <- a + most :: p in a + b;
      FormAppend(a, most, os, at);
    }
  }

  lemma {:induction false} PrefixBytes(ps: seq<Byte>, os: seq<Arg>, at: nat)
    ensures FormBytes(PrefixParts(ps), os, at).Some? && FormBytes(PrefixParts(ps), os, at).value.bytes == ps
  {
    if ps != [] {
      var most := ps[..|ps| - 1];
      PrefixBytes(most, os, at);
      assert PrefixParts(ps)[..|ps| - 1] == PrefixParts(most);
      assert most + [ps[|ps| - 1]] == ps;
    }
  }

  lemma {:induction false} OpcodeBytes(ops: seq<Byte>, os: seq<Arg>, at: nat)
    ensures FormBytes(OpcodeParts(ops), os, at).Some? && FormBytes(OpcodeParts(ops), os, at).value.bytes == ops
  {
    if ops != [] {
      var most := ops[..|ops| - 1];
      OpcodeBytes(most, os, at);
      assert OpcodeParts(ops)[..|ops| - 1] == OpcodeParts(most);
      assert most + [ops[|ops| - 1]] == ops;
    }
  }

  lemma OneBytes(p: Part, os: seq<Arg>, at: nat)
    requires PartFits(p, |os|) && PartBytes(p, os, at).Some?
    ensures FormBytes([p], os, at).Some? && FormBytes([p], os, at).value.bytes == PartBytes(p, os, at).value.bytes
  {
    hide PartBytes;
    assert [p][..0] == [];
    assert [] + PartBytes(p, os, at).value.bytes == PartBytes(p, os, at).value.bytes;
  }

  lemma FormIs(ps: seq<Byte>, x: Rex, ops: seq<Byte>, m: ModRM, imm: Option<(nat, nat)>, os: seq<Arg>, at: nat)
    requires os != [] && RexFieldsIn(x, |os|) && FieldsIn(m, |os|) && ImmediateFits(imm, os) && ModRMBytes(m, os, 0).Some?
    ensures forall p <- Form(ps, x, ops, m, imm) :: PartFits(p, |os|)
    ensures FormBytes(Form(ps, x, ops, m, imm), os, at).Some?
    ensures FormBytes(Form(ps, x, ops, m, imm), os, at).value.bytes ==
            ps + RexBytes(x, os) + ops + ModRMBytes(m, os, 0).value.bytes + ImmediateBytes(imm, os)
  {
    hide FormBytes, RexBytes, ModRMBytes, LittleEndian, RexFieldsIn, FieldsIn;
    var a := PrefixParts(ps);
    var b := a + [RexPart(x)];
    var c := b + OpcodeParts(ops);
    var d := c + [ModRMPart(m)];
    PrefixBytes(ps, os, at);
    OneBytes(RexPart(x), os, at + |ps|);
    FormAppend(a, [RexPart(x)], os, at);
    var n := |ps + RexBytes(x, os)|;
    OpcodeBytes(ops, os, at + n);
    FormAppend(b, OpcodeParts(ops), os, at);
    ModRMAnywhere(m, os, at + n + |ops|, 0);
    OneBytes(ModRMPart(m), os, at + n + |ops|);
    FormAppend(c, [ModRMPart(m)], os, at);
    if imm.Some? {
      var i := ImmediatePart(imm.value.0, imm.value.1);
      OneBytes(i, os, at + n + |ops| + |ModRMBytes(m, os, 0).value.bytes|);
      FormAppend(d, [i], os, at);
    } else {
      assert Form(ps, x, ops, m, imm) == d;
    }
  }

  // ----- decoding -----

  lemma {:induction false} PrefixesRead(ps: seq<Byte>, rest: seq<Byte>)
    requires (forall b <- ps :: Legacy(b)) && rest != [] && !Legacy(rest[0])
    ensures LegacyCount(ps + rest) == |ps|
  {
    if ps == [] {
      assert ps + rest == rest;
    } else {
      PrefixesRead(ps[1..], rest);
      assert (ps + rest)[1..] == ps[1..] + rest;
    }
  }

  lemma RexRead(x: Rex, os: seq<Arg>)
    requires os == [] || RexFieldsIn(x, |os|)
    ensures var bs := RexBytes(x, os); |bs| <= 1 && (bs != [] ==> IsRex(bs[0]) && !Legacy(bs[0]))
  {
    hide GetRegister, RexX, NeedREX, RegByte;
  }

  lemma PrefixIsRead(x: Rex, m: ModRM, os: seq<Arg>, i: nat)
    requires i < |os| && SameOperands(x, m, os, i)
    ensures PrefixRead(RexBytes(x, os), x, os)
  {
    hide RexBytes, ReadRex, Needed;
    PrefixPresent(x, m, os, i);
    PrefixBits(x, os);
  }

  lemma OperandsRecovered(x: Rex, m: ModRM, os: seq<Arg>, i: nat, rest: seq<Byte>)
    requires FormOperands(x, m, os, i)
    ensures var e := ModRMBytes(m, os, 0);
            e.Some? && Decode(ReadRex(RexBytes(x, os)), e.value.bytes + rest) ==
                       Some(Decoded(RegNumber(x, m, os), Meant(os[i]), |e.value.bytes|))
  {
    hide ModRMBytes, Decode, RexBytes, ReadRex, RegByte, RegNumber;
    match os[i]
    case RegArg(_) => RegistersDecode(x, m, os, i, rest);
    case Ind(_, _, symbol) =>
      if symbol == "" { BaseRecovered(x, m, os, i, 0, rest); } else { GlobalRecovered(x, m, os, i, 0, rest); }
    case BaseIndex(_, _, _) => IndexDecodes(x, m, os, i, rest);
    case Global(_) => GlobalRecovered(x, m, os, i, 0, rest);
  }

  lemma RegistersDecode(x: Rex, m: ModRM, os: seq<Arg>, i: nat, rest: seq<Byte>)
    requires FormOperands(x, m, os, i) && os[i].RegArg?
    ensures var e := ModRMBytes(m, os, 0);
            e.Some? && Decode(ReadRex(RexBytes(x, os)), e.value.bytes + rest) ==
                       Some(Decoded(RegNumber(x, m, os), Meant(os[i]), |e.value.bytes|))
  {
    hide Decode, RexBytes, ReadRex, RegByte, RegNumber;
    RegistersRecovered(x, m, os, i, 0, rest);
  }

  lemma IndexDecodes(x: Rex, m: ModRM, os: seq<Arg>, i: nat, rest: seq<Byte>)
    requires FormOperands(x, m, os, i) && os[i].BaseIndex?
    ensures var e := ModRMBytes(m, os, 0);
            e.Some? && Decode(ReadRex(RexBytes(x, os)), e.value.bytes + rest) ==
                       Some(Decoded(RegNumber(x, m, os), Meant(os[i]), |e.value.bytes|))
  {
    hide Decode, RexBytes, ReadRex, RegNumber;
    IndexRecovered(x, m, os, i, 0, rest);
  }

  lemma RestRead(ps: seq<Byte>, rex: seq<Byte>, ops: seq<Byte>, d: Decoded, modrm: seq<Byte>, imm: seq<Byte>, rest: seq<Byte>)
    requires IsOpcode(ops) && Decode(ReadRex(rex), modrm + (imm + rest)) == Some(d) && d.length == |modrm|
    ensures var op := ops + (modrm + (imm + rest));
            && OpcodeLength(op) == |ops|
            && DecodeRest(ps, rex, op, |imm|) == Some(Instruction(ps, rex, ops, d, imm, |ps| + |rex| + |ops| + |modrm| + |imm|))
  {
    hide Decode, ReadRex, Legacy, IsRex;
    var op := ops + (modrm + (imm + rest));
    assert OpcodeLength(op) == |ops|;
    hide OpcodeLength;
    assert op[|ops|..] == modrm + (imm + rest) && op[..|ops|] == ops;
    var end := |ops| + |modrm|;
    assert op[end..] == imm + rest;
    assert op[end..end + |imm|] == op[end..][..|imm|] == imm;
  }

  lemma StartRead(ps: seq<Byte>, rex: seq<Byte>, op: seq<Byte>)
    requires (forall b <- ps :: Legacy(b)) && |rex| <= 1 && (rex != [] ==> IsRex(rex[0]) && !Legacy(rex[0]))
    requires op != [] && !Legacy(op[0]) && !IsRex(op[0])
    ensures ReadHead(ps + (rex + op)) == Head(ps, rex, op)
  {
    hide Legacy, IsRex, LegacyCount;
    PrefixesRead(ps, rex + op);
    var bs := ps + (rex + op);
    assert bs[..|ps|] == ps && bs[|ps|] == (rex + op)[0];
    assert bs[|ps| + |rex|..] == op;
    if rex != [] { assert [bs[|ps|]] == rex; }
  }

  /** The decoder takes the bytes apart as they were put together. */
  lemma PartsRead(ps: seq<Byte>, rex: seq<Byte>, ops: seq<Byte>, d: Decoded, modrm: seq<Byte>, imm: seq<Byte>, rest: seq<Byte>)
    requires (forall b <- ps :: Legacy(b)) && |rex| <= 1 && (rex != [] ==> IsRex(rex[0]) && !Legacy(rex[0])) && IsOpcode(ops)
    requires Decode(ReadRex(rex), modrm + (imm + rest)) == Some(d) && d.length == |modrm|
    ensures DecodeInstruction(ps + rex + ops + modrm + imm + rest, |imm|) ==
            Some(Instruction(ps, rex, ops, d, imm, |ps| + |rex| + |ops| + |modrm| + |imm|))
  {
    hide Decode, ReadRex, Legacy, IsRex, OpcodeLength, DecodeRest, ReadHead;
    RestRead(ps, rex, ops, d, modrm, imm, rest);
    Reassociate(ps, rex, ops, modrm, imm, rest);
    StartRead(ps, rex, ops + (modrm + (imm + rest)));
  }

  lemma Reassociate(ps: seq<Byte>, rex: seq<Byte>, ops: seq<Byte>, modrm: seq<Byte>, imm: seq<Byte>, rest: seq<Byte>)
    ensures ps + rex + ops + modrm + imm + rest == ps + (rex + (ops + (modrm + (imm + rest))))
  {
  }

  /** A whole form: whatever precedes it in the function and follows it, the
      decoder recovers the prefixes, the operand size, the opcode, both operands and the
      immediate, and the registers by name, at the width that it derives from the
      prefixes or the opcode fixes, unless the form is refused. */
  lemma FormRecovered(ps: seq<Byte>, x: Rex, ops: seq<Byte>, m: ModRM, imm: Option<(nat, nat)>, os: seq<Arg>, i: nat,
                      fixed: Option<int>, at: nat, rest: seq<Byte>)
    requires (forall b <- ps :: Legacy(b)) && IsOpcode(ops) && FormOperands(x, m, os, i) && ImmediateFits(imm, os)
    requires fixed.Some? ==> ValidSize(fixed.value)
    ensures var parts := Form(ps, x, ops, m, imm);
            && (forall p <- parts :: PartFits(p, |os|)) && FormBytes(parts, os, at).Some?
            && var bs := FormBytes(parts, os, at).value.bytes;
               var got := DecodeInstruction(bs + rest, |ImmediateBytes(imm, os)|);
            && got.Some? && got.value.length == |bs| && got.value.prefixes == ps && got.value.opcode == ops
            && got.value.immediate == ImmediateBytes(imm, os) && OperandsRead(got.value, x, m, os, i)
            && (Refused(parts, os) <==> got.value.rex != [] && HasHighByte(os))
            && (!Refused(parts, os) ==> NamesThem(got.value, m, os, i, fixed))
  {
    hide FormBytes, RexBytes, ModRMBytes, Decode, ReadRex, Legacy, DecodeInstruction, LittleEndian, RegByte, RegisterNamed;
    hide Refused, Form, RegNumber, Needed, PrefixRead, HasHighByte;
    var parts := Form(ps, x, ops, m, imm);
    var after := ImmediateBytes(imm, os);
    OperandsRecovered(x, m, os, i, after + rest);
    FormIs(ps, x, ops, m, imm, os, at);
    RexRead(x, os);
    PrefixIsRead(x, m, os, i);
    RegNumberRead(x, m, os, i);
    var rex := RexBytes(x, os);
    var modrm := ModRMBytes(m, os, 0).value.bytes;
    PartsRead(ps, rex, ops, Decoded(RegNumber(x, m, os), Meant(os[i]), |modrm|), modrm, after, rest);
    HasPrefixPart(ps, x, ops, m, imm);
    RefusedByPrefix(parts, Some(x), os);
    if !Refused(parts, os) {
      if m.reg.Operand? { NamesRecovered(parts, os, x, m.reg.i, WidthRead(ps, rex, fixed)); }
      if os[i].RegArg? { NamesRecovered(parts, os, x, i, WidthRead(ps, rex, fixed)); }
    }
  }

  lemma HasPrefixPart(ps: seq<Byte>, x: Rex, ops: seq<Byte>, m: ModRM, imm: Option<(nat, nat)>)
    ensures RexPart(x) in Form(ps, x, ops, m, imm) && forall p <- Form(ps, x, ops, m, imm) :: p.RexPart? ==> p.rex == x
  {
    assert Form(ps, x, ops, m, imm)[|ps|] == RexPart(x);
  }

  // ----- forms without a ModRM byte -----

  datatype Plain = Plain(prefixes: seq<Byte>, rex: seq<Byte>, opcode: seq<Byte>, immediate: seq<Byte>, length: nat)

  /** An instruction without a ModRM byte. */
  function DecodePlain(bs: seq<Byte>, immediate: nat): Option<Plain> {
    var h := ReadHead(bs);
    if h.rest == [] || |h.rest| < OpcodeLength(h.rest) + immediate then None
    else
      var k := OpcodeLength(h.rest);
      Some(Plain(h.prefixes, h.rex, h.rest[..k], h.rest[k..k + immediate], |h.prefixes| + |h.rex| + k + immediate))
  }

  /** A form without a ModRM part; a register may be added to its last opcode byte. */
  function PlainForm(ps: seq<Byte>, x: Option<Rex>, ops: seq<Byte>, addend: Option<nat>, imm: Option<(nat, nat)>): seq<Part>
    requires ops != []
  {
    PrefixParts(ps) + (if x.Some? then [RexPart(x.value)] else []) + OpcodeParts(ops[..|ops| - 1]) +
    [OpcodePart(ops[|ops| - 1], addend)] + if imm.Some? then [ImmediatePart(imm.value.0, imm.value.1)] else []
  }

  /** The opcode with a number of three bits in its last byte. */
  function WithNumber(ops: seq<Byte>, num: nat): seq<Byte>
    requires ops != [] && num < 8
  {
    ops[..|ops| - 1] + [ops[|ops| - 1] / 8 * 8 + num]
  }

  /** Eight opcodes, for a register in the last three bits. */
  ghost predicate IsFamily(ops: seq<Byte>) {
    ops != [] && ops[|ops| - 1] % 8 == 0 && forall num :: 0 <= num < 8 ==> IsOpcode(WithNumber(ops, num))
  }

  /** What the prefix of a plain form may speak of: registers, and with an addend its
      register. */
  predicate PlainFields(x: Option<Rex>, addend: Option<nat>, os: seq<Arg>) {
    && (x.Some? && os != [] ==>
          RexFieldsIn(x.value, |os|) && os[x.value.r].RegArg? && os[x.value.x].RegArg? && os[x.value.b].RegArg?)
    && (addend.Some? ==> x.Some? && addend.value < |os| && x.value.b == addend.value)
  }

  function MaybeRex(x: Option<Rex>, os: seq<Arg>): seq<Byte>
    requires x.Some? ==> os == [] || RexFieldsIn(x.value, |os|)
  {
    if x.Some? then RexBytes(x.value, os) else []
  }

  /** The opcode bytes of a plain form. */
  function PlainOpcode(ops: seq<Byte>, addend: Option<nat>, os: seq<Arg>): seq<Byte>
    requires ops != [] && (addend.Some? ==> addend.value < |os| && os[addend.value].RegArg?)
  {
    if addend.Some? then WithNumber(ops, RegByte(os[addend.value].reg) % 8) else ops
  }

  lemma PlainIs(ps: seq<Byte>, x: Option<Rex>, ops: seq<Byte>, addend: Option<nat>, imm: Option<(nat, nat)>,
                os: seq<Arg>, at: nat)
    requires ops != [] && PlainFields(x, addend, os) && ImmediateFits(imm, os)
    requires addend.Some? ==> ops[|ops| - 1] % 8 == 0
    ensures var parts := PlainForm(ps, x, ops, addend, imm);
            && (forall p <- parts :: PartFits(p, |os|)) && FormBytes(parts, os, at).Some?
            && FormBytes(parts, os, at).value.bytes ==
               ps + MaybeRex(x, os) + PlainOpcode(ops, addend, os) + ImmediateBytes(imm, os)
  {
    hide FormBytes, RexBytes, LittleEndian, RexFieldsIn, RegByte;
    var most, last := ops[..|ops| - 1], OpcodePart(ops[|ops| - 1], addend);
    var a := PrefixParts(ps);
    var b := a + (if x.Some? then [RexPart(x.value)] else []);
    PrefixBytes(ps, os, at);
    if x.Some? {
      OneBytes(RexPart(x.value), os, at + |ps|);
      FormAppend(a, [RexPart(x.value)], os, at);
    } else {
      assert a + [] == a && ps + [] == ps;
    }
    var n := |ps + MaybeRex(x, os)|;
    OpcodeBytes(most, os, at + n);
    FormAppend(b, OpcodeParts(most), os, at);
    var c := b + OpcodeParts(most);
    OneBytes(last, os, at + n + |most|);
    FormAppend(c, [last], os, at);
    var d := c + [last];
    assert most + [ops[|ops| - 1]] == ops;
    assert ps + MaybeRex(x, os) + most + PartBytes(last, os, 0).value.bytes ==
           ps + MaybeRex(x, os) + PlainOpcode(ops, addend, os);
    if imm.Some? {
      var i := ImmediatePart(imm.value.0, imm.value.1);
      OneBytes(i, os, at + n + |ops|);
      FormAppend(d, [i], os, at);
    } else {
      assert PlainForm(ps, x, ops, addend, imm) == d;
    }
  }

  lemma OpcodeEnds(ops: seq<Byte>, more: seq<Byte>)
    requires IsOpcode(ops)
    ensures OpcodeLength(ops + more) == |ops| && !Legacy((ops + more)[0]) && !IsRex((ops + more)[0])
  {
  }

  lemma PlainRead(ps: seq<Byte>, rex: seq<Byte>, ops: seq<Byte>, imm: seq<Byte>, rest: seq<Byte>)
    requires (forall b <- ps :: Legacy(b)) && |rex| <= 1 && (rex != [] ==> IsRex(rex[0]) && !Legacy(rex[0])) && IsOpcode(ops)
    ensures DecodePlain(ps + rex + ops + imm + rest, |imm|) == Some(Plain(ps, rex, ops, imm, |ps| + |rex| + |ops| + |imm|))
  {
    var op := ops + (imm + rest);
    OpcodeEnds(ops, imm + rest);
    assert ops != [];
    hide Legacy, IsRex, OpcodeLength, ReadHead, IsOpcode;
    StartRead(ps, rex, op);
    Regroup(ps, rex, ops, imm, rest);
  }

  lemma Regroup(ps: seq<Byte>, rex: seq<Byte>, ops: seq<Byte>, imm: seq<Byte>, rest: seq<Byte>)
    ensures ps + rex + ops + imm + rest == ps + (rex + (ops + (imm + rest)))
    ensures var op := ops + (imm + rest); op[..|ops|] == ops && op[|ops|..|ops| + |imm|] == imm
  {
    Reassociate(ps, rex, ops, [], imm, rest);
    assert ps + rex + ops + [] == ps + rex + ops && [] + (imm + rest) == imm + rest;
  }

  lemma PlainPrefix(x: Option<Rex>, addend: Option<nat>, os: seq<Arg>)
    requires PlainFields(x, addend, os)
    ensures if x.Some? then PrefixRead(MaybeRex(x, os), x.value, os) else MaybeRex(x, os) == []
    ensures var rex := MaybeRex(x, os); |rex| <= 1 && (rex != [] ==> IsRex(rex[0]) && !Legacy(rex[0]))
    ensures addend.Some? ==> ReadRex(MaybeRex(x, os)).b == HighBit(os[addend.value].reg)
  {
    hide RexBytes, ReadRex, RegByte, Extended, NeedREX;
    if x.Some? {
      RexRead(x.value, os);
      if os == [] {
        BarePrefixBits(x.value);
      } else {
        PrefixBits(x.value, os);
        PrefixPresent(x.value, ModRM(Literal(3), Literal(0), x.value.b), os, x.value.b);
      }
    }
  }

  /** The register in the last three bits of the opcode. */
  lemma AddendRead(parts: seq<Part>, ops: seq<Byte>, x: Rex, r: nat, os: seq<Arg>, ps: seq<Byte>, fixed: Option<int>)
    requires ops != [] && ops[|ops| - 1] % 8 == 0 && PlainFields(Some(x), Some(r), os) && os[r].RegArg?
    requires (forall p <- parts :: PartFits(p, |os|)) && RexPart(x) in parts && (fixed.Some? ==> ValidSize(fixed.value))
    ensures var opcode, rex := PlainOpcode(ops, Some(r), os), MaybeRex(Some(x), os);
            && WithNumber(opcode, 0) == ops
            && (!Refused(parts, os) ==>
                  NamedAt(opcode[|opcode| - 1] % 8 + 8 * ReadRex(rex).b, ps, rex, fixed, os[r].reg))
  {
    hide RexBytes, ReadRex, RegByte, HighBit, RegisterNamed, Refused;
    PlainPrefix(Some(x), Some(r), os);
    Halves(os[r].reg);
    if !Refused(parts, os) { NamesRecovered(parts, os, x, r, WidthRead(ps, RexBytes(x, os), fixed)); }
  }

  /** A whole form without a ModRM byte, with operands or without: the decoder recovers
      the prefixes, the operand size, the opcode and the immediate, and with an addend
      the register, at the width that it derives, from the last three bits of the
      opcode. */
  lemma PlainRecovered(ps: seq<Byte>, x: Option<Rex>, ops: seq<Byte>, addend: Option<nat>, imm: Option<(nat, nat)>,
                       os: seq<Arg>, fixed: Option<int>, at: nat, rest: seq<Byte>)
    requires (forall b <- ps :: Legacy(b)) && PlainFields(x, addend, os) && ImmediateFits(imm, os)
    requires (if addend.Some? then IsFamily(ops) else IsOpcode(ops)) && (fixed.Some? ==> ValidSize(fixed.value))
    ensures var parts := PlainForm(ps, x, ops, addend, imm);
            && (forall p <- parts :: PartFits(p, |os|)) && FormBytes(parts, os, at).Some?
            && var bs := FormBytes(parts, os, at).value.bytes;
               var got := DecodePlain(bs + rest, |ImmediateBytes(imm, os)|);
            && got.Some? && got.value.length == |bs| && got.value.prefixes == ps
            && got.value.immediate == ImmediateBytes(imm, os)
            && (if x.Some? then PrefixRead(got.value.rex, x.value, os) else got.value.rex == [])
            && (Refused(parts, os) <==> got.value.rex != [] && HasHighByte(os))
            && (addend.None? ==> got.value.opcode == ops)
            && (addend.Some? ==>
                  var last := got.value.opcode[|got.value.opcode| - 1];
                  && WithNumber(got.value.opcode, 0) == ops
                  && (!Refused(parts, os) ==>
                        NamedAt(last % 8 + 8 * ReadRex(got.value.rex).b, ps, got.value.rex, fixed, os[addend.value].reg)))
  {
    hide FormBytes, DecodePlain, PrefixRead, Refused, PlainForm, PlainOpcode, NamedAt, MaybeRex, Legacy, IsFamily, IsOpcode;
    hide WithNumber, ReadRex, PartFits, FieldsIn, HasHighByte, RexBytes;
    PlainOpcodeIs(ops, addend, os, x);
    PlainDecoded(ps, x, ops, addend, imm, os, at, rest);
    PlainPrefix(x, addend, os);
    PlainHasPrefix(ps, x, ops, addend, imm);
    RefusedByPrefix(PlainForm(ps, x, ops, addend, imm), x, os);
    MaybeIsRex(x, os);
    if addend.Some? { AddendRead(PlainForm(ps, x, ops, addend, imm), ops, x.value, addend.value, os, ps, fixed); }
  }

  lemma MaybeIsRex(x: Option<Rex>, os: seq<Arg>)
    requires x.Some? ==> os == [] || RexFieldsIn(x.value, |os|)
    ensures MaybeRex(x, os) != [] <==> x.Some? && RexBytes(x.value, os) != []
  {
  }

  lemma PlainHasPrefix(ps: seq<Byte>, x: Option<Rex>, ops: seq<Byte>, addend: Option<nat>, imm: Option<(nat, nat)>)
    requires ops != []
    ensures x.Some? ==> RexPart(x.value) in PlainForm(ps, x, ops, addend, imm)
    ensures forall p <- PlainForm(ps, x, ops, addend, imm) :: p.RexPart? ==> x == Some(p.rex)
  {
    assert x.Some? ==> PlainForm(ps, x, ops, addend, imm)[|ps|] == RexPart(x.value);
  }

  lemma PlainDecoded(ps: seq<Byte>, x: Option<Rex>, ops: seq<Byte>, addend: Option<nat>, imm: Option<(nat, nat)>,
                     os: seq<Arg>, at: nat, rest: seq<Byte>)
    requires (forall b <- ps :: Legacy(b)) && PlainFields(x, addend, os) && ImmediateFits(imm, os)
    requires if addend.Some? then IsFamily(ops) else IsOpcode(ops)
    ensures ops != [] && (addend.Some? ==> ops[|ops| - 1] % 8 == 0)
    ensures var parts := PlainForm(ps, x, ops, addend, imm);
            && (forall p <- parts :: PartFits(p, |os|)) && FormBytes(parts, os, at).Some?
            && var bs := FormBytes(parts, os, at).value.bytes;
               DecodePlain(bs + rest, |ImmediateBytes(imm, os)|) ==
               Some(Plain(ps, MaybeRex(x, os), PlainOpcode(ops, addend, os), ImmediateBytes(imm, os), |bs|))
  {
    hide FormBytes, RexBytes, Legacy, IsOpcode, DecodePlain, LittleEndian, RegByte, PrefixRead, MaybeRex, PlainForm, PlainOpcode;
    hide IsFamily, RexFieldsIn, ReadRex, PartFits, IsRex;
    PlainOpcodeIs(ops, addend, os, x);
    PlainIs(ps, x, ops, addend, imm, os, at);
    PlainPrefix(x, addend, os);
    PlainRead(ps, MaybeRex(x, os), PlainOpcode(ops, addend, os), ImmediateBytes(imm, os), rest);
  }

  lemma PlainOpcodeIs(ops: seq<Byte>, addend: Option<nat>, os: seq<Arg>, x: Option<Rex>)
    requires PlainFields(x, addend, os) && if addend.Some? then IsFamily(ops) else IsOpcode(ops)
    ensures ops != [] && IsOpcode(PlainOpcode(ops, addend, os))
    ensures |PlainOpcode(ops, addend, os)| == |ops| && (addend.None? ==> PlainOpcode(ops, addend, os) == ops)
    ensures addend.Some? ==> ops[|ops| - 1] % 8 == 0
  {
    assert ops != [];
    hide IsOpcode, RegByte;
  }
}
