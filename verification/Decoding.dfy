/** A reference decoder for the operand bytes of an instruction, after the Intel
    SDM, volume 2A, sections 2.1.5 and 2.2.1.2, and what it recovers from the
    encoder's output. */
module Decoding {
  import opened Wrappers
  import opened Bytes
  import opened Registers
  import opened ObjectFile
  import opened Encoder

  datatype Place =
    | InRegister(num: nat)
    | InMemory(base: Option<nat>, index: Option<nat>, scale: nat, disp: int)
    | RipRelative(disp: int)

  datatype Decoded = Decoded(reg: nat, rm: Place, length: nat)

  /** The bits of the prefix, if there is one: 64-bit operands, and the extensions of
      the reg field, the index and the rm field, base or opcode register. */
  datatype Extension = Extension(w: nat, r: nat, x: nat, b: nat)

  function ReadRex(prefix: seq<Byte>): Extension {
    if prefix == [] then Extension(0, 0, 0, 0)
    else Extension(prefix[0] / 8 % 2, prefix[0] / 4 % 2, prefix[0] / 2 % 2, prefix[0] % 2)
  }

  /** Two's complement. */
  function Signed(bs: seq<Byte>): int {
    if bs != [] && Value(bs) >= Pow256(|bs|) / 2 then Value(bs) - Pow256(|bs|) else Value(bs)
  }

  /** How many bytes of displacement follow, and what they say. */
  function DispLength(mod: nat): nat { if mod == 1 then 1 else if mod == 2 then 4 else 0 }

  function Decode(ext: Extension, bs: seq<Byte>): Option<Decoded> {
    if bs == [] then None
    else
      var (mod, rm) := (bs[0] / 64, bs[0] % 8);
      var reg := bs[0] / 8 % 8 + 8 * ext.r;
      if mod == 3 then Some(Decoded(reg, InRegister(rm + 8 * ext.b), 1))
      else if rm == 4 then DecodeSib(ext, reg, mod, bs)
      else if rm == 5 && mod == 0 then
        if |bs| < 5 then None else Some(Decoded(reg, RipRelative(Signed(bs[1..5])), 5))
      else
        var n := DispLength(mod);
        if |bs| < 1 + n then None
        else Some(Decoded(reg, InMemory(Some(rm + 8 * ext.b), None, 1, Signed(bs[1..1 + n])), 1 + n))
  }

  function DecodeSib(ext: Extension, reg: nat, mod: nat, bs: seq<Byte>): Option<Decoded> {
    if |bs| < 2 then None
    else
      var (ss, index, base) := (bs[1] / 64, bs[1] / 8 % 8 + 8 * ext.x, bs[1] % 8);
      var scale := if ss == 0 then 1 else if ss == 1 then 2 else if ss == 2 then 4 else 8;
      var noBase := base == 5 && mod == 0;
      var n := if noBase then 4 else DispLength(mod);
      if |bs| < 2 + n then None
      else Some(Decoded(
        reg,
        InMemory(if noBase then None else Some(base + 8 * ext.b), if index == 4 then None else Some(index),
                 if index == 4 then 1 else scale, Signed(bs[2..2 + n])),
        2 + n))
  }

  /** The register that a number names in some width; with a prefix, 4 to 7 are
      the low bytes of RSP to RDI. */
  function RegisterNamed(num: nat, width: int, prefixed: bool): Register {
    if width == 8 then (if !prefixed && 4 <= num < 8 then GP(num - 4, High8) else GP(num, Low8))
    else GP(num, if width == 16 then Word else if width == 32 then Dword else Qword)
  }

  // ----- displacements -----

  predicate Fits32(x: int) { -TWO31 <= x < TWO31 }

  lemma SignedOfLittleEndian(x: int)
    requires Fits32(x)
    ensures Signed(LittleEndian(x, 4)) == x
  {
    assert Pow256(4) == TWO32;
    if x >= 0 {
      ValueOfLittleEndian(x, 4);
    } else {
      assert x + TWO32 == x + 1 * Pow256(4);
      LittleEndianWraps(x + TWO32, x, 4);
      ValueOfLittleEndian(x + TWO32, 4);
    }
  }

  lemma SignedSmall()
    ensures Signed([]) == 0 && Signed([0]) == 0
  {
  }

  // ----- operands -----

  /** A register that three bits do not name without a prefix. */
  predicate Extended(r: Reg) { RegisterNamed(RegByte(r) % 8, Width(r), false) != r }

  predicate Extends(o: Arg) {
    match o
    case RegArg(r) => Extended(r)
    case Ind(base, _, _) => Extended(base)
    case BaseIndex(base, index, _) => Extended(base) || Extended(index)
    case _ => false
  }

  /** The prefix and the ModRM byte of a form speak of the same operands: the reg
      field is an operand or extends the opcode, rm is operand i, and so is the index
      if there may be one.  Other fields of the prefix can only be registers. */
  predicate SameOperands(x: Rex, m: ModRM, os: seq<Arg>, i: nat) {
    && RexFieldsIn(x, |os|) && x.b == i && m.rm == i
    && (x.x == i || (os[i].RegArg? && os[x.x].RegArg?))
    && match m.reg
       case Operand(j) => j == x.r && os[j].RegArg?
       case Literal(bits) => bits < 8 && (x.r == i || os[x.r].RegArg?)
  }

  /** What stands in the reg field: a register, or three bits of the opcode, the
      extension being of no meaning then. */
  predicate RegFieldRead(reg: nat, m: ModRM, os: seq<Arg>)
    requires m.reg.Operand? ==> m.reg.i < |os| && os[m.reg.i].RegArg?
  {
    match m.reg
    case Operand(j) => reg == RegField(m.reg, os).value
    case Literal(bits) => reg % 8 == bits
  }

  /** The number in the reg field, extended. */
  function RegNumber(x: Rex, m: ModRM, os: seq<Arg>): nat
    requires RexFieldsIn(x, |os|) && (m.reg.Operand? ==> m.reg.i < |os|) && RegField(m.reg, os).Some?
  {
    RegField(m.reg, os).value % 8 + 8 * HighBit(OrFirst(GetRegister(x.r, os)))
  }

  lemma RegNumberRead(x: Rex, m: ModRM, os: seq<Arg>, i: nat)
    requires i < |os| && SameOperands(x, m, os, i)
    ensures RegFieldRead(RegNumber(x, m, os), m, os)
  {
    if m.reg.Operand? { Halves(os[m.reg.i].reg); }
  }

  /** There is a prefix exactly if the form asks for one or an operand needs it. */
  predicate Needed(x: Rex, os: seq<Arg>)
    requires RexFieldsIn(x, |os|)
  {
    x.mandatory || Extends(os[x.r]) || Extends(os[x.x]) || Extends(os[x.b])
  }

  lemma NeedsPrefix(r: Reg)
    ensures NeedREX(r) <==> Extended(r)
  {
  }

  lemma PrefixPresent(x: Rex, m: ModRM, os: seq<Arg>, i: nat)
    requires i < |os| && SameOperands(x, m, os, i)
    ensures RexBytes(x, os) != [] <==> Needed(x, os)
  {
    NeedsPrefix(OrFirst(GetRegister(x.r, os)));
    NeedsPrefix(OrFirst(RexX(x.x, os)));
    NeedsPrefix(OrFirst(GetRegister(x.b, os)));
    hide NeedREX, RegByte, HighBit;
  }

  lemma PrefixBits(x: Rex, os: seq<Arg>)
    requires os != [] && RexFieldsIn(x, |os|)
    ensures var e := ReadRex(RexBytes(x, os));
            && e.w == (if RexBytes(x, os) != [] then x.w % 2 else 0)
            && e.r == HighBit(OrFirst(GetRegister(x.r, os)))
            && e.x == HighBit(OrFirst(RexX(x.x, os)))
            && e.b == HighBit(OrFirst(GetRegister(x.b, os)))
  {
    NoNeed(OrFirst(GetRegister(x.r, os)));
    NoNeed(OrFirst(RexX(x.x, os)));
    NoNeed(OrFirst(GetRegister(x.b, os)));
    hide GetRegister, RexX, HighBit, NeedREX;
    PrefixByte(x.w % 2, HighBit(OrFirst(GetRegister(x.r, os))), HighBit(OrFirst(RexX(x.x, os))),
               HighBit(OrFirst(GetRegister(x.b, os))));
  }

  /** Without operands there is always a prefix, for its operand size. */
  lemma BarePrefixBits(x: Rex)
    ensures RexBytes(x, []) != [] && ReadRex(RexBytes(x, [])) == Extension(x.w % 2, 0, 0, 0)
  {
    PrefixByte(x.w % 2, 0, 0, 0);
  }

  lemma NoNeed(r: Reg)
    ensures !NeedREX(r) ==> HighBit(r) == 0
    ensures HighBit(r) < 2
  {
  }

  lemma PrefixByte(w: int, r: int, x: int, b: int)
    requires 0 <= w < 2 && 0 <= r < 2 && 0 <= x < 2 && 0 <= b < 2
    ensures var p := 0x40 + w * 8 + r * 4 + x * 2 + b;
            p < 256 && p / 8 % 2 == w && p / 4 % 2 == r && p / 2 % 2 == x && p % 2 == b
  {
  }

  lemma Unpack(mod: Byte, reg: Byte, rm: Byte)
    ensures Pack(mod, reg, rm) / 64 == mod % 4 && Pack(mod, reg, rm) / 8 % 8 == reg % 8 &&
            Pack(mod, reg, rm) % 8 == rm % 8
  {
    BitFields(mod % 4, reg % 8, rm % 8);
  }

  lemma Halves(r: Reg)
    ensures RegByte(r) % 8 + 8 * HighBit(r) == RegByte(r)
  {
  }

  /** `[base + off]`: the decoder recovers the register operand, the base, and the
      displacement, whatever follows. */
  lemma BaseRecovered(x: Rex, m: ModRM, os: seq<Arg>, i: nat, at: nat, rest: seq<Byte>)
    requires i < |os| && SameOperands(x, m, os, i) && m.mode == Operand(i)
    requires os[i].Ind? && os[i].symbol == "" && Width(os[i].base) == 64 && Fits32(os[i].off)
    ensures var e := ModRMBytes(m, os, at).value;
            && ModRMBytes(m, os, at).Some? && e.relocations == []
            && Decode(ReadRex(RexBytes(x, os)), e.bytes + rest) ==
               Some(Decoded(RegNumber(x, m, os), InMemory(Some(RegByte(os[i].base)), None, 1, os[i].off), |e.bytes|))
  {
    var base := os[i].base;
    if base == RSP || base == R12 { SibBaseRecovered(x, m, os, i, at, rest); } else { PlainBaseRecovered(x, m, os, i, at, rest); }
  }

  lemma SibBaseRecovered(x: Rex, m: ModRM, os: seq<Arg>, i: nat, at: nat, rest: seq<Byte>)
    requires i < |os| && SameOperands(x, m, os, i) && m.mode == Operand(i)
    requires os[i].Ind? && os[i].symbol == "" && (os[i].base == RSP || os[i].base == R12) && Fits32(os[i].off)
    ensures var e := ModRMBytes(m, os, at).value;
            && ModRMBytes(m, os, at).Some? && e.relocations == []
            && Decode(ReadRex(RexBytes(x, os)), e.bytes + rest) ==
               Some(Decoded(RegNumber(x, m, os), InMemory(Some(RegByte(os[i].base)), None, 1, os[i].off), |e.bytes|))
  {
    hide Signed, LittleEndian, RexBytes, ReadRex, Pack;
    PrefixBits(x, os);
    Halves(os[i].base);
    SignedOfLittleEndian(os[i].off);
    SignedSmall();
    var off := os[i].off;
    var bs := ModRMBytes(m, os, at).value.bytes;
    Unpack(if off != 0 then 2 else 0, RegField(m.reg, os).value, 4);
    if off != 0 { assert (bs + rest)[2..6] == LittleEndian(off, 4); } else { assert (bs + rest)[2..2] == []; }
  }

  lemma PlainBaseRecovered(x: Rex, m: ModRM, os: seq<Arg>, i: nat, at: nat, rest: seq<Byte>)
    requires i < |os| && SameOperands(x, m, os, i) && m.mode == Operand(i)
    requires os[i].Ind? && Fits32(os[i].off) && os[i].symbol == "" && Width(os[i].base) == 64 && os[i].base != RSP && os[i].base != R12
    ensures var e := ModRMBytes(m, os, at).value;
            && ModRMBytes(m, os, at).Some? && e.relocations == []
            && Decode(ReadRex(RexBytes(x, os)), e.bytes + rest) ==
               Some(Decoded(RegNumber(x, m, os), InMemory(Some(RegByte(os[i].base)), None, 1, os[i].off), |e.bytes|))
  {
    hide Signed, LittleEndian, RexBytes, ReadRex, Pack;
    PrefixBits(x, os);
    Halves(os[i].base);
    SignedOfLittleEndian(os[i].off);
    SignedSmall();
    var base, off := os[i].base, os[i].off;
    var bs := ModRMBytes(m, os, at).value.bytes;
    Unpack(if off != 0 || base == RBP || base == R13 then 2 else 0, RegField(m.reg, os).value, RegByte(base));
    if |bs| == 5 { assert (bs + rest)[1..5] == LittleEndian(off, 4); } else { assert (bs + rest)[1..1] == []; }
  }

  /** A global: the operand is relative to RIP, and the recorded relocation is for
      exactly its four displacement bytes. */
  lemma GlobalRecovered(x: Rex, m: ModRM, os: seq<Arg>, i: nat, at: nat, rest: seq<Byte>)
    requires i < |os| && SameOperands(x, m, os, i) && m.mode == Operand(i) && at + 1 < TWO32
    requires (os[i].Global? || (os[i].Ind? && os[i].symbol != "" && Fits32(os[i].off)))
    ensures var e := ModRMBytes(m, os, at).value;
            var off := if os[i].Ind? then os[i].off else 0;
            && ModRMBytes(m, os, at).Some? && |e.bytes| == 5
            && Decode(ReadRex(RexBytes(x, os)), e.bytes + rest) == Some(Decoded(RegNumber(x, m, os), RipRelative(off), 5))
            && e.relocations == [Relocation(at + 1, os[i].symbol, off)]
            && e.bytes[at + 1 - at..] == LittleEndian(off, 4)
  {
    hide Signed, LittleEndian;
    PrefixBits(x, os);
    var off := if os[i].Ind? then os[i].off else 0;
    SignedOfLittleEndian(off);
    Unpack(0, RegField(m.reg, os).value, 5);
    var bs := ModRMBytes(m, os, at).value.bytes;
    assert (bs + rest)[1..5] == LittleEndian(off, 4);
  }

  /** `[base + index * scale]`: the decoder recovers all three, exactly if the
      index is not RSP, whose number means that there is none. */
  lemma IndexRecovered(x: Rex, m: ModRM, os: seq<Arg>, i: nat, at: nat, rest: seq<Byte>)
    requires i < |os| && SameOperands(x, m, os, i) && m.mode == Operand(i)
    requires os[i].BaseIndex? && Width(os[i].base) == 64 && Width(os[i].index) == 64
    requires os[i].scale == 1 || os[i].scale == 2 || os[i].scale == 4 || os[i].scale == 8
    ensures var e := ModRMBytes(m, os, at).value;
            && ModRMBytes(m, os, at).Some? && e.relocations == []
            && (Decode(ReadRex(RexBytes(x, os)), e.bytes + rest) ==
                  Some(Decoded(RegNumber(x, m, os),
                               InMemory(Some(RegByte(os[i].base)), Some(RegByte(os[i].index)), os[i].scale, 0),
                               |e.bytes|))
                <==> os[i].index != RSP)
  {
    hide Signed, RexBytes, ReadRex, ScaleBits, DecodeSib, Pack, RegByte, HighBit;
    PrefixBits(x, os);
    Halves(os[i].base);
    Halves(os[i].index);
    var base, index, scale := os[i].base, os[i].index, os[i].scale;
    var ext := ReadRex(RexBytes(x, os));
    var mod := if base == RBP || base == R13 then 1 else 0;
    Unpack(mod, RegField(m.reg, os).value, 4);
    var sib := ScaleBits(scale) + RegByte(index) % 8 * 8 + RegByte(base) % 8;
    var bs := ModRMBytes(m, os, at).value.bytes + rest;
    assert bs == [Pack(mod, RegField(m.reg, os).value, 4), sib] + (if mod == 1 then [0] + rest else rest);
    SibRecovered(ext, RegNumber(x, m, os), mod, base, index, scale, bs);
  }

  lemma SibRecovered(ext: Extension, reg: nat, mod: nat, base: Reg, index: Reg, scale: int, bs: seq<Byte>)
    requires Width(base) == 64 && Width(index) == 64 && (scale == 1 || scale == 2 || scale == 4 || scale == 8)
    requires mod == if base == RBP || base == R13 then 1 else 0
    requires |bs| >= 2 + mod && bs[1] == ScaleBits(scale) + RegByte(index) % 8 * 8 + RegByte(base) % 8 &&
             (mod == 1 ==> bs[2] == 0)
    requires ext.x == HighBit(index) && ext.b == HighBit(base)
    ensures DecodeSib(ext, reg, mod, bs).Some? && DecodeSib(ext, reg, mod, bs).value.length == 2 + mod
    ensures (DecodeSib(ext, reg, mod, bs) ==
               Some(Decoded(reg, InMemory(Some(RegByte(base)), Some(RegByte(index)), scale, 0), 2 + mod))) <==> index != RSP
  {
    hide Signed;
    SignedSmall();
    SibFields(base, index, scale);
    Halves(base);
    Halves(index);
    assert bs[2..2 + DispLength(mod)] == if mod == 1 then [0] else [];
  }

  lemma SibFields(base: Reg, index: Reg, scale: int)
    requires scale == 1 || scale == 2 || scale == 4 || scale == 8
    ensures var sib := ScaleBits(scale) + RegByte(index) % 8 * 8 + RegByte(base) % 8;
            && sib < 256 && sib / 8 % 8 == RegByte(index) % 8 && sib % 8 == RegByte(base) % 8
            && sib / 64 == (if scale == 1 then 0 else if scale == 2 then 1 else if scale == 4 then 2 else 3)
  {
    hide RegByte;
    BitFields(if scale == 1 then 0 else if scale == 2 then 1 else if scale == 4 then 2 else 3,
              RegByte(index) % 8, RegByte(base) % 8);
  }

  lemma BitFields(high: nat, mid: nat, low: nat)
    requires mid < 8 && low < 8
    ensures var x := 64 * high + mid * 8 + low; x / 64 == high && x / 8 % 8 == mid && x % 8 == low
  {
    assert 64 * high + mid * 8 + low == (8 * high + mid) * 8 + low;
  }

  /** Two registers: the decoder recovers both numbers. */
  lemma RegistersRecovered(x: Rex, m: ModRM, os: seq<Arg>, i: nat, at: nat, rest: seq<Byte>)
    requires i < |os| && SameOperands(x, m, os, i) && m.mode == Literal(3) && os[i].RegArg?
    ensures var e := ModRMBytes(m, os, at).value;
            && ModRMBytes(m, os, at).Some? && e.relocations == []
            && Decode(ReadRex(RexBytes(x, os)), e.bytes + rest) ==
               Some(Decoded(RegNumber(x, m, os), InRegister(RegByte(os[i].reg)), 1))
  {
    PrefixBits(x, os);
    Halves(os[i].reg);
    Unpack(3, RegField(m.reg, os).value, RegByte(os[i].reg));
  }

  // ----- names -----

  /** The number of an operand names it again in its width, exactly unless it is
      one of AH, BH, CH and DH and there is a prefix. */
  lemma NameRecovered(x: Rex, os: seq<Arg>, i: nat)
    requires i < |os| && RexFieldsIn(x, |os|) && (x.r == i || x.b == i) && os[i].RegArg?
    ensures var r := os[i].reg;
            RegisterNamed(RegByte(r), Width(r), RexBytes(x, os) != []) == r <==> !(r.view.High8? && RexBytes(x, os) != [])
  {
  }

  /** What an accepted form encodes is named again in full, in its own width and no
      other: the refusal of the high byte registers is enough. */
  lemma NamesRecovered(parts: seq<Part>, os: seq<Arg>, x: Rex, i: nat, width: int)
    requires (forall p <- parts :: PartFits(p, |os|)) && RexPart(x) in parts && !Refused(parts, os)
    requires i < |os| && (x.r == i || x.b == i) && os[i].RegArg? && ValidSize(width)
    ensures RegisterNamed(RegByte(os[i].reg), width, RexBytes(x, os) != []) == os[i].reg <==> width == Width(os[i].reg)
  {
  }

  // ----- relocations of a form -----

  /** Only the relocations of the last part are handed back: the one of a global
      operand survives exactly if nothing follows it. */
  lemma RelocationSurvives(before: seq<Part>, m: ModRM, after: seq<Part>, os: seq<Arg>, at: nat)
    requires (forall p <- before + [ModRMPart(m)] + after :: PartFits(p, |os|)) && forall p <- after :: !p.ModRMPart?
    requires m.mode.Operand? && FieldsIn(m, |os|) &&
             (os[m.mode.i].Global? || (os[m.mode.i].Ind? && os[m.mode.i].symbol != ""))
    requires FormBytes(before + [ModRMPart(m)] + after, os, at).Some?
    ensures (exists r <- FormBytes(before + [ModRMPart(m)] + after, os, at).value.relocations :: r.symbol == os[m.mode.i].symbol)
              <==> after == []
  {
  }
}
