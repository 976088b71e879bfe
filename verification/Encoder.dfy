/** The operand part of instruction encodings (encoder.go): REX prefix, ModRM,
    SIB and displacement bytes. */
module Encoder {
  import opened Wrappers
  import opened Bytes
  import opened Registers
  import opened ObjectFile

  /** An operand: a register, `[reg + off]` or the global `[symbol + off]`,
      `[base + index * scale]`, an 8-bit immediate, or a global by itself. */
  datatype Arg =
    | RegArg(reg: Reg)
    | Ind(base: Reg, off: int, symbol: string)
    | BaseIndex(base: Reg, index: Reg, scale: int)
    | Imm8(imm: Byte)
    | Global(symbol: string)

  /** A field of an encoding: fixed bits, or those of an operand. */
  datatype Field = Literal(bits: Byte) | Operand(i: nat)

  datatype Rex = Rex(mandatory: bool, w: Byte, r: nat, x: nat, b: nat)

  datatype ModRM = ModRM(mode: Field, reg: Field, rm: nat)

  datatype Encoded = Encoded(bytes: seq<Byte>, relocations: seq<Relocation>)

  /** The number that encodes a register; AH, CH, DH and BH share those of the
      four registers from RSP on. */
  function RegByte(r: Reg): Byte { if r.view.High8? then r.num + 4 else r.num }

  /** The bit that goes into the prefix. */
  function HighBit(r: Reg): Byte { RegByte(r) / 8 % 2 }

  predicate NeedREX(r: Reg) { r.num >= 8 || (r.view.Low8? && (r.num == 6 || r.num == 7)) }

  function GetRegister(i: nat, os: seq<Arg>): Option<Reg>
    requires i < |os|
  {
    match os[i]
    case RegArg(r) => Some(r)
    case Ind(base, _, _) => Some(base)
    case BaseIndex(base, _, _) => Some(base)
    case _ => None
  }

  /** The register whose high bit extends the SIB index. */
  function RexX(i: nat, os: seq<Arg>): Option<Reg>
    requires i < |os|
  {
    match os[i]
    case RegArg(r) => Some(r)
    case Ind(base, _, _) => Some(if base == R12 then RBP else base)
    case BaseIndex(_, index, _) => Some(index)
    case _ => None
  }

  /** An operand that is no register counts as the first register, AL. */
  function OrFirst(r: Option<Reg>): Reg { if r.Some? then r.value else GP(0, Low8) }

  predicate RexFieldsIn(x: Rex, n: nat) { x.r < n && x.x < n && x.b < n }

  /** The prefix, if there is one. */
  function RexBytes(x: Rex, os: seq<Arg>): seq<Byte>
    requires os == [] || RexFieldsIn(x, |os|)
  {
    if os == [] then [0x40 + x.w % 2 * 8]
    else
      var (r, i, b) := (OrFirst(GetRegister(x.r, os)), OrFirst(RexX(x.x, os)), OrFirst(GetRegister(x.b, os)));
      if x.mandatory || NeedREX(r) || NeedREX(i) || NeedREX(b) then
        [0x40 + x.w % 2 * 8 + HighBit(r) * 4 + HighBit(i) * 2 + HighBit(b)]
      else []
  }

  function RegField(f: Field, os: seq<Arg>): Option<Byte>
    requires f.Operand? ==> f.i < |os|
  {
    match f
    case Literal(bits) => Some(bits)
    case Operand(i) => if GetRegister(i, os).Some? then Some(RegByte(GetRegister(i, os).value)) else None
  }

  predicate FieldsIn(x: ModRM, n: nat) {
    (x.mode.Operand? ==> x.mode.i < n) && (x.reg.Operand? ==> x.reg.i < n) && x.rm < n
  }

  function Pack(mod: Byte, reg: Byte, rm: Byte): Byte { mod % 4 * 64 + reg % 8 * 8 + rm % 8 }

  function ScaleBits(scale: int): Byte {
    if scale == 2 then 64 else if scale == 4 then 128 else if scale == 8 then 192 else 0
  }

  /** ModRM, SIB and displacement, as they follow `at` bytes of the function;
      `None` is an error. */
  function ModRMBytes(x: ModRM, os: seq<Arg>, at: nat): Option<Encoded>
    requires FieldsIn(x, |os|)
  {
    var reg := RegField(x.reg, os);
    if (x.mode.Operand? && os[x.mode.i].RegArg?) || reg.None? then None
    else if x.mode.Literal? || os[x.mode.i].Imm8? then
      var mod := if x.mode.Literal? then x.mode.bits else os[x.mode.i].imm;
      var rm := GetRegister(x.rm, os);
      if rm.None? then None else Some(Encoded([Pack(mod, reg.value, RegByte(rm.value))], []))
    else Some(MemoryBytes(reg.value, os[x.mode.i], at))
  }

  function MemoryBytes(reg: Byte, op: Arg, at: nat): Encoded
    requires op.Ind? || op.BaseIndex? || op.Global?
  {
    match op
    case Global(symbol) => Encoded([Pack(0, reg, 5)] + LittleEndian(0, 4), [Relocation(Uint32(at + 1), symbol, 0)])
    case BaseIndex(base, index, scale) =>
      var sib := ScaleBits(scale) + RegByte(index) % 8 * 8 + RegByte(base) % 8;
      if base == RBP || base == R13 then Encoded([Pack(1, reg, 4), sib, 0], []) else Encoded([Pack(0, reg, 4), sib], [])
    case Ind(base, off, symbol) =>
      var disp := LittleEndian(off, 4);
      if symbol != "" then Encoded([Pack(0, reg, 5)] + disp, [Relocation(Uint32(at + 1), symbol, off)])
      else if base == RSP || base == R12 then
        if off == 0 then Encoded([Pack(0, reg, 4), 0x24], []) else Encoded([Pack(2, reg, 4), 0x24] + disp, [])
      else if off != 0 || base == RBP || base == R13 then Encoded([Pack(2, reg, RegByte(base))] + disp, [])
      else if RegByte(base) == 5 || RegByte(base) == 13 then Encoded([Pack(0, reg, RegByte(base))] + disp, [])
      else Encoded([Pack(0, reg, RegByte(base))], [])
  }

  // ----- step by step -----

  class ByteBuffer {
    var bytes: seq<Byte>

    constructor ()
      ensures bytes == []
    {
      bytes := [];
    }

    method Write(bs: seq<Byte>)
      modifies this
      ensures bytes == old(bytes) + bs
    {
      bytes := bytes + bs;
    }
  }

  method EncodeRex(x: Rex, os: seq<Arg>, w: ByteBuffer)
    requires os == [] || RexFieldsIn(x, |os|)
    modifies w
    ensures w.bytes == old(w.bytes) + RexBytes(x, os)
  {
    hide RegByte, NeedREX, GetRegister, RexX;
    var needed := x.mandatory;
    if |os| == 0 {
      w.Write([0x40 + x.w % 2 * 8]);
      return;
    }
    var xr := OrFirst(GetRegister(x.r, os));
    needed := needed || NeedREX(xr);
    var xx := OrFirst(RexX(x.x, os));
    needed := needed || NeedREX(xx);
    var xb := OrFirst(GetRegister(x.b, os));
    needed := needed || NeedREX(xb);
    var b := 0x40 + x.w % 2 * 8 + HighBit(xr) * 4 + HighBit(xx) * 2 + HighBit(xb);
    if !needed { return; }
    w.Write([b]);
  }

  method EncodeModRM(x: ModRM, os: seq<Arg>, w: ByteBuffer) returns (ok: bool, relocations: seq<Relocation>)
    requires FieldsIn(x, |os|)
    modifies w
    ensures ok == ModRMBytes(x, os, |old(w.bytes)|).Some?
    ensures ok ==> var e := ModRMBytes(x, os, |old(w.bytes)|).value; w.bytes == old(w.bytes) + e.bytes && relocations == e.relocations
    ensures !ok ==> w.bytes == old(w.bytes)
  {
    hide LittleEndian, Pack;
    relocations := [];
    ok := true;
    var doSib := false;
    var indirect: Option<(Byte, int)> := None;   // the register number and the displacement
    var indirectbis: Option<(Reg, Reg, int)> := None;
    var special := false;                        // [RBP + off] or [R13 + off]
    var xmod: Byte := 0;
    match x.mode {
      case Literal(bits) => xmod := bits;
      case Operand(i) =>
        match os[i] {
          case Imm8(b) => xmod := b;
          case Ind(base, off, symbol) =>
            if symbol != "" {
              indirect := Some((5, off));
              relocations := [Relocation(Uint32(|w.bytes| + 1), symbol, off)];
              xmod := 0;
            } else {
              xmod := if off != 0 then 2 else 0;
              if base == RSP || base == R12 { doSib := true; }
              special := base == RBP || base == R13;
              indirect := Some((RegByte(base), off));
            }
          case BaseIndex(base, index, scale) =>
            doSib := true;
            xmod := 0;
            indirectbis := Some((base, index, scale));
          case Global(symbol) =>
            indirect := Some((5, 0));
            relocations := [Relocation(Uint32(|w.bytes| + 1), symbol, 0)];
            xmod := 0;
          case RegArg(_) => return false, [];
        }
    }
    var reg := RegField(x.reg, os);
    if reg.None? { return false, []; }
    var xreg := reg.value;
    if !doSib {
      var xrm: Byte;
      if indirect.Some? {
        xrm := indirect.value.0;
      } else {
        var r := GetRegister(x.rm, os);
        if r.None? { return false, []; }
        xrm := RegByte(r.value);
      }
      if indirect.Some? && (xmod != 0 || xrm == 5 || xrm == 13) {
        if special { xmod := 2; }
        w.Write([Pack(xmod, xreg, xrm)]);
        w.Write(LittleEndian(indirect.value.1, 4));
      } else {
        w.Write([Pack(xmod, xreg, xrm)]);
      }
    } else {
      var disp8 := indirectbis.Some? && (indirectbis.value.0 == RBP || indirectbis.value.0 == R13);
      if disp8 { xmod := 1; }
      w.Write([Pack(xmod, xreg, 4)]);
      if indirectbis.None? {
        w.Write([0x24]);
        if xmod != 0 { w.Write(LittleEndian(indirect.value.1, 4)); }
        return;
      }
      var sib: Byte := ScaleBits(indirectbis.value.2);
      sib := sib + RegByte(indirectbis.value.1) % 8 * 8;
      sib := sib + RegByte(indirectbis.value.0) % 8;
      w.Write([sib]);
      if disp8 { w.Write([0]); }
    }
  }

  // ----- a whole instruction form -----

  datatype Part =
    | PrefixPart(b: Byte)
    | RexPart(rex: Rex)
    | OpcodePart(op: Byte, addend: Option<nat>)
    | ModRMPart(m: ModRM)
    | ImmediatePart(size: nat, i: nat)

  predicate PartFits(p: Part, n: nat) {
    match p
    case RexPart(x) => n == 0 || RexFieldsIn(x, n)
    case OpcodePart(_, addend) => addend.Some? ==> addend.value < n
    case ModRMPart(m) => FieldsIn(m, n)
    case ImmediatePart(_, i) => i < n
    case _ => true
  }

  function PartBytes(p: Part, os: seq<Arg>, at: nat): Option<Encoded>
    requires PartFits(p, |os|)
  {
    match p
    case PrefixPart(b) => Some(Encoded([b], []))
    case RexPart(x) => Some(Encoded(RexBytes(x, os), []))
    case OpcodePart(op, addend) =>
      if addend.None? then Some(Encoded([op], []))
      else
        var r := GetRegister(addend.value, os);
        if r.None? then None else Some(Encoded([(op + RegByte(r.value) % 8) % 256], []))
    case ModRMPart(m) => ModRMBytes(m, os, at)
    case ImmediatePart(size, i) =>
      if os[i].Imm8? && (size == 1 || size == 2 || size == 4 || size == 8)
      then Some(Encoded(LittleEndian(os[i].imm, size), []))
      else None
  }

  /** The parts one after the other; what is handed back are the relocations of
      the last one. */
  function FormBytes(parts: seq<Part>, os: seq<Arg>, at: nat): Option<Encoded>
    requires forall p <- parts :: PartFits(p, |os|)
  {
    if parts == [] then Some(Encoded([], []))
    else
      var most, last := parts[..|parts| - 1], parts[|parts| - 1];
      var before := FormBytes(most, os, at);
      if before.None? then None
      else
        var e := PartBytes(last, os, at + |before.value.bytes|);
        if e.None? then None else Some(Encoded(before.value.bytes + e.value.bytes, e.value.relocations))
  }

  /** The bytes of the parts before the first that fails. */
  function Begun(parts: seq<Part>, os: seq<Arg>, at: nat): seq<Byte>
    requires forall p <- parts :: PartFits(p, |os|)
  {
    if parts == [] then []
    else if FormBytes(parts, os, at).Some? then FormBytes(parts, os, at).value.bytes
    else Begun(parts[..|parts| - 1], os, at)
  }

  predicate FormsFit(encs: seq<seq<Part>>, os: seq<Arg>) { forall es <- encs, p <- es :: PartFits(p, |os|) }

  /** The first encoding that succeeds, behind what those before it began. */
  function FirstForm(encs: seq<seq<Part>>, os: seq<Arg>, at: nat): Option<Encoded>
    requires FormsFit(encs, os)
  {
    if encs == [] then None
    else
      assert encs[0] in encs;
      var e := FormBytes(encs[0], os, at);
      if e.Some? then e
      else
        var begun := Begun(encs[0], os, at);
        var rest := FirstForm(encs[1..], os, at + |begun|);
        if rest.None? then None else Some(Encoded(begun + rest.value.bytes, rest.value.relocations))
  }

  /** AH, BH, CH and DH are refused where a prefix would be emitted. */
  predicate Refused(parts: seq<Part>, os: seq<Arg>)
    requires forall p <- parts :: PartFits(p, |os|)
  {
    && (exists o <- os :: o.RegArg? && o.reg.view.High8?)
    && exists p <- parts :: p.RexPart? && PartFits(p, |os|) && RexBytes(p.rex, os) != []
  }

  method EncodePart(p: Part, os: seq<Arg>, w: ByteBuffer) returns (ok: bool, relocations: seq<Relocation>)
    requires PartFits(p, |os|)
    modifies w
    ensures ok == PartBytes(p, os, |old(w.bytes)|).Some?
    ensures ok ==> var e := PartBytes(p, os, |old(w.bytes)|).value; w.bytes == old(w.bytes) + e.bytes && relocations == e.relocations
    ensures !ok ==> w.bytes == old(w.bytes)
  {
    hide ModRMBytes, RexBytes;
    ok, relocations := true, [];
    match p {
      case PrefixPart(b) => w.Write([b]);
      case RexPart(x) => EncodeRex(x, os, w);
      case OpcodePart(op, addend) =>
        var b := op;
        if addend.Some? {
          var r := GetRegister(addend.value, os);
          if r.None? { return false, []; }
          b := (b + RegByte(r.value) % 8) % 256;
        }
        w.Write([b]);
      case ModRMPart(m) => ok, relocations := EncodeModRM(m, os, w);
      case ImmediatePart(size, i) =>
        if !os[i].Imm8? || (size != 1 && size != 2 && size != 4 && size != 8) { return false, []; }
        w.Write(LittleEndian(os[i].imm, size));
    }
  }

  /** Encodes a form by the first of its encodings that succeeds, leaving what the
      others began; false is an error or the refusal of a high byte register in any. */
  method EncodeForm(encs: seq<seq<Part>>, os: seq<Arg>, w: ByteBuffer) returns (ok: bool, rs: seq<Relocation>)
    requires FormsFit(encs, os)
    modifies w
    ensures ok == ((forall es <- encs :: !Refused(es, os)) && (encs == [] || FirstForm(encs, os, |old(w.bytes)|).Some?))
    ensures ok && encs != [] ==>
              var e := FirstForm(encs, os, |old(w.bytes)|).value; w.bytes == old(w.bytes) + e.bytes && rs == e.relocations
    ensures encs == [] ==> w.bytes == old(w.bytes) && rs == []
  {
    hide FormBytes, Begun, Refused;
    ok, rs := true, [];
    if exists es <- encs :: Refused(es, os) { return false, []; }
    ghost var all := FirstForm(encs, os, |w.bytes|);
    ghost var begun: seq<Byte> := [];
    assert encs[0..] == encs;
    for i := 0 to |encs|
      invariant if i == 0 then ok && rs == [] && begun == [] else !ok
      invariant w.bytes == old(w.bytes) + begun
      invariant var rest := FirstForm(encs[i..], os, |w.bytes|);
                if rest.None? then all.None?
                else all.Some? && all.value == Encoded(begun + rest.value.bytes, rest.value.relocations)
    {
      assert encs[i..][0] == encs[i] && encs[i..][1..] == encs[i + 1..];
      assert encs[i] in encs;
      ghost var more, before := Begun(encs[i], os, |w.bytes|), w.bytes;
      ghost var rest := FirstForm(encs[i + 1..], os, |before| + |more|);
      ok, rs := EncodeParts(encs[i], os, w);
      if ok { return; }
      if rest.Some? { assert begun + (more + rest.value.bytes) == begun + more + rest.value.bytes; }
      begun := begun + more;
    }
  }

  /** One encoding: what it is, or what it began. */
  method EncodeParts(parts: seq<Part>, os: seq<Arg>, w: ByteBuffer) returns (ok: bool, rs: seq<Relocation>)
    requires forall p <- parts :: PartFits(p, |os|)
    modifies w
    ensures ok == FormBytes(parts, os, |old(w.bytes)|).Some?
    ensures ok ==> var e := FormBytes(parts, os, |old(w.bytes)|).value; w.bytes == old(w.bytes) + e.bytes && rs == e.relocations
    ensures !ok ==> w.bytes == old(w.bytes) + Begun(parts, os, |old(w.bytes)|)
  {
    hide PartBytes;
    rs := [];
    assert parts[..0] == [];
    for i := 0 to |parts|
      invariant FormBytes(parts[..i], os, |old(w.bytes)|).Some?
      invariant var e := FormBytes(parts[..i], os, |old(w.bytes)|).value; w.bytes == old(w.bytes) + e.bytes && rs == e.relocations
    {
      FormNext(parts, os, |old(w.bytes)|, i);
      ok, rs := EncodePart(parts[i], os, w);
      if !ok {
        FormFails(parts, os, |old(w.bytes)|, i + 1);
        FormBegun(parts, os, |old(w.bytes)|, i);
        return false, [];
      }
    }
    assert parts[..|parts|] == parts;
    ok := true;
  }

  lemma {:induction false} FormBegun(parts: seq<Part>, os: seq<Arg>, at: nat, i: nat)
    requires i < |parts| && (forall p <- parts :: PartFits(p, |os|))
    requires FormBytes(parts[..i], os, at).Some? && FormBytes(parts[..i + 1], os, at).None?
    ensures Begun(parts, os, at) == FormBytes(parts[..i], os, at).value.bytes
  {
    FormFails(parts, os, at, i + 1);
    var most := parts[..|parts| - 1];
    if i < |most| {
      assert most[..i] == parts[..i] && most[..i + 1] == parts[..i + 1];
      FormBegun(most, os, at, i);
    } else {
      assert most == parts[..i];
    }
  }

  // ----- what is left of other encodings -----

  /** ModRM, SIB and displacement do not depend on where they stand. */
  lemma ModRMAnywhere(m: ModRM, os: seq<Arg>, at: nat, there: nat)
    requires FieldsIn(m, |os|)
    ensures ModRMBytes(m, os, at).Some? == ModRMBytes(m, os, there).Some?
    ensures ModRMBytes(m, os, at).Some? ==> ModRMBytes(m, os, at).value.bytes == ModRMBytes(m, os, there).value.bytes
  {
    hide LittleEndian, Pack;
  }

  /** Nor do the bytes of a form. */
  lemma {:induction false} FormAnywhere(parts: seq<Part>, os: seq<Arg>, at: nat, there: nat)
    requires forall p <- parts :: PartFits(p, |os|)
    ensures FormBytes(parts, os, at).Some? == FormBytes(parts, os, there).Some?
    ensures FormBytes(parts, os, at).Some? ==> FormBytes(parts, os, at).value.bytes == FormBytes(parts, os, there).value.bytes
    ensures Begun(parts, os, at) == Begun(parts, os, there)
  {
    hide ModRMBytes, RexBytes, LittleEndian;
    if parts != [] {
      var most, last := parts[..|parts| - 1], parts[|parts| - 1];
      FormAnywhere(most, os, at, there);
      if last.ModRMPart? && FormBytes(most, os, at).Some? {
        assert PartFits(last, |os|);
        var n := |FormBytes(most, os, at).value.bytes|;
        ModRMAnywhere(last.m, os, at + n, there + n);
      }
    }
  }

  /** What comes out is that encoding alone exactly if none of those that were tried
      before it had begun: nothing is taken back. */
  lemma {:induction false} NothingTakenBack(encs: seq<seq<Part>>, os: seq<Arg>, at: nat, k: nat)
    requires FormsFit(encs, os) && k < |encs|
    requires (forall i :: 0 <= i < k ==> FormBytes(encs[i], os, at).None?) && FormBytes(encs[k], os, at).Some?
    ensures FirstForm(encs, os, at).Some?
    ensures |FirstForm(encs, os, at).value.bytes| >= |FormBytes(encs[k], os, at).value.bytes|
    ensures FirstForm(encs, os, at).value.bytes == FormBytes(encs[k], os, at).value.bytes <==>
              forall i :: 0 <= i < k ==> Begun(encs[i], os, at) == []
    decreases k
  {
    hide FormBytes, Begun;
    if k > 0 {
      var there := at + |Begun(encs[0], os, at)|;
      var rest := encs[1..];
      assert FormsFit(rest, os) by { assert forall es <- rest :: es in encs; }
      forall i | 0 <= i < |encs|
        ensures FormBytes(encs[i], os, at).Some? == FormBytes(encs[i], os, there).Some?
        ensures FormBytes(encs[i], os, at).Some? ==>
                  FormBytes(encs[i], os, at).value.bytes == FormBytes(encs[i], os, there).value.bytes
        ensures Begun(encs[i], os, at) == Begun(encs[i], os, there)
      {
        assert encs[i] in encs;
        FormAnywhere(encs[i], os, at, there);
      }
      assert forall i :: 0 <= i < k - 1 ==> rest[i] == encs[i + 1];
      assert rest[k - 1] == encs[k];
      NothingTakenBack(rest, os, there, k - 1);
      assert forall i :: 0 < i < k ==> encs[i] == rest[i - 1];
    }
  }

  /** An operand-size prefix of an encoding that fails stays before the next one. */
  lemma PrefixStays()
    ensures var encs := [[PrefixPart(0x66), ImmediatePart(3, 0)], [OpcodePart(0x90, None)]];
            FormsFit(encs, [Imm8(1)]) && FirstForm(encs, [Imm8(1)], 0) == Some(Encoded([0x66, 0x90], []))
  {
    var a, b: seq<Part>, os := [PrefixPart(0x66), ImmediatePart(3, 0)], [OpcodePart(0x90, None)], [Imm8(1)];
    assert a[..1] == [PrefixPart(0x66)] && [PrefixPart(0x66)][..0] == [] && b[..0] == [];
    assert FormBytes(a, os, 0).None? && Begun(a, os, 0) == [0x66];
    assert FormBytes(b[..0], os, 1) == Some(Encoded([], [])) && [] + [0x90] == [0x90];
    assert FormBytes(b, os, 1) == Some(Encoded([0x90], []));
    assert [0x66] + [0x90] == [0x66, 0x90];
    assert [a, b][1..] == [b];
  }

  lemma FormNext(parts: seq<Part>, os: seq<Arg>, at: nat, i: nat)
    requires i < |parts| && forall p <- parts :: PartFits(p, |os|)
    ensures FormBytes(parts[..i + 1], os, at) ==
            var before := FormBytes(parts[..i], os, at);
            if before.None? then None
            else
              var e := PartBytes(parts[i], os, at + |before.value.bytes|);
              if e.None? then None else Some(Encoded(before.value.bytes + e.value.bytes, e.value.relocations))
  {
    assert parts[..i + 1][..i] == parts[..i];
  }

  lemma {:induction false} FormFails(parts: seq<Part>, os: seq<Arg>, at: nat, i: nat)
    requires i <= |parts| && (forall p <- parts :: PartFits(p, |os|)) && FormBytes(parts[..i], os, at).None?
    ensures FormBytes(parts, os, at).None?
    decreases |parts| - i
  {
    if i == |parts| {
      assert parts[..i] == parts;
    } else {
      FormNext(parts, os, at, i);
      FormFails(parts, os, at, i + 1);
    }
  }
}
