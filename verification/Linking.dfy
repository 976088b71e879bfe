/** Linking as a whole (linker.go, Link): the linked binary holds exactly what
    the entry point reaches, each symbol once, and every address slot in it
    leads to the final address of its target. */
module Linking {
  import opened Wrappers
  import opened Bytes
  import opened ObjectFile
  import opened Linkage
  import opened Relocating
  import opened Linker

  datatype Section = Section(name: string, offset: int, val: seq<Byte>, symbols: seq<SectSym>)

  datatype LinkedBin = LinkedBin(text: Section, data: Section, bss: Section)

  function SectionOf(bin: LinkedBin, n: Node): Section {
    match n
    case Code(_) => bin.text
    case Variable(_) => bin.data
    case Constant(_) => bin.bss
  }

  /** The address that a symbol table gives to a name. */
  function Lookup(syms: seq<SectSym>, name: string): Option<int> {
    if syms == [] then None else if syms[0].name == name then Some(syms[0].address) else Lookup(syms[1..], name)
  }

  function AddressOf(bin: LinkedBin, n: Node): Option<int> { Lookup(SectionOf(bin, n).symbols, n.name) }

  // ----- what the objects must satisfy: slots lie within their function or
  //       variable and do not overlap -----

  predicate FunctionSlots(f: Function) {
    && (forall i :: 0 <= i < |f.relocations| ==> f.relocations[i].offset + 4 <= |f.body|)
    && forall i, j :: 0 <= i < j < |f.relocations| ==> Apart(f.relocations[i], f.relocations[j])
  }

  predicate VarSlots(v: Var) {
    && (forall i :: 0 <= i < |v.relocs| ==> v.relocs[i].offset + 8 <= |v.val|)
    && forall i, j :: 0 <= i < j < |v.relocs| ==> SlotsApart(v.relocs[i].offset, v.relocs[j].offset)
  }

  ghost predicate WellSlotted(p: Program) {
    && (forall q :: q in p.funcs ==> FunctionSlots(p.funcs[q]))
    && (forall q :: q in p.vars ==> VarSlots(p.vars[q]))
    && (forall q :: q in p.data ==> VarSlots(p.data[q]))
  }

  /** Whether byte k of the content of n belongs to an address slot. */
  ghost predicate InSlot(p: Program, n: Node, k: int)
    requires Defined(p, n)
  {
    if n.Code? then exists i :: 0 <= i < |p.funcs[n.name].relocations| &&
                                p.funcs[n.name].relocations[i].offset <= k < p.funcs[n.name].relocations[i].offset + 4
    else exists i :: 0 <= i < |SlotsOf(p, n)| && SlotsOf(p, n)[i].offset <= k < SlotsOf(p, n)[i].offset + 8
  }

  // ----- what linking promises -----

  /** The symbol has its place in its section, and its bytes there are its own
      except in the address slots. */
  ghost predicate Present(p: Program, bin: LinkedBin, n: Node) {
    && Defined(p, n) && AddressOf(bin, n).Some?
    && var a := AddressOf(bin, n).value - SectionOf(bin, n).offset;
       var c := Content(p, n);
       0 <= a && a + |c| <= |SectionOf(bin, n).val| &&
       forall k :: 0 <= k < |c| && !InSlot(p, n, k) ==> SectionOf(bin, n).val[a + k] == c[k]
  }

  /** The address that follows a code slot plus its contents is, in 32 bits, the
      address of its target plus the addend. */
  ghost predicate CodeLeads(p: Program, bin: LinkedBin, n: Node, r: Relocation) {
    && Find(p, r.symbol).Some? && AddressOf(bin, n).Some? && AddressOf(bin, Find(p, r.symbol).value).Some?
    && var slot := AddressOf(bin, n).value + r.offset;
       var at := slot - bin.text.offset;
       0 <= at && at + 4 <= |bin.text.val| &&
       Congruent(slot + 4 + Value(bin.text.val[at..at + 4]), AddressOf(bin, Find(p, r.symbol).value).value + r.addend, TWO32)
  }

  /** A data slot holds, in 64 bits, the address of its target plus the addend. */
  ghost predicate DataLeads(p: Program, bin: LinkedBin, n: Node, r: DataReloc) {
    && Find(p, r.symbol).Some? && AddressOf(bin, n).Some? && AddressOf(bin, Find(p, r.symbol).value).Some?
    && var at := AddressOf(bin, n).value + r.offset - SectionOf(bin, n).offset;
       0 <= at && at + 8 <= |SectionOf(bin, n).val| &&
       Congruent(Value(SectionOf(bin, n).val[at..at + 8]), AddressOf(bin, Find(p, r.symbol).value).value + r.addend, Pow256(8))
  }

  ghost predicate Leading(p: Program, bin: LinkedBin, n: Node) {
    && Defined(p, n)
    && if n.Code? then forall i :: 0 <= i < |p.funcs[n.name].relocations| ==> CodeLeads(p, bin, n, p.funcs[n.name].relocations[i])
       else forall i :: 0 <= i < |SlotsOf(p, n)| ==> DataLeads(p, bin, n, SlotsOf(p, n)[i])
  }

  ghost predicate Overlapping(p: Program, bin: LinkedBin, n: Node, m: Node)
    requires Present(p, bin, n) && Present(p, bin, m)
  {
    var a, b := AddressOf(bin, n).value, AddressOf(bin, m).value;
    a < b + |Content(p, m)| && b < a + |Content(p, n)|
  }

  ghost predicate Linked(p: Program, textoff: nat, bin: LinkedBin) {
    && bin.text.offset == textoff
    && bin.data.offset == PageAfter(textoff + |bin.text.val|) &&
       bin.bss.offset == PageAfter(bin.data.offset + |bin.data.val|)
    && AddressOf(bin, Code(ENTRY)) == Some(textoff)
    && HoldsReachable(p, bin) && AllInOrder(p, bin) && NoneOverlap(p, bin)
  }

  /** No section reaches 4 GiB. */
  predicate Small(bin: LinkedBin) { |bin.text.val| < TWO32 && |bin.data.val| < TWO32 && |bin.bss.val| < TWO32 }

  /** The symbol tables list exactly what the entry point reaches. */
  ghost predicate HoldsReachable(p: Program, bin: LinkedBin) {
    forall n :: AddressOf(bin, n).Some? <==> Reachable(p, n)
  }

  ghost predicate AllInOrder(p: Program, bin: LinkedBin) {
    forall n :: Reachable(p, n) ==> Present(p, bin, n) && Leading(p, bin, n)
  }

  ghost predicate NoneOverlap(p: Program, bin: LinkedBin) {
    forall n, m :: Present(p, bin, n) && Present(p, bin, m) && n != m ==> !Overlapping(p, bin, n, m)
  }

  // ----- symbol tables -----

  /** The symbols at their final addresses. */
  function Raised(syms: seq<SectSym>, by': nat): (r: seq<SectSym>)
    ensures |r| == |syms|
    ensures forall i :: 0 <= i < |syms| ==> r[i] == syms[i].(address := syms[i].address + by')
  {
    if syms == [] then [] else [syms[0].(address := syms[0].address + by')] + Raised(syms[1..], by')
  }

  lemma {:induction false} LookupFinds(syms: seq<SectSym>, i: nat)
    requires DistinctNames(syms) && i < |syms|
    ensures Lookup(syms, syms[i].name) == Some(syms[i].address)
  {
    if i > 0 {
      assert syms[1..][i - 1] == syms[i];
      LookupFinds(syms[1..], i - 1);
    }
  }

  lemma {:induction false} LookupFails(syms: seq<SectSym>, name: string)
    requires !Listed(syms, name)
    ensures Lookup(syms, name) == None
  {
    if syms != [] {
      forall i | 0 <= i < |syms[1..]| ensures syms[1..][i].name != name { assert syms[i + 1].name != name; }
      LookupFails(syms[1..], name);
    }
  }

  lemma Position(p: Program, k: Kind, syms: seq<SectSym>, locs: map<string, int>, buf: seq<Byte>, n: string) returns (i: nat)
    requires LaidOut(p, k, syms, locs, buf) && n in locs
    ensures i < |syms| && syms[i].name == n && Entry(p, k, syms[i], locs, buf)
  {
    hide Entry, EndToEnd, DistinctNames, End;
    assert Listed(syms, n);
    i :| 0 <= i < |syms| && syms[i].name == n;
  }

  lemma RaisedNames(syms: seq<SectSym>, off: nat, name: string)
    ensures DistinctNames(syms) ==> DistinctNames(Raised(syms, off))
    ensures Listed(Raised(syms, off), name) ==> Listed(syms, name)
  {
  }

  lemma Unlisted(p: Program, k: Kind, syms: seq<SectSym>, locs: map<string, int>, buf: seq<Byte>, name: string)
    requires LaidOut(p, k, syms, locs, buf) && name !in locs
    ensures !Listed(syms, name)
  {
    hide EndToEnd, DistinctNames, End;
    forall i | 0 <= i < |syms| ensures syms[i].name in locs { assert Entry(p, k, syms[i], locs, buf); }
  }

  lemma TableOf(p: Program, k: Kind, syms: seq<SectSym>, locs: map<string, int>, buf: seq<Byte>, off: nat, name: string)
    requires LaidOut(p, k, syms, locs, buf)
    ensures Lookup(Raised(syms, off), name) == if name in locs then Some(locs[name] + off) else None
  {
    hide EndToEnd, End, DistinctNames, Lookup, Entries, Raised;
    RaisedNames(syms, off, name);
    if name in locs {
      var i := Position(p, k, syms, locs, buf, name);
      LookupFinds(Raised(syms, off), i);
    } else {
      Unlisted(p, k, syms, locs, buf, name);
      LookupFails(Raised(syms, off), name);
    }
  }

  /** Where a placed symbol lies. */
  lemma PlaceOf(p: Program, k: Kind, syms: seq<SectSym>, locs: map<string, int>, buf: seq<Byte>, n: string)
    requires LaidOut(p, k, syms, locs, buf) && n in locs
    ensures Defined(p, NodeOf(k, n)) && 0 <= locs[n] && locs[n] + |Content(p, NodeOf(k, n))| <= |buf|
    ensures buf[locs[n]..locs[n] + |Content(p, NodeOf(k, n))|] == Content(p, NodeOf(k, n))
  {
    hide LaidOut;
    var i := Position(p, k, syms, locs, buf, n);
  }

  /** Different symbols lie in different places. */
  lemma PlacesApart(p: Program, k: Kind, syms: seq<SectSym>, locs: map<string, int>, buf: seq<Byte>, n: string, m: string)
    requires LaidOut(p, k, syms, locs, buf) && n in locs && m in locs && n != m
    ensures Defined(p, NodeOf(k, n)) && Defined(p, NodeOf(k, m))
    ensures locs[n] + |Content(p, NodeOf(k, n))| <= locs[m] || locs[m] + |Content(p, NodeOf(k, m))| <= locs[n]
  {
    hide LaidOut;
    var i := Position(p, k, syms, locs, buf, n);
    var j := Position(p, k, syms, locs, buf, m);
    if i < j { SymbolsApart(p, k, syms, locs, buf, i, j); } else { SymbolsApart(p, k, syms, locs, buf, j, i); }
  }

  // ----- from the placement to the slots -----

  /** All that placing the symbols has determined. */
  datatype Placement = Placement(
    l: Layout,
    funcsyms: seq<SectSym>, varsyms: seq<SectSym>, datasyms: seq<SectSym>,
    fnbs: seq<Byte>, varbs: seq<Byte>, databs: seq<Byte>,
    relocations: seq<Relocation>, origin: seq<(string, nat)>)

  predicate InPlace(l: Layout, n: Node) {
    match n
    case Code(q) => q in l.funclocs
    case Variable(q) => q in l.varlocs
    case Constant(q) => q in l.datalocs
  }

  function VAOf(l: Layout, n: Node): int
    requires InPlace(l, n)
  {
    match n
    case Code(q) => l.textoff + l.funclocs[q]
    case Variable(q) => l.varoff + l.varlocs[q]
    case Constant(q) => l.dataoff + l.datalocs[q]
  }

  ghost predicate Arranged(p: Program, o: Placement) {
    && LaidOut(p, Text, o.funcsyms, o.l.funclocs, o.fnbs)
    && LaidOut(p, Data, o.varsyms, o.l.varlocs, o.varbs)
    && LaidOut(p, Bss, o.datasyms, o.l.datalocs, o.databs)
    && |o.fnbs| < TWO32
    && (ENTRY in o.l.funclocs ==> o.l.funclocs[ENTRY] == 0)
  }

  ghost predicate Closed(p: Program, l: Layout) {
    forall n :: InPlace(l, n) ==>
      Defined(p, n) && forall s :: Refers(p, n, s) ==> Find(p, s).Some? && InPlace(l, Find(p, s).value)
  }

  ghost predicate Gathered(p: Program, o: Placement) {
    && FromFunctions(p, o.l.funclocs, o.origin, o.relocations)
    && forall q :: q in p.funcs ==> Collected(p, o.l.funclocs, o.origin, q, |p.funcs[q].relocations|)
  }

  /** A symbol that something in place refers to is in place itself. */
  lemma TargetInPlace(p: Program, l: Layout, n: Node, s: string)
    requires Closed(p, l) && InPlace(l, n) && Defined(p, n) && Refers(p, n, s)
    ensures Located(l, s) && Find(p, s).Some? && InPlace(l, Find(p, s).value)
    ensures TargetVA(l, s) == VAOf(l, Find(p, s).value)
  {
    var t := Find(p, s).value;
    assert InPlace(l, t);
    if s in l.funclocs { assert InPlace(l, Code(s)); assert Defined(p, Code(s)); }
    else if s in l.varlocs { assert InPlace(l, Variable(s)); assert Defined(p, Variable(s)); }
  }

  lemma CodeRefers(p: Program, q: string, j: nat)
    requires q in p.funcs && j < |p.funcs[q].relocations|
    ensures Refers(p, Code(q), p.funcs[q].relocations[j].symbol)
  {
  }

  /** A slot of a placed function, in the section. */
  lemma TextSlotInside(p: Program, o: Placement, i: nat)
    requires Arranged(p, o) && FromFunctions(p, o.l.funclocs, o.origin, o.relocations) && WellSlotted(p) &&
             i < |o.relocations|
    ensures i < |o.origin|
    ensures var (q, j) := o.origin[i];
            && q in o.l.funclocs && q in p.funcs && j < |p.funcs[q].relocations|
            && o.relocations[i] == p.funcs[q].relocations[j].(offset := o.relocations[i].offset)
            && o.relocations[i].offset == o.l.funclocs[q] + p.funcs[q].relocations[j].offset
            && 0 <= o.l.funclocs[q] && o.relocations[i].offset + 4 <= o.l.funclocs[q] + |p.funcs[q].body| <= |o.fnbs|
  {
    hide LaidOut;
    var (q, j) := o.origin[i];
    PlaceOf(p, Text, o.funcsyms, o.l.funclocs, o.fnbs, q);
    assert FunctionSlots(p.funcs[q]);
  }

  lemma TextSlotsApart(p: Program, o: Placement, i: nat, j: nat)
    requires Arranged(p, o) && FromFunctions(p, o.l.funclocs, o.origin, o.relocations) && WellSlotted(p) &&
             i < j < |o.relocations|
    ensures Apart(o.relocations[i], o.relocations[j])
  {
    hide LaidOut, FromFunctions;
    TextSlotInside(p, o, i);
    TextSlotInside(p, o, j);
    var (q, a) := o.origin[i];
    var (r, b) := o.origin[j];
    if q == r {
      DistinctOrigins(p, o, i, j);
      assert FunctionSlots(p.funcs[q]);
    } else {
      PlacesApart(p, Text, o.funcsyms, o.l.funclocs, o.fnbs, q, r);
    }
  }

  lemma DistinctOrigins(p: Program, o: Placement, i: nat, j: nat)
    requires FromFunctions(p, o.l.funclocs, o.origin, o.relocations) && i < j < |o.relocations|
    ensures o.origin[i] != o.origin[j]
  {
  }

  lemma TextSlotsFit(p: Program, o: Placement)
    requires Arranged(p, o) && Gathered(p, o) && Closed(p, o.l) && WellSlotted(p)
    ensures TextSlots(o.l, o.relocations, |o.fnbs|)
  {
    hide LaidOut, FromFunctions, Closed, WellSlotted, Located;
    forall i | 0 <= i < |o.relocations| ensures Located(o.l, o.relocations[i].symbol) && o.relocations[i].offset + 4 <= |o.fnbs| {
      TextSlotInside(p, o, i);
      var (q, j) := o.origin[i];
      CodeRefers(p, q, j);
      TargetInPlace(p, o.l, Code(q), p.funcs[q].relocations[j].symbol);
    }
    forall i, j | 0 <= i < j < |o.relocations| ensures Apart(o.relocations[i], o.relocations[j]) {
      TextSlotsApart(p, o, i, j);
    }
  }

  /** The variables or the constants, their symbols and their section. */
  function VarsOf(p: Program, k: Kind): map<string, Var>
    requires !k.Text?
  {
    if k.Data? then p.vars else p.data
  }

  function LocsOf(l: Layout, k: Kind): map<string, int> {
    match k
    case Text => l.funclocs
    case Data => l.varlocs
    case Bss => l.datalocs
  }

  lemma DataSlotInside(p: Program, k: Kind, syms: seq<SectSym>, locs: map<string, int>, buf: seq<Byte>, v: string, i: nat)
    requires !k.Text? && LaidOut(p, k, syms, locs, buf) && WellSlotted(p) && v in locs
    ensures v in VarsOf(p, k) && 0 <= locs[v] && locs[v] + |VarsOf(p, k)[v].val| <= |buf|
    ensures i < |VarsOf(p, k)[v].relocs| ==> VarsOf(p, k)[v].relocs[i].offset + 8 <= |VarsOf(p, k)[v].val|
  {
    hide LaidOut;
    PlaceOf(p, k, syms, locs, buf, v);
    assert VarSlots(VarsOf(p, k)[v]);
  }

  lemma DataSlotsApart(p: Program, k: Kind, syms: seq<SectSym>, locs: map<string, int>, buf: seq<Byte>,
                       v: string, i: nat, w: string, j: nat)
    requires !k.Text? && LaidOut(p, k, syms, locs, buf) && WellSlotted(p) && v in locs && w in locs && (v, i) != (w, j)
    requires v in VarsOf(p, k) && w in VarsOf(p, k) && i < |VarsOf(p, k)[v].relocs| && j < |VarsOf(p, k)[w].relocs|
    ensures SlotsApart(locs[v] + VarsOf(p, k)[v].relocs[i].offset, locs[w] + VarsOf(p, k)[w].relocs[j].offset)
  {
    hide LaidOut;
    DataSlotInside(p, k, syms, locs, buf, v, i);
    DataSlotInside(p, k, syms, locs, buf, w, j);
    if v == w { assert VarSlots(VarsOf(p, k)[v]); } else { PlacesApart(p, k, syms, locs, buf, v, w); }
  }

  lemma DataRefers(p: Program, k: Kind, v: string, i: nat)
    requires !k.Text? && v in VarsOf(p, k) && i < |VarsOf(p, k)[v].relocs|
    ensures Refers(p, NodeOf(k, v), VarsOf(p, k)[v].relocs[i].symbol)
  {
    assert SlotsOf(p, NodeOf(k, v))[i] == VarsOf(p, k)[v].relocs[i];
  }

  lemma DataSlotsFit(p: Program, l: Layout, k: Kind, syms: seq<SectSym>, buf: seq<Byte>)
    requires !k.Text? && LaidOut(p, k, syms, LocsOf(l, k), buf) && WellSlotted(p) && Closed(p, l)
    ensures DataSlots(l, VarsOf(p, k), LocsOf(l, k), |buf|)
  {
    hide LaidOut, WellSlotted, Closed, Located, VarsOf, Refers;
    var vars, locs := VarsOf(p, k), LocsOf(l, k);
    forall v | v in locs ensures v in vars && locs[v] >= 0 { DataSlotInside(p, k, syms, locs, buf, v, 0); }
    forall v, i | v in locs && 0 <= i < |vars[v].relocs|
      ensures Located(l, vars[v].relocs[i].symbol) && locs[v] + vars[v].relocs[i].offset + 8 <= |buf|
    {
      DataSlotInside(p, k, syms, locs, buf, v, i);
      DataRefers(p, k, v, i);
      KindInPlace(p, l, k, v);
      TargetInPlace(p, l, NodeOf(k, v), vars[v].relocs[i].symbol);
    }
    forall v, i, w, j | v in locs && w in locs && 0 <= i < |vars[v].relocs| && 0 <= j < |vars[w].relocs| && (v, i) != (w, j)
      ensures SlotsApart(locs[v] + vars[v].relocs[i].offset, locs[w] + vars[w].relocs[j].offset)
    {
      DataSlotsApart(p, k, syms, locs, buf, v, i, w, j);
    }
  }

  lemma KindInPlace(p: Program, l: Layout, k: Kind, v: string)
    requires Closed(p, l) && v in LocsOf(l, k)
    ensures InPlace(l, NodeOf(k, v)) && Defined(p, NodeOf(k, v))
  {
  }

  // ----- the linked binary -----

  /** The binary has the symbols of the placement and the patched sections. */
  ghost predicate Patched(p: Program, o: Placement, bin: LinkedBin) {
    && bin.text.offset == o.l.textoff && bin.data.offset == o.l.varoff && bin.bss.offset == o.l.dataoff
    && bin.text.symbols == Raised(o.funcsyms, o.l.textoff)
    && bin.data.symbols == Raised(o.varsyms, o.l.varoff)
    && bin.bss.symbols == Raised(o.datasyms, o.l.dataoff)
    && TextPatched(o, bin.text.val)
    && DataPatched(o.l, p.vars, o.l.varlocs, o.varbs, bin.data.val)
    && DataPatched(o.l, p.data, o.l.datalocs, o.databs, bin.bss.val)
  }

  ghost predicate TextPatched(o: Placement, text: seq<Byte>) {
    && |text| == |o.fnbs|
    && (forall i :: 0 <= i < |o.relocations| ==>
          Located(o.l, o.relocations[i].symbol) && Written(text, TextPatch(o.l, o.relocations[i])))
    && forall k :: 0 <= k < |text| && !TextSlot(o.relocations, k) ==> text[k] == o.fnbs[k]
  }

  ghost predicate DataPatched(l: Layout, vars: map<string, Var>, locs: map<string, int>, before: seq<Byte>, after: seq<Byte>) {
    && |after| == |before|
    && (forall v :: v in locs ==> v in vars && locs[v] >= 0 && VarWritten(l, vars[v], locs[v], after, |vars[v].relocs|))
    && forall k :: 0 <= k < |after| && !DataSlot(vars, locs, k) ==> after[k] == before[k]
  }

  lemma AddressIs(p: Program, o: Placement, bin: LinkedBin, n: Node)
    requires Arranged(p, o) && Patched(p, o, bin)
    ensures AddressOf(bin, n) == if InPlace(o.l, n) then Some(VAOf(o.l, n)) else None
  {
    hide LaidOut, TextPatched, DataPatched;
    match n
    case Code(q) => TableOf(p, Text, o.funcsyms, o.l.funclocs, o.fnbs, o.l.textoff, q);
    case Variable(q) => TableOf(p, Data, o.varsyms, o.l.varlocs, o.varbs, o.l.varoff, q);
    case Constant(q) => TableOf(p, Bss, o.datasyms, o.l.datalocs, o.databs, o.l.dataoff, q);
  }

  /** A code slot that lies in a function is one of that function. */
  lemma TextSlotIsOwn(p: Program, o: Placement, q: string, k: int)
    requires Arranged(p, o) && FromFunctions(p, o.l.funclocs, o.origin, o.relocations) && WellSlotted(p)
    requires q in o.l.funclocs && q in p.funcs && 0 <= k < |p.funcs[q].body| &&
             TextSlot(o.relocations, o.l.funclocs[q] + k)
    ensures InSlot(p, Code(q), k)
  {
    hide LaidOut, FromFunctions, WellSlotted;
    var i :| 0 <= i < |o.relocations| && o.relocations[i].offset <= o.l.funclocs[q] + k < o.relocations[i].offset + 4;
    TextSlotInside(p, o, i);
    var (r, j) := o.origin[i];
    if r != q { PlacesApart(p, Text, o.funcsyms, o.l.funclocs, o.fnbs, q, r); }
    assert p.funcs[q].relocations[j].offset <= k < p.funcs[q].relocations[j].offset + 4;
  }

  lemma DataSlotIsOwn(p: Program, k: Kind, syms: seq<SectSym>, locs: map<string, int>, buf: seq<Byte>, v: string, b: int)
    requires !k.Text? && LaidOut(p, k, syms, locs, buf) && WellSlotted(p) && v in locs && v in VarsOf(p, k)
    requires 0 <= b < |VarsOf(p, k)[v].val| && DataSlot(VarsOf(p, k), locs, locs[v] + b)
    ensures InSlot(p, NodeOf(k, v), b)
  {
    hide LaidOut, WellSlotted;
    var vars := VarsOf(p, k);
    var w, i :| w in locs && w in vars && 0 <= i < |vars[w].relocs| &&
                locs[w] + vars[w].relocs[i].offset <= locs[v] + b < locs[w] + vars[w].relocs[i].offset + 8;
    DataSlotInside(p, k, syms, locs, buf, v, 0);
    DataSlotInside(p, k, syms, locs, buf, w, i);
    if w != v { PlacesApart(p, k, syms, locs, buf, v, w); }
    assert SlotsOf(p, NodeOf(k, v))[i].offset <= b < SlotsOf(p, NodeOf(k, v))[i].offset + 8;
  }

  lemma CodeIsPresent(p: Program, o: Placement, bin: LinkedBin, q: string)
    requires Arranged(p, o) && Gathered(p, o) && WellSlotted(p) && Patched(p, o, bin) && q in o.l.funclocs
    ensures Present(p, bin, Code(q))
  {
    hide LaidOut, WellSlotted, FromFunctions, InSlot, TextSlot;
    AddressIs(p, o, bin, Code(q));
    PlaceOf(p, Text, o.funcsyms, o.l.funclocs, o.fnbs, q);
    var a, c := o.l.funclocs[q], p.funcs[q].body;
    forall k | 0 <= k < |c| && !InSlot(p, Code(q), k) ensures bin.text.val[a + k] == c[k] {
      assert o.fnbs[a..a + |c|][k] == c[k];
      if TextSlot(o.relocations, a + k) { TextSlotIsOwn(p, o, q, k); }
    }
  }

  lemma DataIsPresent(p: Program, o: Placement, bin: LinkedBin, k: Kind, v: string)
    requires Arranged(p, o) && WellSlotted(p) && Patched(p, o, bin) && !k.Text? && v in LocsOf(o.l, k)
    ensures Present(p, bin, NodeOf(k, v))
  {
    hide LaidOut, WellSlotted, InSlot, DataSlot, TextPatched, VarWritten;
    AddressIs(p, o, bin, NodeOf(k, v));
    var syms, buf := if k.Data? then o.varsyms else o.datasyms, if k.Data? then o.varbs else o.databs;
    PlaceOf(p, k, syms, LocsOf(o.l, k), buf, v);
    var a, c := LocsOf(o.l, k)[v], VarsOf(p, k)[v].val;
    forall b | 0 <= b < |c| && !InSlot(p, NodeOf(k, v), b) ensures SectionOf(bin, NodeOf(k, v)).val[a + b] == c[b] {
      assert buf[a..a + |c|][b] == c[b];
      if DataSlot(VarsOf(p, k), LocsOf(o.l, k), a + b) { DataSlotIsOwn(p, k, syms, LocsOf(o.l, k), buf, v, b); }
    }
  }

  lemma CodeSlotLeads(p: Program, o: Placement, bin: LinkedBin, q: string, j: nat)
    requires Arranged(p, o) && Gathered(p, o) && Closed(p, o.l) && WellSlotted(p) && Patched(p, o, bin)
    requires q in o.l.funclocs && q in p.funcs && j < |p.funcs[q].relocations|
    ensures CodeLeads(p, bin, Code(q), p.funcs[q].relocations[j])
  {
    hide LaidOut, FromFunctions, Closed, WellSlotted, CodePatch, TargetOffset, TargetVA, Congruent, DataPatched;
    var r := p.funcs[q].relocations[j];
    CodeRefers(p, q, j);
    TargetInPlace(p, o.l, Code(q), r.symbol);
    AddressIs(p, o, bin, Code(q));
    AddressIs(p, o, bin, Find(p, r.symbol).value);
    assert (q, j) in o.origin;
    var i :| 0 <= i < |o.origin| && o.origin[i] == (q, j);
    SameLength(p, o);
    TextSlotInside(p, o, i);
    SlotLeadsToTarget(o.relocations[i], TargetOffset(o.l, r.symbol), o.l.textoff);
    OffsetLeadsToVA(o.l, r.symbol);
    CongruentPlus(o.l.textoff + TargetOffset(o.l, r.symbol), TargetVA(o.l, r.symbol), r.addend, TWO32);
    CongruentSum(o.l.textoff + o.relocations[i].offset + 4 +
                 Value(CodePatch(o.relocations[i], TargetOffset(o.l, r.symbol)).bytes),
                 o.l.textoff + TargetOffset(o.l, r.symbol) + r.addend, TargetVA(o.l, r.symbol) + r.addend, TWO32);
    var at := o.relocations[i].offset;
    assert Written(bin.text.val, TextPatch(o.l, o.relocations[i]));
    assert bin.text.val[at..at + 4] == CodePatch(o.relocations[i], TargetOffset(o.l, r.symbol)).bytes;
  }

  lemma SameLength(p: Program, o: Placement)
    requires FromFunctions(p, o.l.funclocs, o.origin, o.relocations)
    ensures |o.origin| == |o.relocations|
  {
  }

  lemma CongruentPlus(x: int, y: int, z: int, modulus: nat)
    requires Congruent(x, y, modulus)
    ensures Congruent(x + z, y + z, modulus)
  {
    var k: int :| x == y + k * modulus;
    assert x + z == y + z + k * modulus;
  }

  lemma DataSlotLeads(p: Program, o: Placement, bin: LinkedBin, k: Kind, v: string, i: nat)
    requires Arranged(p, o) && Closed(p, o.l) && WellSlotted(p) && Patched(p, o, bin)
    requires !k.Text? && v in LocsOf(o.l, k) && v in VarsOf(p, k) && i < |VarsOf(p, k)[v].relocs|
    ensures DataLeads(p, bin, NodeOf(k, v), VarsOf(p, k)[v].relocs[i])
  {
    hide LaidOut, Closed, WellSlotted, TargetVA, Congruent, TextPatched, DataSlot, LittleEndian;
    var r, n := VarsOf(p, k)[v].relocs[i], NodeOf(k, v);
    DataRefers(p, k, v, i);
    KindInPlace(p, o.l, k, v);
    TargetInPlace(p, o.l, n, r.symbol);
    AddressIs(p, o, bin, n);
    AddressIs(p, o, bin, Find(p, r.symbol).value);
    SlotValue(TargetVA(o.l, r.symbol) + r.addend, 8);
    assert Written(SectionOf(bin, n).val, SlotPatch(o.l, r, LocsOf(o.l, k)[v]));
  }

  lemma IsPresent(p: Program, o: Placement, bin: LinkedBin, n: Node)
    requires Arranged(p, o) && Gathered(p, o) && WellSlotted(p) && Patched(p, o, bin) && InPlace(o.l, n)
    ensures Present(p, bin, n)
  {
    hide Arranged, Gathered, WellSlotted, Patched, Present;
    match n
    case Code(q) => CodeIsPresent(p, o, bin, q);
    case Variable(v) => DataIsPresent(p, o, bin, Data, v);
    case Constant(v) => DataIsPresent(p, o, bin, Bss, v);
  }

  lemma IsLeading(p: Program, o: Placement, bin: LinkedBin, n: Node)
    requires Arranged(p, o) && Gathered(p, o) && Closed(p, o.l) && WellSlotted(p) && Patched(p, o, bin) &&
             InPlace(o.l, n)
    ensures Leading(p, bin, n)
  {
    assert Defined(p, n);
    hide Arranged, Gathered, WellSlotted, Patched, CodeLeads, DataLeads, Closed;
    match n
    case Code(q) =>
      forall j | 0 <= j < |p.funcs[q].relocations| ensures CodeLeads(p, bin, n, p.funcs[q].relocations[j]) {
        CodeSlotLeads(p, o, bin, q, j);
      }
    case Variable(v) =>
      forall j | 0 <= j < |SlotsOf(p, n)| ensures DataLeads(p, bin, n, SlotsOf(p, n)[j]) {
        DataSlotLeads(p, o, bin, Data, v, j);
      }
    case Constant(v) =>
      forall j | 0 <= j < |SlotsOf(p, n)| ensures DataLeads(p, bin, n, SlotsOf(p, n)[j]) {
        DataSlotLeads(p, o, bin, Bss, v, j);
      }
  }

  function KindOf(n: Node): Kind {
    match n
    case Code(_) => Text
    case Variable(_) => Data
    case Constant(_) => Bss
  }

  function Start(l: Layout, k: Kind): int {
    match k
    case Text => l.textoff
    case Data => l.varoff
    case Bss => l.dataoff
  }

  function Size(o: Placement, k: Kind): nat {
    match k
    case Text => |o.fnbs|
    case Data => |o.varbs|
    case Bss => |o.databs|
  }

  /** A placed symbol lies within its section, apart from the others there. */
  lemma RangeOf(p: Program, o: Placement, n: Node)
    requires Arranged(p, o) && InPlace(o.l, n)
    ensures Defined(p, n)
    ensures Start(o.l, KindOf(n)) <= VAOf(o.l, n) &&
            VAOf(o.l, n) + |Content(p, n)| <= Start(o.l, KindOf(n)) + Size(o, KindOf(n))
  {
    hide LaidOut;
    match n
    case Code(q) => PlaceOf(p, Text, o.funcsyms, o.l.funclocs, o.fnbs, q);
    case Variable(q) => PlaceOf(p, Data, o.varsyms, o.l.varlocs, o.varbs, q);
    case Constant(q) => PlaceOf(p, Bss, o.datasyms, o.l.datalocs, o.databs, q);
  }

  lemma RangesApart(p: Program, o: Placement, n: Node, m: Node)
    requires Arranged(p, o) && InPlace(o.l, n) && InPlace(o.l, m) && n != m
    requires o.l.varoff == PageAfter(o.l.textoff + |o.fnbs|) && o.l.dataoff == PageAfter(o.l.varoff + |o.varbs|)
    ensures Defined(p, n) && Defined(p, m)
    ensures VAOf(o.l, n) + |Content(p, n)| <= VAOf(o.l, m) || VAOf(o.l, m) + |Content(p, m)| <= VAOf(o.l, n)
  {
    RangeOf(p, o, n);
    RangeOf(p, o, m);
    PagesAfter(o.l.textoff, |o.fnbs|, |o.varbs|);
    hide LaidOut, PageAfter;
    if KindOf(n) == KindOf(m) {
      match n
      case Code(q) => PlacesApart(p, Text, o.funcsyms, o.l.funclocs, o.fnbs, q, m.name);
      case Variable(q) => PlacesApart(p, Data, o.varsyms, o.l.varlocs, o.varbs, q, m.name);
      case Constant(q) => PlacesApart(p, Bss, o.datasyms, o.l.datalocs, o.databs, q, m.name);
    }
  }

  lemma PlacementLinks(p: Program, o: Placement, bin: LinkedBin)
    requires Arranged(p, o) && Gathered(p, o) && Closed(p, o.l) && WellSlotted(p) && Patched(p, o, bin)
    requires o.l.varoff == PageAfter(o.l.textoff + |o.fnbs|) && o.l.dataoff == PageAfter(o.l.varoff + |o.varbs|)
    requires ENTRY in p.funcs && forall n :: InPlace(o.l, n) <==> Reachable(p, n)
    ensures Linked(p, o.l.textoff, bin)
  {
    hide Arranged, Gathered, Closed, WellSlotted, Patched, Reachable, PageAfter, InPlace;
    hide AllInOrder, NoneOverlap, AddressOf;
    EntryIsReachable(p);
    SectionsAre(p, o, bin);
    EntryInFront(p, o, bin);
    InOrder(p, o, bin);
    Separated(p, o, bin);
    forall n ensures AddressOf(bin, n).Some? <==> Reachable(p, n) { AddressIs(p, o, bin, n); }
  }

  lemma EntryInFront(p: Program, o: Placement, bin: LinkedBin)
    requires Arranged(p, o) && Patched(p, o, bin) && InPlace(o.l, Code(ENTRY))
    ensures AddressOf(bin, Code(ENTRY)) == Some(o.l.textoff)
  {
    hide LaidOut, Patched, AddressOf;
    AddressIs(p, o, bin, Code(ENTRY));
    assert o.l.funclocs[ENTRY] == 0;
  }

  lemma InOrder(p: Program, o: Placement, bin: LinkedBin)
    requires Arranged(p, o) && Gathered(p, o) && Closed(p, o.l) && WellSlotted(p) && Patched(p, o, bin)
    requires forall n :: InPlace(o.l, n) <==> Reachable(p, n)
    ensures AllInOrder(p, bin)
  {
    hide Arranged, Gathered, Closed, WellSlotted, Patched, Reachable, Leading, InPlace, Present;
    forall n | Reachable(p, n) ensures Present(p, bin, n) && Leading(p, bin, n) {
      IsPresent(p, o, bin, n);
      IsLeading(p, o, bin, n);
    }
  }

  lemma Separated(p: Program, o: Placement, bin: LinkedBin)
    requires Arranged(p, o) && Patched(p, o, bin)
    requires o.l.varoff == PageAfter(o.l.textoff + |o.fnbs|) && o.l.dataoff == PageAfter(o.l.varoff + |o.varbs|)
    ensures NoneOverlap(p, bin)
  {
    hide Arranged, Patched, PageAfter, Overlapping, Present;
    forall n, m | Present(p, bin, n) && Present(p, bin, m) && n != m ensures !Overlapping(p, bin, n, m) {
      HasPlace(p, o, bin, n);
      HasPlace(p, o, bin, m);
      NotOverlapping(p, o, bin, n, m);
    }
  }

  lemma HasPlace(p: Program, o: Placement, bin: LinkedBin, n: Node)
    requires Arranged(p, o) && Patched(p, o, bin) && Present(p, bin, n)
    ensures InPlace(o.l, n)
  {
    hide Arranged, Patched;
    AddressIs(p, o, bin, n);
  }

  lemma NotOverlapping(p: Program, o: Placement, bin: LinkedBin, n: Node, m: Node)
    requires Arranged(p, o) && Patched(p, o, bin) && InPlace(o.l, n) && InPlace(o.l, m) && n != m
    requires o.l.varoff == PageAfter(o.l.textoff + |o.fnbs|) && o.l.dataoff == PageAfter(o.l.varoff + |o.varbs|)
    requires Present(p, bin, n) && Present(p, bin, m)
    ensures !Overlapping(p, bin, n, m)
  {
    hide Arranged, Patched, PageAfter;
    AddressIs(p, o, bin, n);
    AddressIs(p, o, bin, m);
    RangesApart(p, o, n, m);
  }

  lemma SectionsAre(p: Program, o: Placement, bin: LinkedBin)
    requires Patched(p, o, bin)
    ensures bin.text.offset == o.l.textoff && bin.data.offset == o.l.varoff && bin.bss.offset == o.l.dataoff
    ensures |bin.text.val| == |o.fnbs| && |bin.data.val| == |o.varbs| && |bin.bss.val| == |o.databs|
  {
  }

  // ----- linking -----

  method ToArray(bs: seq<Byte>) returns (a: array<Byte>)
    ensures fresh(a) && a[..] == bs
  {
    a := new Byte[|bs|](i requires 0 <= i < |bs| => bs[i]);
  }

  /** Links the program for a text section at some address.  It succeeds exactly
      if the program has its entry point and everything reachable refers to
      symbols that exist. */
  method LinkProgram(p: Program, textoff: nat) returns (ok: bool, bin: LinkedBin)
    requires Stamped(p) && Fits(p) && WellSlotted(p)
    ensures ok <==> Linkable(p)
    ensures ok ==> Linked(p, textoff, bin) && Small(bin)
  {
    hide WellSlotted, LaidOut, Fits, Reachable, Dangling, Linked, PageAfter, Arranged, Gathered, Closed, TextSlots, DataSlots;
    hide Covered, SeenIs, FromFunctions, Patched, InPlace, Stamped;
    bin := LinkedBin(Section(".text", 0, [], []), Section(".data", 0, [], []), Section(".bss", 0, [], []));
    if ENTRY !in p.funcs { return false, bin; }
    var k := new Linker(p);
    ok := k.Place();
    if !ok { return; }
    var varoff := PageAfter(textoff + |k.fnbs|);
    PagesAfter(textoff, |k.fnbs|, |k.varbs|);
    var dataoff := PageAfter(varoff + |k.varbs|);
    var l := Layout(textoff, varoff, dataoff, k.funclocs, k.varlocs, k.datalocs);
    ghost var o := Placement(l, k.funcsyms, k.varsyms, k.datasyms, k.fnbs, k.varbs, k.databs, k.relocations, k.origin);
    PlacementOf(k, o);
    AllSlotsFit(p, o);
    bin := Finish(p, l, k.relocations, k.fnbs, k.varbs, k.databs, k.funcsyms, k.varsyms, k.datasyms, o);
    PlacementLinks(p, o, bin);
    SectionsAreSmall(p, o, bin);
  }

  lemma SectionsAreSmall(p: Program, o: Placement, bin: LinkedBin)
    requires Fits(p) && Arranged(p, o) && Patched(p, o, bin)
    ensures Small(bin)
  {
    hide LaidOut, Patched;
    SectionsAre(p, o, bin);
  }

  /** Patches the slots of the sections and raises the symbols to their addresses. */
  method Finish(p: Program, l: Layout, relocations: seq<Relocation>, fnbs: seq<Byte>, varbs: seq<Byte>, databs: seq<Byte>,
                funcsyms: seq<SectSym>, varsyms: seq<SectSym>, datasyms: seq<SectSym>, ghost o: Placement)
    returns (bin: LinkedBin)
    requires o == Placement(l, funcsyms, varsyms, datasyms, fnbs, varbs, databs, relocations, o.origin)
    requires TextSlots(l, relocations, |fnbs|)
    requires DataSlots(l, p.vars, l.varlocs, |varbs|) && DataSlots(l, p.data, l.datalocs, |databs|)
    ensures Patched(p, o, bin)
  {
    hide TextSlots, TextSlot, DataSlot, VarWritten, Written;
    var text := ToArray(fnbs);
    var vardat := ToArray(varbs);
    var datadat := ToArray(databs);
    RelocateText(l, relocations, text);
    RelocateData(l, p.vars, l.varlocs, vardat);
    RelocateData(l, p.data, l.datalocs, datadat);
    bin := LinkedBin(
      Section(".text", l.textoff, text[..], Raised(funcsyms, l.textoff)),
      Section(".data", l.varoff, vardat[..], Raised(varsyms, l.varoff)),
      Section(".bss", l.dataoff, datadat[..], Raised(datasyms, l.dataoff)));
    AllLocated(l, relocations, |fnbs|);
  }

  lemma AllSlotsFit(p: Program, o: Placement)
    requires Arranged(p, o) && Gathered(p, o) && Closed(p, o.l) && WellSlotted(p)
    ensures TextSlots(o.l, o.relocations, |o.fnbs|)
    ensures DataSlots(o.l, p.vars, o.l.varlocs, |o.varbs|) && DataSlots(o.l, p.data, o.l.datalocs, |o.databs|)
  {
    hide LaidOut, Gathered, Closed, WellSlotted, TextSlots, DataSlots;
    TextSlotsFit(p, o);
    DataSlotsFit(p, o.l, Data, o.varsyms, o.varbs);
    DataSlotsFit(p, o.l, Bss, o.datasyms, o.databs);
  }

  lemma AllLocated(l: Layout, rs: seq<Relocation>, n: nat)
    requires TextSlots(l, rs, n)
    ensures forall i :: 0 <= i < |rs| ==> Located(l, rs[i].symbol)
  {
  }

  lemma FirstIsAtStart(p: Program, syms: seq<SectSym>, locs: map<string, int>, buf: seq<Byte>)
    requires LaidOut(p, Text, syms, locs, buf) && (syms != [] ==> syms[0].name == ENTRY)
    ensures ENTRY in locs ==> locs[ENTRY] == 0
  {
    if ENTRY in locs {
      var i := Position(p, Text, syms, locs, buf, ENTRY);
      assert Entry(p, Text, syms[0], locs, buf) && syms[0].address == End(syms[..0]);
    }
  }

  lemma PlacementOf(k: Linker, o: Placement)
    requires k.Valid() && k.TextLaidOut() && k.AllCollected() && k.needfn == []
    requires (forall n :: n in k.seen <==> Reachable(k.p, n)) && (forall n :: n in k.seen ==> Covered(k.p, n, k.seen))
    requires o.l.funclocs == k.funclocs && o.l.varlocs == k.varlocs && o.l.datalocs == k.datalocs
    requires o.funcsyms == k.funcsyms && o.varsyms == k.varsyms && o.datasyms == k.datasyms
    requires o.fnbs == k.fnbs && o.varbs == k.varbs && o.databs == k.databs
    requires o.relocations == k.relocations && o.origin == k.origin
    ensures Arranged(k.p, o) && Gathered(k.p, o) && Closed(k.p, o.l)
    ensures forall n :: InPlace(o.l, n) <==> Reachable(k.p, n)
  {
    hide LaidOut, Reachable, FromFunctions;
    FirstIsAtStart(k.p, k.funcsyms, k.funclocs, k.fnbs);
    k.NothingWaits();
    assert forall n :: InPlace(o.l, n) <==> n in k.seen;
  }
}
