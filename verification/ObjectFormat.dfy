/** The object-file format (bwrite.go): its records, and the reader of a whole file
    as the inverse of the writer. */
module ObjectFormat {
  import opened Wrappers
  import opened Bytes
  import opened Codecs

  // ----- records -----

  datatype DataReloc = DataReloc(offset: U32, symbol: Name, addend: I64)

  datatype Symbol = Symbol(name: Name, offset: U32)

  datatype Relocation = Relocation(offset: U32, symbol: Name, addend: I32)

  datatype TypeDescr = TypeDescr(name: Name, properties: seq<Name>, description: seq<Byte>)

  datatype Var = Var(name: Name, isPub: bool, vtype: Name, val: seq<Byte>, relocs: seq<DataReloc>, kind: Name)

  datatype Function = Function(
    name: Name, isPub: bool, ftype: Name, srcFile: Name, srcLine: int, args: seq<Var>, symbols: seq<Symbol>,
    relocations: seq<Relocation>, body: seq<Byte>, returnAliases: seq<seq<int>>)

  datatype FieldShape = FieldShape(name: Name, ftype: Name)

  datatype StructShape = StructShape(name: Name, isPub: bool, fields: seq<FieldShape>, methods: seq<Name>)

  datatype TypeAlias = TypeAlias(name: Name, isPub: bool, underlying: Name, methods: seq<Name>)

  datatype InterfaceMethod = InterfaceMethod(name: Name, params: seq<FieldShape>, result: Name, returnAliases: seq<seq<int>>)

  datatype Interface = Interface(name: Name, isPub: bool, methods: seq<InterfaceMethod>)

  datatype ValuesCase = ValuesCase(name: Name, tag: I64)

  datatype Values = Values(
    name: Name, isPub: bool, tagType: Name, cases: seq<ValuesCase>, projections: seq<Name>, methods: seq<Name>)

  function DataRelocs(): (c: Codec<DataReloc>)
    ensures Sound(c)
  {
    Record(Pair(Pair(Codecs.Uint32(), String()), Int64()),
           (t: ((U32, Name), I64)) =>
             DataReloc(t.0.0, t.0.1, t.1),
           (r: DataReloc) => ((r.offset, r.symbol), r.addend))
  }

  function Symbols(): (c: Codec<Symbol>)
    ensures Sound(c)
  {
    Record(Pair(String(), Codecs.Uint32()),
           (t: (Name, U32)) =>
             Symbol(t.0, t.1),
           (y: Symbol) => (y.name, y.offset))
  }

  function Relocations(): (c: Codec<Relocation>)
    ensures Sound(c)
  {
    Record(Pair(Pair(Codecs.Uint32(), String()), Codecs.Int32()),
           (t: ((U32, Name), I32)) =>
             Relocation(t.0.0, t.0.1, t.1),
           (r: Relocation) => ((r.offset, r.symbol), r.addend))
  }

  function TypeDescrs(): (c: Codec<TypeDescr>)
    ensures Sound(c)
  {
    Record(Pair(Pair(String(), List(String())), String()),
           (t: ((Name, seq<Name>), Name)) =>
             TypeDescr(t.0.0, t.0.1, t.1),
           (t: TypeDescr) => ((t.name, t.properties), t.description))
  }

  function Vars(): (c: Codec<Var>)
    ensures Sound(c)
  {
    Record(Pair(Pair(Pair(Pair(Pair(String(), Bool()), String()), String()), List(DataRelocs())), String()),
           (t: (((((Name, bool), Name), Name), seq<DataReloc>), Name)) =>
             Var(t.0.0.0.0.0, t.0.0.0.0.1, t.0.0.0.1, t.0.0.1, t.0.1, t.1),
           (v: Var) => (((((v.name, v.isPub), v.vtype), v.val), v.relocs), v.kind))
  }

  function Aliases(): (c: Codec<seq<seq<int>>>)
    ensures Sound(c)
  {
    List(List(Size()))
  }

  type FunctionHead = ((((Name, bool), Name), Name), int)

  /** Name, visibility, type and source position of a function. */
  function FunctionHeads(): (c: Codec<FunctionHead>)
    ensures Sound(c)
  {
    Pair(Pair(Pair(Pair(String(), Bool()), String()), String()), Size())
  }

  function Functions(): (c: Codec<Function>)
    ensures Sound(c)
  {
    Record(Pair(Pair(Pair(Pair(Pair(FunctionHeads(), List(Vars())), List(Symbols())), List(Relocations())), String()),
                Aliases()),
           (t: (((((FunctionHead, seq<Var>), seq<Symbol>), seq<Relocation>), seq<Byte>), seq<seq<int>>)) =>
             var h := t.0.0.0.0.0;
             Function(h.0.0.0.0, h.0.0.0.1, h.0.0.1, h.0.1, h.1, t.0.0.0.0.1, t.0.0.0.1, t.0.0.1, t.0.1, t.1),
           (f: Function) =>
             ((((((((((f.name, f.isPub), f.ftype), f.srcFile), f.srcLine), f.args), f.symbols), f.relocations), f.body),
              f.returnAliases)))
  }

  function Fields(): (c: Codec<FieldShape>)
    ensures Sound(c)
  {
    Record(Pair(String(), String()),
           (t: (Name, Name)) =>
             FieldShape(t.0, t.1),
           (f: FieldShape) => (f.name, f.ftype))
  }

  function Structs(): (c: Codec<StructShape>)
    ensures Sound(c)
  {
    Record(Pair(Pair(Pair(String(), Bool()), List(Fields())), List(String())),
           (t: (((Name, bool), seq<FieldShape>), seq<Name>)) =>
             StructShape(t.0.0.0, t.0.0.1, t.0.1, t.1),
           (s: StructShape) => (((s.name, s.isPub), s.fields), s.methods))
  }

  function TypeAliases(): (c: Codec<TypeAlias>)
    ensures Sound(c)
  {
    Record(Pair(Pair(Pair(String(), Bool()), String()), List(String())),
           (t: (((Name, bool), Name), seq<Name>)) =>
             TypeAlias(t.0.0.0, t.0.0.1, t.0.1, t.1),
           (a: TypeAlias) => (((a.name, a.isPub), a.underlying), a.methods))
  }

  function InterfaceMethods(): (c: Codec<InterfaceMethod>)
    ensures Sound(c)
  {
    Record(Pair(Pair(Pair(String(), List(Fields())), String()), Aliases()),
           (t: (((Name, seq<FieldShape>), Name), seq<seq<int>>)) =>
             InterfaceMethod(t.0.0.0, t.0.0.1, t.0.1, t.1),
           (m: InterfaceMethod) => (((m.name, m.params), m.result), m.returnAliases))
  }

  function Interfaces(): (c: Codec<Interface>)
    ensures Sound(c)
  {
    Record(Pair(Pair(String(), Bool()), List(InterfaceMethods())),
           (t: ((Name, bool), seq<InterfaceMethod>)) =>
             Interface(t.0.0, t.0.1, t.1),
           (i: Interface) => ((i.name, i.isPub), i.methods))
  }

  function Cases(): (c: Codec<ValuesCase>)
    ensures Sound(c)
  {
    Record(Pair(String(), Int64()),
           (t: (Name, I64)) =>
             ValuesCase(t.0, t.1),
           (c: ValuesCase) => (c.name, c.tag))
  }

  function ValuesTypes(): (c: Codec<Values>)
    ensures Sound(c)
  {
    Record(Pair(Pair(Pair(Pair(Pair(String(), Bool()), String()), List(Cases())), List(String())), List(String())),
           (t: (((((Name, bool), Name), seq<ValuesCase>), seq<Name>), seq<Name>)) =>
             Values(t.0.0.0.0.0, t.0.0.0.0.1, t.0.0.0.1, t.0.0.1, t.0.1, t.1),
           (v: Values) => (((((v.name, v.isPub), v.tagType), v.cases), v.projections), v.methods))
  }

  // ----- whole files -----

  datatype OFile = OFile(
    pkgname: Name, exeFormat: Name, types: map<Name, TypeDescr>, data: map<Name, Var>, vars: map<Name, Var>,
    funcs: map<Name, Function>, structs: map<Name, StructShape>, aliases: map<Name, TypeAlias>,
    interfaces: map<Name, Interface>, values: map<Name, Values>)

  /** The orders in which the maps of a file are written. */
  datatype Orders = Orders(
    types: seq<Name>, data: seq<Name>, vars: seq<Name>, funcs: seq<Name>, structs: seq<Name>, aliases: seq<Name>,
    interfaces: seq<Name>, values: seq<Name>)

  ghost predicate AnyOrders(o: OFile, ord: Orders) {
    && Enumerates(ord.types, o.types) && Enumerates(ord.data, o.data)
    && Enumerates(ord.vars, o.vars) && Enumerates(ord.funcs, o.funcs)
  }

  ghost predicate SortedOrders(o: OFile, ord: Orders) {
    && Enumerates(ord.structs, o.structs) && Sorted(ord.structs)
    && Enumerates(ord.aliases, o.aliases) && Sorted(ord.aliases)
    && Enumerates(ord.interfaces, o.interfaces) && Sorted(ord.interfaces)
    && Enumerates(ord.values, o.values) && Sorted(ord.values)
  }

  /** What can be written: no size is negative or too large. */
  ghost predicate Writable(o: OFile) { LinkWritable(o) && ImportWritable(o) }

  ghost predicate LinkWritable(o: OFile) {
    && String().valid(o.pkgname) && String().valid(o.exeFormat)
    && ValidMap(TypeDescrs(), o.types) && ValidMap(Vars(), o.data) && ValidMap(Vars(), o.vars) &&
       ValidMap(Functions(), o.funcs)
  }

  ghost predicate ImportWritable(o: OFile) {
    && ValidMap(Structs(), o.structs) && ValidMap(TypeAliases(), o.aliases)
    && ValidMap(Interfaces(), o.interfaces) && ValidMap(ValuesTypes(), o.values)
  }

  function TypeName(t: TypeDescr): Name { t.name }
  function VarName(v: Var): Name { v.name }
  function FunctionName(f: Function): Name { f.name }
  function StructName(s: StructShape): Name { s.name }
  function AliasName(a: TypeAlias): Name { a.name }
  function InterfaceName(i: Interface): Name { i.name }
  function ValuesName(v: Values): Name { v.name }

  /** Every record is filed under its own name. */
  ghost predicate WellNamed(o: OFile) {
    && Filed(o.types, TypeName) && Filed(o.data, VarName) && Filed(o.vars, VarName) && Filed(o.funcs, FunctionName)
    && Filed(o.structs, StructName) && Filed(o.aliases, AliasName)
    && Filed(o.interfaces, InterfaceName) && Filed(o.values, ValuesName)
  }

  /** The part of a file whose maps are written as they come. */
  ghost function LinkBytes(o: OFile, ord: Orders): seq<Byte>
    requires AnyOrders(o, ord)
  {
    WriteString(o.pkgname) + WriteString(o.exeFormat) + MapBytes(TypeDescrs(), o.types, ord.types)
    + MapBytes(Vars(), o.data, ord.data) + MapBytes(Vars(), o.vars, ord.vars) + MapBytes(Functions(), o.funcs, ord.funcs)
  }

  /** The part whose maps are sorted. */
  ghost function ImportBytes(o: OFile, ord: Orders): seq<Byte>
    requires SortedOrders(o, ord)
  {
    MapBytes(Structs(), o.structs, ord.structs) + MapBytes(TypeAliases(), o.aliases, ord.aliases)
    + MapBytes(Interfaces(), o.interfaces, ord.interfaces) + MapBytes(ValuesTypes(), o.values, ord.values)
  }

  function OFileFrom(s0: seq<Byte>): Option<(OFile, seq<Byte>)> {
    hide TypeDescrs, Vars, Functions, Structs, TypeAliases, Interfaces, ValuesTypes, ReadString, ReadMap;
    var pkgname :- ReadString(s0);
    var exeFormat :- ReadString(pkgname.1);
    var types :- ReadMap(TypeDescrs(), TypeName, exeFormat.1);
    var data :- ReadMap(Vars(), VarName, types.1);
    var vars :- ReadMap(Vars(), VarName, data.1);
    var funcs :- ReadMap(Functions(), FunctionName, vars.1);
    var structs :- ReadMap(Structs(), StructName, funcs.1);
    var aliases :- ReadMap(TypeAliases(), AliasName, structs.1);
    var interfaces :- ReadMap(Interfaces(), InterfaceName, aliases.1);
    var values :- ReadMap(ValuesTypes(), ValuesName, interfaces.1);
    Some((OFile(pkgname.0, exeFormat.0, types.0, data.0, vars.0, funcs.0, structs.0, aliases.0, interfaces.0, values.0),
          values.1))
  }

  /** What is read of a written file: the same records, under their own names. */
  ghost function RefiledOFile(o: OFile, ord: Orders): OFile
    requires AnyOrders(o, ord) && SortedOrders(o, ord)
  {
    OFile(o.pkgname, o.exeFormat,
          Refiled(o.types, TypeName, ord.types), Refiled(o.data, VarName, ord.data), Refiled(o.vars, VarName, ord.vars),
          Refiled(o.funcs, FunctionName, ord.funcs), Refiled(o.structs, StructName, ord.structs),
          Refiled(o.aliases, AliasName, ord.aliases), Refiled(o.interfaces, InterfaceName, ord.interfaces),
          Refiled(o.values, ValuesName, ord.values))
  }

  lemma OFileIsRefiled(o: OFile, ord: Orders, rest: seq<Byte>)
    requires Writable(o) && AnyOrders(o, ord) && SortedOrders(o, ord)
    ensures OFileFrom(LinkBytes(o, ord) + ImportBytes(o, ord) + rest) == Some((RefiledOFile(o, ord), rest))
  {
    hide TypeDescrs, Vars, Functions, Structs, TypeAliases, Interfaces, ValuesTypes, WriteString, ReadString;
    hide MapBytes, ReadMap, Refiled, ValidMap, Enumerates, Sorted;
    var s9 := MapBytes(ValuesTypes(), o.values, ord.values) + rest;
    var s8 := MapBytes(Interfaces(), o.interfaces, ord.interfaces) + s9;
    var s7 := MapBytes(TypeAliases(), o.aliases, ord.aliases) + s8;
    var s6 := MapBytes(Structs(), o.structs, ord.structs) + s7;
    var s5 := MapBytes(Functions(), o.funcs, ord.funcs) + s6;
    var s4 := MapBytes(Vars(), o.vars, ord.vars) + s5;
    var s3 := MapBytes(Vars(), o.data, ord.data) + s4;
    var s2 := MapBytes(TypeDescrs(), o.types, ord.types) + s3;
    var s1 := WriteString(o.exeFormat) + s2;
    assert ImportBytes(o, ord) + rest == s6;
    assert LinkBytes(o, ord) + s6 == WriteString(o.pkgname) + s1;
    assert LinkBytes(o, ord) + ImportBytes(o, ord) + rest == LinkBytes(o, ord) + (ImportBytes(o, ord) + rest);
    StringReadsBack(o.pkgname, s1);
    StringReadsBack(o.exeFormat, s2);
    MapIsRefiled(TypeDescrs(), o.types, TypeName, ord.types, s3);
    MapIsRefiled(Vars(), o.data, VarName, ord.data, s4);
    MapIsRefiled(Vars(), o.vars, VarName, ord.vars, s5);
    MapIsRefiled(Functions(), o.funcs, FunctionName, ord.funcs, s6);
    MapIsRefiled(Structs(), o.structs, StructName, ord.structs, s7);
    MapIsRefiled(TypeAliases(), o.aliases, AliasName, ord.aliases, s8);
    MapIsRefiled(Interfaces(), o.interfaces, InterfaceName, ord.interfaces, s9);
    MapIsRefiled(ValuesTypes(), o.values, ValuesName, ord.values, rest);
  }

  lemma RefiledIsSameOFile(o: OFile, ord: Orders)
    requires AnyOrders(o, ord) && SortedOrders(o, ord)
    ensures RefiledOFile(o, ord) == o <==> WellNamed(o)
  {
    hide Refiled, Filed, Enumerates, Sorted;
    RefiledIsSame(o.types, TypeName, ord.types);
    RefiledIsSame(o.data, VarName, ord.data);
    RefiledIsSame(o.vars, VarName, ord.vars);
    RefiledIsSame(o.funcs, FunctionName, ord.funcs);
    RefiledIsSame(o.structs, StructName, ord.structs);
    RefiledIsSame(o.aliases, AliasName, ord.aliases);
    RefiledIsSame(o.interfaces, InterfaceName, ord.interfaces);
    RefiledIsSame(o.values, ValuesName, ord.values);
  }

  /** A written file, followed by anything, reads back as the same file and leaves
      what follows, whatever the order in which its maps are iterated, exactly if
      every record is filed under its own name. */
  lemma OFileReadsBack(o: OFile, ord: Orders, rest: seq<Byte>)
    requires Writable(o) && AnyOrders(o, ord) && SortedOrders(o, ord)
    ensures OFileFrom(LinkBytes(o, ord) + ImportBytes(o, ord) + rest) == Some((o, rest)) <==> WellNamed(o)
  {
    hide OFileFrom, LinkBytes, ImportBytes, RefiledOFile, WellNamed, Writable, AnyOrders, SortedOrders;
    OFileIsRefiled(o, ord, rest);
    RefiledIsSameOFile(o, ord);
  }

  /** The sorted part of a file is the same bytes every time it is written. */
  lemma ImportBytesAlike(o: OFile, ord: Orders, again: Orders)
    requires SortedOrders(o, ord) && SortedOrders(o, again)
    ensures ImportBytes(o, ord) == ImportBytes(o, again)
  {
    SortedIsUnique(ord.structs, again.structs);
    SortedIsUnique(ord.aliases, again.aliases);
    SortedIsUnique(ord.interfaces, again.interfaces);
    SortedIsUnique(ord.values, again.values);
  }
}
