/** Object files written to and read from a stream of bytes, record by record and
    field by field (bwrite.go). */
module ObjectStream {
  import opened Wrappers
  import opened Bytes
  import opened Codecs
  import opened ObjectFormat

  /** What a writer does: it succeeds exactly if the value can be written, and then
      has appended its bytes. */
  ghost predicate Put<T>(c: Codec<T>, x: T, was: seq<Byte>, now: seq<Byte>, ok: bool) {
    (ok <==> c.valid(x)) && (ok ==> now == was + c.write(x))
  }

  /** What a reader does: it fails exactly if nothing can be read, and otherwise has
      taken the value off the front. */
  ghost predicate Got<T>(c: Codec<T>, was: seq<Byte>, r: Option<T>, now: seq<Byte>) {
    match c.read(was)
    case None => r.None?
    case Some(p) => r == Some(p.0) && now == p.1
  }

  lemma Then(was: seq<Byte>, done: seq<Byte>, piece: seq<Byte>) returns (more: seq<Byte>)
    ensures more == done + piece && was + done + piece == was + more
  {
    more := done + piece;
  }

  // ----- loops over records -----

  /** The first i of some records have been written, behind their number. */
  ghost predicate Written<T>(c: Codec<T>, xs: seq<T>, i: nat, was: seq<Byte>, now: seq<Byte>) {
    && i <= |xs| <= MAX_INT && (forall j :: 0 <= j < i ==> c.valid(xs[j]))
    && now == was + (WriteSize(|xs|) + WriteAll(c, xs[..i]))
  }

  lemma WrittenNone<T>(c: Codec<T>, xs: seq<T>, was: seq<Byte>)
    requires |xs| <= MAX_INT
    ensures Written(c, xs, 0, was, was + WriteSize(|xs|))
  {
    hide WriteSize;
    assert WriteAll(c, xs[..0]) == [];
    assert WriteSize(|xs|) + [] == WriteSize(|xs|);
  }

  lemma WrittenMore<T>(c: Codec<T>, xs: seq<T>, i: nat, was: seq<Byte>, now: seq<Byte>)
    requires Written(c, xs, i, was, now) && i < |xs| && c.valid(xs[i])
    ensures Written(c, xs, i + 1, was, now + c.write(xs[i]))
  {
    hide WriteSize, WriteAll;
    AllSnoc(c, xs[..i], xs[i]);
    assert xs[..i + 1] == xs[..i] + [xs[i]];
  }

  lemma WrittenAll<T(!new)>(c: Codec<T>, xs: seq<T>, was: seq<Byte>, now: seq<Byte>)
    requires Sound(c) && Written(c, xs, |xs|, was, now)
    ensures Put(List(c), xs, was, now, true)
  {
    hide WriteSize, WriteAll;
    assert xs[..|xs|] == xs;
  }

  lemma {:induction false} AllSnoc<T>(c: Codec<T>, xs: seq<T>, x: T)
    ensures WriteAll(c, xs + [x]) == WriteAll(c, xs) + c.write(x)
    decreases |xs|
  {
    if xs == [] {
      assert xs + [x] == [x] && WriteAll(c, [x]) == c.write(x);
    } else {
      assert (xs + [x])[1..] == xs[1..] + [x];
      AllSnoc(c, xs[1..], x);
    }
  }

  /** Some records have been read, and these are left of a list. */
  ghost predicate Reading<T>(c: Codec<T>, all: Option<(seq<T>, seq<Byte>)>, xs: seq<T>, left: nat, now: seq<Byte>) {
    var rest := ReadAll(c, left, now);
    all == if rest.None? then None else Some((xs + rest.value.0, rest.value.1))
  }

  lemma ReadingNone<T>(c: Codec<T>, n: nat, now: seq<Byte>)
    ensures Reading(c, ReadAll(c, n, now), [], n, now)
  {
    var rest := ReadAll(c, n, now);
    if rest.Some? { assert [] + rest.value.0 == rest.value.0; }
  }

  lemma ReadingMore<T>(c: Codec<T>, all: Option<(seq<T>, seq<Byte>)>, xs: seq<T>, left: nat, now: seq<Byte>)
    requires Reading(c, all, xs, left, now) && left > 0
    ensures c.read(now).None? ==> all.None?
    ensures c.read(now).Some? ==> Reading(c, all, xs + [c.read(now).value.0], left - 1, c.read(now).value.1)
  {
    if c.read(now).Some? {
      var (x, rest) := c.read(now).value;
      var tail := ReadAll(c, left - 1, rest);
      if tail.Some? { assert xs + ([x] + tail.value.0) == xs + [x] + tail.value.0; }
    }
  }

  lemma ReadingAll<T>(c: Codec<T>, all: Option<(seq<T>, seq<Byte>)>, xs: seq<T>, now: seq<Byte>)
    requires Reading(c, all, xs, 0, now)
    ensures all == Some((xs, now))
  {
    assert xs + [] == xs;
  }

  // ----- loops over maps -----

  ghost predicate PutMap<T>(c: Codec<T>, m: map<Name, T>, order: seq<Name>, was: seq<Byte>, now: seq<Byte>, ok: bool) {
    && Enumerates(order, m) && (ok <==> ValidMap(c, m))
    && (ok ==> now == was + MapBytes(c, m, order))
  }

  ghost predicate GotMap<T>(c: Codec<T>, name: T -> Name, was: seq<Byte>, r: Option<map<Name, T>>, now: seq<Byte>) {
    match ReadMap(c, name, was)
    case None => r.None?
    case Some(p) => r == Some(p.0) && now == p.1
  }

  lemma MapWritten<T>(c: Codec<T>, m: map<Name, T>, order: seq<Name>, was: seq<Byte>, now: seq<Byte>)
    requires Enumerates(order, m) && Written(c, Listed(m, order), |order|, was, now)
    ensures PutMap(c, m, order, was, now, true)
  {
    hide WriteSize, WriteAll, Listed;
    var xs := Listed(m, order);
    assert xs[..|order|] == xs;
    OrderSize(order, m);
    forall k | k in m ensures c.valid(m[k]) {
      var i :| 0 <= i < |order| && order[i] == k;
      assert c.valid(xs[i]);
    }
  }

  lemma FillNone<T>(name: T -> Name)
    ensures Fill([], name) == map[]
  {
  }

  lemma FillSnoc<T>(xs: seq<T>, x: T, name: T -> Name)
    ensures Fill(xs + [x], name) == Fill(xs, name)[name(x) := x]
  {
    assert (xs + [x])[..|xs|] == xs;
  }

  /** The keys of a map as they come. */
  method Keys<T>(m: map<Name, T>) returns (order: seq<Name>)
    ensures Enumerates(order, m)
  {
    order := [];
    var left := m.Keys;
    while left != {}
      invariant forall k :: k in m <==> k in left || k in order
      invariant forall k :: k in left ==> k !in order
      invariant forall i, j :: 0 <= i < j < |order| ==> order[i] != order[j]
      decreases left
    {
      var k :| k in left;
      left := left - {k};
      order := order + [k];
    }
  }

  /** Distinct names in byte-wise order. */
  method Sort(names: seq<Name>) returns (sorted: seq<Name>)
    requires forall i, j :: 0 <= i < j < |names| ==> names[i] != names[j]
    ensures Sorted(sorted) && forall k :: k in sorted <==> k in names
  {
    sorted := [];
    for i := 0 to |names|
      invariant Sorted(sorted) && forall k :: k in sorted <==> k in names[..i]
    {
      var at := 0;
      while at < |sorted| && Less(sorted[at], names[i])
        invariant 0 <= at <= |sorted|
        invariant forall j :: 0 <= j < at ==> Less(sorted[j], names[i])
      {
        at := at + 1;
      }
      InsertSorted(sorted, at, names[i]);
      sorted := sorted[..at] + [names[i]] + sorted[at..];
    }
  }

  lemma SortedEnumerates<T>(keys: seq<Name>, names: seq<Name>, m: map<Name, T>)
    requires Enumerates(keys, m) && Sorted(names) && forall k :: k in names <==> k in keys
    ensures Enumerates(names, m)
  {
    forall i, j | 0 <= i < j < |names| ensures names[i] != names[j] { LessIrreflexive(names[i]); }
  }

  lemma InsertSorted(sorted: seq<Name>, at: nat, x: Name)
    requires Sorted(sorted) && at <= |sorted| && x !in sorted
    requires forall j :: 0 <= j < at ==> Less(sorted[j], x)
    requires at < |sorted| ==> !Less(sorted[at], x)
    ensures Sorted(sorted[..at] + [x] + sorted[at..])
    ensures forall k :: k in sorted[..at] + [x] + sorted[at..] <==> k in sorted || k == x
  {
    assert sorted == sorted[..at] + sorted[at..];
    if at < |sorted| { LessTotal(x, sorted[at]); }
    forall j | at <= j < |sorted| ensures Less(x, sorted[j]) {
      if at < j { LessTransitive(x, sorted[at], sorted[j]); }
    }
    var s := sorted[..at] + [x] + sorted[at..];
    forall i, j | 0 <= i < j < |s| ensures Less(s[i], s[j]) {
      if i < at < j { assert s[i] == sorted[i] && s[j] == sorted[j - 1]; }
    }
  }

  lemma {:induction false} LessTotal(a: Name, b: Name)
    ensures Less(a, b) || Less(b, a) || a == b
  {
    if a != [] && b != [] && a[0] == b[0] {
      LessTotal(a[1..], b[1..]);
      assert a[1..] == b[1..] ==> a == b by {
        assert a == [a[0]] + a[1..] && b == [b[0]] + b[1..];
      }
    }
  }

  // ----- the layout of records -----

  /** What can be written: every length fits an int, and every size and index is not
      negative. */
  lemma Admitted<T(!new)>(c: Codec<T>, s: Name, n: int, xs: seq<T>)
    requires Sound(c)
    ensures String().valid(s) <==> |s| <= MAX_INT
    ensures Size().valid(n) <==> 0 <= n <= MAX_INT
    ensures List(c).valid(xs) <==> |xs| <= MAX_INT && forall i :: 0 <= i < |xs| ==> c.valid(xs[i])
  {
  }

  lemma DataRelocLayout(r: DataReloc)
    ensures DataRelocs().write(r) ==
              Codecs.Uint32().write(r.offset) + String().write(r.symbol) + Int64().write(r.addend)
    ensures DataRelocs().valid(r) <==> String().valid(r.symbol)
  {
    hide String;
  }

  lemma SymbolLayout(y: Symbol)
    ensures Symbols().write(y) == String().write(y.name) + Codecs.Uint32().write(y.offset)
    ensures Symbols().valid(y) <==> String().valid(y.name)
  {
    hide String;
  }

  lemma RelocationLayout(r: Relocation)
    ensures Relocations().write(r) ==
              Codecs.Uint32().write(r.offset) + String().write(r.symbol) + Codecs.Int32().write(r.addend)
    ensures Relocations().valid(r) <==> String().valid(r.symbol)
  {
    hide String;
  }

  lemma TypeDescrLayout(t: TypeDescr)
    ensures TypeDescrs().write(t) ==
              String().write(t.name) + List(String()).write(t.properties) + String().write(t.description)
    ensures TypeDescrs().valid(t) <==>
              String().valid(t.name) && List(String()).valid(t.properties) && String().valid(t.description)
  {
    hide String, List;
  }

  lemma VarLayout(v: Var)
    ensures Vars().write(v) ==
              String().write(v.name) + Bool().write(v.isPub) + String().write(v.vtype) + String().write(v.val) +
              List(DataRelocs()).write(v.relocs) + String().write(v.kind)
    ensures Vars().valid(v) <==>
              String().valid(v.name) && String().valid(v.vtype) && String().valid(v.val) &&
              List(DataRelocs()).valid(v.relocs) && String().valid(v.kind)
  {
    hide String, List, DataRelocs;
  }

  lemma FieldLayout(f: FieldShape)
    ensures Fields().write(f) == String().write(f.name) + String().write(f.ftype)
    ensures Fields().valid(f) <==> String().valid(f.name) && String().valid(f.ftype)
  {
    hide String;
  }

  lemma StructLayout(s: StructShape)
    ensures Structs().write(s) ==
              String().write(s.name) + Bool().write(s.isPub) + List(Fields()).write(s.fields) +
              List(String()).write(s.methods)
    ensures Structs().valid(s) <==>
              String().valid(s.name) && List(Fields()).valid(s.fields) && List(String()).valid(s.methods)
  {
    hide String, List, Fields;
  }

  lemma TypeAliasLayout(a: TypeAlias)
    ensures TypeAliases().write(a) ==
              String().write(a.name) + Bool().write(a.isPub) + String().write(a.underlying) +
              List(String()).write(a.methods)
    ensures TypeAliases().valid(a) <==>
              String().valid(a.name) && String().valid(a.underlying) && List(String()).valid(a.methods)
  {
    hide String, List;
  }

  lemma InterfaceMethodLayout(m: InterfaceMethod)
    ensures InterfaceMethods().write(m) ==
              String().write(m.name) + List(Fields()).write(m.params) + String().write(m.result) +
              List(List(Size())).write(m.returnAliases)
    ensures InterfaceMethods().valid(m) <==>
              String().valid(m.name) && List(Fields()).valid(m.params) && String().valid(m.result) &&
              List(List(Size())).valid(m.returnAliases)
  {
    hide String, List, Fields, Size;
  }

  lemma InterfaceLayout(i: Interface)
    ensures Interfaces().write(i) ==
              String().write(i.name) + Bool().write(i.isPub) + List(InterfaceMethods()).write(i.methods)
    ensures Interfaces().valid(i) <==> String().valid(i.name) && List(InterfaceMethods()).valid(i.methods)
  {
    hide String, List, InterfaceMethods;
  }

  lemma CaseLayout(c: ValuesCase)
    ensures Cases().write(c) == String().write(c.name) + Int64().write(c.tag)
    ensures Cases().valid(c) <==> String().valid(c.name)
  {
    hide String;
  }

  lemma ValuesLayout(v: Values)
    ensures ValuesTypes().write(v) ==
              String().write(v.name) + Bool().write(v.isPub) + String().write(v.tagType) +
              List(Cases()).write(v.cases) + List(String()).write(v.projections) +
              List(String()).write(v.methods)
    ensures ValuesTypes().valid(v) <==>
              String().valid(v.name) && String().valid(v.tagType) && List(Cases()).valid(v.cases) &&
              List(String()).valid(v.projections) && List(String()).valid(v.methods)
  {
    hide String, List, Cases;
  }

  lemma FunctionLayout(f: Function)
    ensures Functions().write(f) ==
              String().write(f.name) + Bool().write(f.isPub) + String().write(f.ftype) +
              String().write(f.srcFile) + Size().write(f.srcLine) + List(Vars()).write(f.args) +
              List(Symbols()).write(f.symbols) + List(Relocations()).write(f.relocations) +
              String().write(f.body) + List(List(Size())).write(f.returnAliases)
    ensures Functions().valid(f) <==>
              String().valid(f.name) && String().valid(f.ftype) && String().valid(f.srcFile) &&
              Size().valid(f.srcLine) && List(Vars()).valid(f.args) && List(Symbols()).valid(f.symbols) &&
              List(Relocations()).valid(f.relocations) && String().valid(f.body) &&
              List(List(Size())).valid(f.returnAliases)
  {
    hide String, Size, List, Vars, Symbols, Relocations;
  }

  class Stream {
    var bytes: seq<Byte>

    // ----- numbers and strings -----

    method WriteSize(n: int) returns (ok: bool)
      modifies this
      ensures ok <==> 0 <= n <= MAX_INT
      ensures ok ==> bytes == old(bytes) + Codecs.WriteSize(n)
    {
      ok := 0 <= n <= MAX_INT;
      if ok { bytes := bytes + LittleEndian(n, 8); }
    }

    method ReadSize() returns (r: Option<nat>)
      modifies this
      ensures match Codecs.ReadSize(old(bytes)) {
                case None => r.None?
                case Some(p) => r == Some(p.0) && bytes == p.1
              }
    {
      if |bytes| < 8 { return None; }
      var n := Value(bytes[..8]);
      if n > MAX_INT { return None; }
      bytes := bytes[8..];
      r := Some(n);
    }

    method WriteBool(b: bool)
      modifies this
      ensures Put(Bool(), b, old(bytes), bytes, true)
    {
      bytes := bytes + [if b then 1 else 0];
    }

    method ReadBool() returns (r: Option<bool>)
      modifies this
      ensures Got(Bool(), old(bytes), r, bytes)
    {
      if bytes == [] { return None; }
      r := Some(bytes[0] != 0);
      bytes := bytes[1..];
    }

    method WriteUint32(x: U32)
      modifies this
      ensures Put(Codecs.Uint32(), x, old(bytes), bytes, true)
    {
      bytes := bytes + LittleEndian(x, 4);
    }

    method ReadUint32() returns (r: Option<U32>)
      modifies this
      ensures Got(Codecs.Uint32(), old(bytes), r, bytes)
    {
      var x :- ReadU32(bytes);
      bytes := x.1;
      r := Some(x.0);
    }

    method WriteInt32(x: I32)
      modifies this
      ensures Put(Codecs.Int32(), x, old(bytes), bytes, true)
    {
      bytes := bytes + LittleEndian(x, 4);
    }

    method ReadInt32() returns (r: Option<I32>)
      modifies this
      ensures Got(Codecs.Int32(), old(bytes), r, bytes)
    {
      var x :- ReadI32(bytes);
      bytes := x.1;
      r := Some(x.0);
    }

    method WriteInt64(x: I64)
      modifies this
      ensures Put(Int64(), x, old(bytes), bytes, true)
    {
      bytes := bytes + LittleEndian(x, 8);
    }

    method ReadInt64() returns (r: Option<I64>)
      modifies this
      ensures Got(Int64(), old(bytes), r, bytes)
    {
      var x :- ReadI64(bytes);
      bytes := x.1;
      r := Some(x.0);
    }

    method WriteString(s: Name) returns (ok: bool)
      modifies this
      ensures Put(String(), s, old(bytes), bytes, ok)
    {
      ghost var was := bytes;
      ok := WriteSize(|s|);
      if !ok { return; }
      bytes := bytes + s;
      assert bytes == was + Codecs.WriteString(s);
    }

    method ReadString() returns (r: Option<Name>)
      modifies this
      ensures Got(String(), old(bytes), r, bytes)
    {
      var size :- ReadSize();
      if |bytes| < size { return None; }
      r := Some(bytes[..size]);
      bytes := bytes[size..];
    }

    // ----- lists -----

    method WriteIndex(n: int) returns (ok: bool)
      modifies this
      ensures Put(Size(), n, old(bytes), bytes, ok)
    {
      ok := WriteSize(n);
    }

    method ReadIndex() returns (r: Option<int>)
      modifies this
      ensures Got(Size(), old(bytes), r, bytes)
    {
      r := ReadSize();
    }

    method WriteStrings(xs: seq<Name>) returns (ok: bool)
      modifies this
      ensures Put(List(String()), xs, old(bytes), bytes, ok)
    {
      hide Written, Codecs.WriteSize, WriteAll;
      ghost var was := bytes;
      ok := WriteSize(|xs|);
      if !ok { return; }
      WrittenNone(String(), xs, was);
      for i := 0 to |xs|
        invariant Written(String(), xs, i, was, bytes)
      {
        ghost var now := bytes;
        ok := WriteString(xs[i]);
        if !ok { return; }
        WrittenMore(String(), xs, i, was, now);
      }
      WrittenAll(String(), xs, was, bytes);
      ok := true;
    }

    method ReadStrings() returns (r: Option<seq<Name>>)
      modifies this
      ensures Got(List(String()), old(bytes), r, bytes)
    {
      hide Reading, ReadAll, Codecs.ReadSize;
      var n :- ReadSize();
      var xs: seq<Name> := [];
      ghost var all := ReadAll(String(), n, bytes);
      ReadingNone(String(), n, bytes);
      for i := 0 to n
        invariant Reading(String(), all, xs, n - i, bytes)
      {
        ReadingMore(String(), all, xs, n - i, bytes);
        var x :- ReadString();
        xs := xs + [x];
      }
      ReadingAll(String(), all, xs, bytes);
      r := Some(xs);
    }

    method WriteInts(xs: seq<int>) returns (ok: bool)
      modifies this
      ensures Put(List(Size()), xs, old(bytes), bytes, ok)
    {
      hide Written, Codecs.WriteSize, WriteAll;
      ghost var was := bytes;
      ok := WriteSize(|xs|);
      if !ok { return; }
      WrittenNone(Size(), xs, was);
      for i := 0 to |xs|
        invariant Written(Size(), xs, i, was, bytes)
      {
        ghost var now := bytes;
        ok := WriteIndex(xs[i]);
        if !ok { return; }
        WrittenMore(Size(), xs, i, was, now);
      }
      WrittenAll(Size(), xs, was, bytes);
      ok := true;
    }

    method ReadInts() returns (r: Option<seq<int>>)
      modifies this
      ensures Got(List(Size()), old(bytes), r, bytes)
    {
      hide Reading, ReadAll, Codecs.ReadSize;
      var n :- ReadSize();
      var xs: seq<int> := [];
      ghost var all := ReadAll(Size(), n, bytes);
      ReadingNone(Size(), n, bytes);
      for i := 0 to n
        invariant Reading(Size(), all, xs, n - i, bytes)
      {
        ReadingMore(Size(), all, xs, n - i, bytes);
        var x :- ReadIndex();
        xs := xs + [x];
      }
      ReadingAll(Size(), all, xs, bytes);
      r := Some(xs);
    }

    method WriteSlots(xs: seq<seq<int>>) returns (ok: bool)
      modifies this
      ensures Put(List(List(Size())), xs, old(bytes), bytes, ok)
    {
      hide Written, Codecs.WriteSize, WriteAll;
      ghost var was := bytes;
      ok := WriteSize(|xs|);
      if !ok { return; }
      WrittenNone(List(Size()), xs, was);
      for i := 0 to |xs|
        invariant Written(List(Size()), xs, i, was, bytes)
      {
        ghost var now := bytes;
        ok := WriteInts(xs[i]);
        if !ok { return; }
        WrittenMore(List(Size()), xs, i, was, now);
      }
      WrittenAll(List(Size()), xs, was, bytes);
      ok := true;
    }

    method ReadSlots() returns (r: Option<seq<seq<int>>>)
      modifies this
      ensures Got(List(List(Size())), old(bytes), r, bytes)
    {
      hide Reading, ReadAll, Codecs.ReadSize;
      var n :- ReadSize();
      var xs: seq<seq<int>> := [];
      ghost var all := ReadAll(List(Size()), n, bytes);
      ReadingNone(List(Size()), n, bytes);
      for i := 0 to n
        invariant Reading(List(Size()), all, xs, n - i, bytes)
      {
        ReadingMore(List(Size()), all, xs, n - i, bytes);
        var x :- ReadInts();
        xs := xs + [x];
      }
      ReadingAll(List(Size()), all, xs, bytes);
      r := Some(xs);
    }

    method WriteDataRelocs(xs: seq<DataReloc>) returns (ok: bool)
      modifies this
      ensures Put(List(DataRelocs()), xs, old(bytes), bytes, ok)
    {
      hide Written, Codecs.WriteSize, WriteAll, DataRelocs;
      ghost var was := bytes;
      ok := WriteSize(|xs|);
      if !ok { return; }
      WrittenNone(DataRelocs(), xs, was);
      for i := 0 to |xs|
        invariant Written(DataRelocs(), xs, i, was, bytes)
      {
        ghost var now := bytes;
        ok := WriteDataReloc(xs[i]);
        if !ok { return; }
        WrittenMore(DataRelocs(), xs, i, was, now);
      }
      WrittenAll(DataRelocs(), xs, was, bytes);
      ok := true;
    }

    method ReadDataRelocs() returns (r: Option<seq<DataReloc>>)
      modifies this
      ensures Got(List(DataRelocs()), old(bytes), r, bytes)
    {
      hide Reading, ReadAll, Codecs.ReadSize, DataRelocs;
      var n :- ReadSize();
      var xs: seq<DataReloc> := [];
      ghost var all := ReadAll(DataRelocs(), n, bytes);
      ReadingNone(DataRelocs(), n, bytes);
      for i := 0 to n
        invariant Reading(DataRelocs(), all, xs, n - i, bytes)
      {
        ReadingMore(DataRelocs(), all, xs, n - i, bytes);
        var x :- ReadDataReloc();
        xs := xs + [x];
      }
      ReadingAll(DataRelocs(), all, xs, bytes);
      r := Some(xs);
    }

    method WriteSymbols(xs: seq<Symbol>) returns (ok: bool)
      modifies this
      ensures Put(List(Symbols()), xs, old(bytes), bytes, ok)
    {
      hide Written, Codecs.WriteSize, WriteAll, Symbols;
      ghost var was := bytes;
      ok := WriteSize(|xs|);
      if !ok { return; }
      WrittenNone(Symbols(), xs, was);
      for i := 0 to |xs|
        invariant Written(Symbols(), xs, i, was, bytes)
      {
        ghost var now := bytes;
        ok := WriteSymbol(xs[i]);
        if !ok { return; }
        WrittenMore(Symbols(), xs, i, was, now);
      }
      WrittenAll(Symbols(), xs, was, bytes);
      ok := true;
    }

    method ReadSymbols() returns (r: Option<seq<Symbol>>)
      modifies this
      ensures Got(List(Symbols()), old(bytes), r, bytes)
    {
      hide Reading, ReadAll, Codecs.ReadSize, Symbols;
      var n :- ReadSize();
      var xs: seq<Symbol> := [];
      ghost var all := ReadAll(Symbols(), n, bytes);
      ReadingNone(Symbols(), n, bytes);
      for i := 0 to n
        invariant Reading(Symbols(), all, xs, n - i, bytes)
      {
        ReadingMore(Symbols(), all, xs, n - i, bytes);
        var x :- ReadSymbol();
        xs := xs + [x];
      }
      ReadingAll(Symbols(), all, xs, bytes);
      r := Some(xs);
    }

    method WriteRelocations(xs: seq<Relocation>) returns (ok: bool)
      modifies this
      ensures Put(List(Relocations()), xs, old(bytes), bytes, ok)
    {
      hide Written, Codecs.WriteSize, WriteAll, Relocations;
      ghost var was := bytes;
      ok := WriteSize(|xs|);
      if !ok { return; }
      WrittenNone(Relocations(), xs, was);
      for i := 0 to |xs|
        invariant Written(Relocations(), xs, i, was, bytes)
      {
        ghost var now := bytes;
        ok := WriteRelocation(xs[i]);
        if !ok { return; }
        WrittenMore(Relocations(), xs, i, was, now);
      }
      WrittenAll(Relocations(), xs, was, bytes);
      ok := true;
    }

    method ReadRelocations() returns (r: Option<seq<Relocation>>)
      modifies this
      ensures Got(List(Relocations()), old(bytes), r, bytes)
    {
      hide Reading, ReadAll, Codecs.ReadSize, Relocations;
      var n :- ReadSize();
      var xs: seq<Relocation> := [];
      ghost var all := ReadAll(Relocations(), n, bytes);
      ReadingNone(Relocations(), n, bytes);
      for i := 0 to n
        invariant Reading(Relocations(), all, xs, n - i, bytes)
      {
        ReadingMore(Relocations(), all, xs, n - i, bytes);
        var x :- ReadRelocation();
        xs := xs + [x];
      }
      ReadingAll(Relocations(), all, xs, bytes);
      r := Some(xs);
    }

    method WriteVarList(xs: seq<Var>) returns (ok: bool)
      modifies this
      ensures Put(List(Vars()), xs, old(bytes), bytes, ok)
    {
      hide Written, Codecs.WriteSize, WriteAll, Vars;
      ghost var was := bytes;
      ok := WriteSize(|xs|);
      if !ok { return; }
      WrittenNone(Vars(), xs, was);
      for i := 0 to |xs|
        invariant Written(Vars(), xs, i, was, bytes)
      {
        ghost var now := bytes;
        ok := WriteVar(xs[i]);
        if !ok { return; }
        WrittenMore(Vars(), xs, i, was, now);
      }
      WrittenAll(Vars(), xs, was, bytes);
      ok := true;
    }

    method ReadVarList() returns (r: Option<seq<Var>>)
      modifies this
      ensures Got(List(Vars()), old(bytes), r, bytes)
    {
      hide Reading, ReadAll, Codecs.ReadSize, Vars;
      var n :- ReadSize();
      var xs: seq<Var> := [];
      ghost var all := ReadAll(Vars(), n, bytes);
      ReadingNone(Vars(), n, bytes);
      for i := 0 to n
        invariant Reading(Vars(), all, xs, n - i, bytes)
      {
        ReadingMore(Vars(), all, xs, n - i, bytes);
        var x :- ReadVar();
        xs := xs + [x];
      }
      ReadingAll(Vars(), all, xs, bytes);
      r := Some(xs);
    }

    method WriteFields(xs: seq<FieldShape>) returns (ok: bool)
      modifies this
      ensures Put(List(Fields()), xs, old(bytes), bytes, ok)
    {
      hide Written, Codecs.WriteSize, WriteAll, Fields;
      ghost var was := bytes;
      ok := WriteSize(|xs|);
      if !ok { return; }
      WrittenNone(Fields(), xs, was);
      for i := 0 to |xs|
        invariant Written(Fields(), xs, i, was, bytes)
      {
        ghost var now := bytes;
        ok := WriteField(xs[i]);
        if !ok { return; }
        WrittenMore(Fields(), xs, i, was, now);
      }
      WrittenAll(Fields(), xs, was, bytes);
      ok := true;
    }

    method ReadFields() returns (r: Option<seq<FieldShape>>)
      modifies this
      ensures Got(List(Fields()), old(bytes), r, bytes)
    {
      hide Reading, ReadAll, Codecs.ReadSize, Fields;
      var n :- ReadSize();
      var xs: seq<FieldShape> := [];
      ghost var all := ReadAll(Fields(), n, bytes);
      ReadingNone(Fields(), n, bytes);
      for i := 0 to n
        invariant Reading(Fields(), all, xs, n - i, bytes)
      {
        ReadingMore(Fields(), all, xs, n - i, bytes);
        var x :- ReadField();
        xs := xs + [x];
      }
      ReadingAll(Fields(), all, xs, bytes);
      r := Some(xs);
    }

    method WriteInterfaceMethods(xs: seq<InterfaceMethod>) returns (ok: bool)
      modifies this
      ensures Put(List(InterfaceMethods()), xs, old(bytes), bytes, ok)
    {
      hide Written, Codecs.WriteSize, WriteAll, InterfaceMethods;
      ghost var was := bytes;
      ok := WriteSize(|xs|);
      if !ok { return; }
      WrittenNone(InterfaceMethods(), xs, was);
      for i := 0 to |xs|
        invariant Written(InterfaceMethods(), xs, i, was, bytes)
      {
        ghost var now := bytes;
        ok := WriteInterfaceMethod(xs[i]);
        if !ok { return; }
        WrittenMore(InterfaceMethods(), xs, i, was, now);
      }
      WrittenAll(InterfaceMethods(), xs, was, bytes);
      ok := true;
    }

    method ReadInterfaceMethods() returns (r: Option<seq<InterfaceMethod>>)
      modifies this
      ensures Got(List(InterfaceMethods()), old(bytes), r, bytes)
    {
      hide Reading, ReadAll, Codecs.ReadSize, InterfaceMethods;
      var n :- ReadSize();
      var xs: seq<InterfaceMethod> := [];
      ghost var all := ReadAll(InterfaceMethods(), n, bytes);
      ReadingNone(InterfaceMethods(), n, bytes);
      for i := 0 to n
        invariant Reading(InterfaceMethods(), all, xs, n - i, bytes)
      {
        ReadingMore(InterfaceMethods(), all, xs, n - i, bytes);
        var x :- ReadInterfaceMethod();
        xs := xs + [x];
      }
      ReadingAll(InterfaceMethods(), all, xs, bytes);
      r := Some(xs);
    }

    method WriteCases(xs: seq<ValuesCase>) returns (ok: bool)
      modifies this
      ensures Put(List(Cases()), xs, old(bytes), bytes, ok)
    {
      hide Written, Codecs.WriteSize, WriteAll, Cases;
      ghost var was := bytes;
      ok := WriteSize(|xs|);
      if !ok { return; }
      WrittenNone(Cases(), xs, was);
      for i := 0 to |xs|
        invariant Written(Cases(), xs, i, was, bytes)
      {
        ghost var now := bytes;
        ok := WriteCase(xs[i]);
        if !ok { return; }
        WrittenMore(Cases(), xs, i, was, now);
      }
      WrittenAll(Cases(), xs, was, bytes);
      ok := true;
    }

    method ReadCases() returns (r: Option<seq<ValuesCase>>)
      modifies this
      ensures Got(List(Cases()), old(bytes), r, bytes)
    {
      hide Reading, ReadAll, Codecs.ReadSize, Cases;
      var n :- ReadSize();
      var xs: seq<ValuesCase> := [];
      ghost var all := ReadAll(Cases(), n, bytes);
      ReadingNone(Cases(), n, bytes);
      for i := 0 to n
        invariant Reading(Cases(), all, xs, n - i, bytes)
      {
        ReadingMore(Cases(), all, xs, n - i, bytes);
        var x :- ReadCase();
        xs := xs + [x];
      }
      ReadingAll(Cases(), all, xs, bytes);
      r := Some(xs);
    }

    // ----- records -----

    method WriteDataReloc(r: DataReloc) returns (ok: bool)
      modifies this
      ensures Put(DataRelocs(), r, old(bytes), bytes, ok)
    {
      hide DataRelocs, String;
      ghost var was := bytes;
      DataRelocLayout(r);
      WriteUint32(r.offset);
      ghost var done := Codecs.Uint32().write(r.offset);
      ok := WriteString(r.symbol);
      if !ok { return; }
      done := Then(was, done, String().write(r.symbol));
      WriteInt64(r.addend);
      ok := true;
      done := Then(was, done, Int64().write(r.addend));
    }

    method ReadDataReloc() returns (r: Option<DataReloc>)
      modifies this
      ensures Got(DataRelocs(), old(bytes), r, bytes)
    {
      hide String;
      var offset :- ReadUint32();
      var symbol :- ReadString();
      var addend :- ReadInt64();
      r := Some(DataReloc(offset, symbol, addend));
    }

    method WriteSymbol(y: Symbol) returns (ok: bool)
      modifies this
      ensures Put(Symbols(), y, old(bytes), bytes, ok)
    {
      hide Symbols, String;
      ghost var was := bytes;
      SymbolLayout(y);
      ok := WriteString(y.name);
      if !ok { return; }
      ghost var done := String().write(y.name);
      WriteUint32(y.offset);
      ok := true;
      done := Then(was, done, Codecs.Uint32().write(y.offset));
    }

    method ReadSymbol() returns (r: Option<Symbol>)
      modifies this
      ensures Got(Symbols(), old(bytes), r, bytes)
    {
      hide String;
      var name :- ReadString();
      var offset :- ReadUint32();
      r := Some(Symbol(name, offset));
    }

    method WriteRelocation(r: Relocation) returns (ok: bool)
      modifies this
      ensures Put(Relocations(), r, old(bytes), bytes, ok)
    {
      hide Relocations, String;
      ghost var was := bytes;
      RelocationLayout(r);
      WriteUint32(r.offset);
      ghost var done := Codecs.Uint32().write(r.offset);
      ok := WriteString(r.symbol);
      if !ok { return; }
      done := Then(was, done, String().write(r.symbol));
      WriteInt32(r.addend);
      ok := true;
      done := Then(was, done, Codecs.Int32().write(r.addend));
    }

    method ReadRelocation() returns (r: Option<Relocation>)
      modifies this
      ensures Got(Relocations(), old(bytes), r, bytes)
    {
      hide String;
      var offset :- ReadUint32();
      var symbol :- ReadString();
      var addend :- ReadInt32();
      r := Some(Relocation(offset, symbol, addend));
    }

    method WriteTypeDescr(t: TypeDescr) returns (ok: bool)
      modifies this
      ensures Put(TypeDescrs(), t, old(bytes), bytes, ok)
    {
      hide TypeDescrs, String, List;
      ghost var was := bytes;
      TypeDescrLayout(t);
      ok := WriteString(t.name);
      if !ok { return; }
      ghost var done := String().write(t.name);
      ok := WriteStrings(t.properties);
      if !ok { return; }
      done := Then(was, done, List(String()).write(t.properties));
      ok := WriteString(t.description);
      if ok { done := Then(was, done, String().write(t.description)); }
    }

    method ReadTypeDescr() returns (r: Option<TypeDescr>)
      modifies this
      ensures Got(TypeDescrs(), old(bytes), r, bytes)
    {
      hide String, List;
      var name :- ReadString();
      var properties :- ReadStrings();
      var description :- ReadString();
      r := Some(TypeDescr(name, properties, description));
    }

    method WriteVar(v: Var) returns (ok: bool)
      modifies this
      ensures Put(Vars(), v, old(bytes), bytes, ok)
    {
      hide Vars, String, List, DataRelocs;
      ghost var was := bytes;
      VarLayout(v);
      ok := WriteString(v.name);
      if !ok { return; }
      ghost var done := String().write(v.name);
      WriteBool(v.isPub);
      done := Then(was, done, Bool().write(v.isPub));
      ok := WriteString(v.vtype);
      if !ok { return; }
      done := Then(was, done, String().write(v.vtype));
      ok := WriteString(v.val);
      if !ok { return; }
      done := Then(was, done, String().write(v.val));
      ok := WriteDataRelocs(v.relocs);
      if !ok { return; }
      done := Then(was, done, List(DataRelocs()).write(v.relocs));
      ok := WriteString(v.kind);
      if ok { done := Then(was, done, String().write(v.kind)); }
    }

    method ReadVar() returns (r: Option<Var>)
      modifies this
      ensures Got(Vars(), old(bytes), r, bytes)
    {
      hide String, List, DataRelocs;
      var name :- ReadString();
      var isPub :- ReadBool();
      var vtype :- ReadString();
      var val :- ReadString();
      var relocs :- ReadDataRelocs();
      var kind :- ReadString();
      r := Some(Var(name, isPub, vtype, val, relocs, kind));
    }

    method WriteField(f: FieldShape) returns (ok: bool)
      modifies this
      ensures Put(Fields(), f, old(bytes), bytes, ok)
    {
      hide Fields, String;
      ghost var was := bytes;
      FieldLayout(f);
      ok := WriteString(f.name);
      if !ok { return; }
      ghost var done := String().write(f.name);
      ok := WriteString(f.ftype);
      if ok { done := Then(was, done, String().write(f.ftype)); }
    }

    method ReadField() returns (r: Option<FieldShape>)
      modifies this
      ensures Got(Fields(), old(bytes), r, bytes)
    {
      hide String;
      var name :- ReadString();
      var ftype :- ReadString();
      r := Some(FieldShape(name, ftype));
    }

    method WriteStruct(s: StructShape) returns (ok: bool)
      modifies this
      ensures Put(Structs(), s, old(bytes), bytes, ok)
    {
      hide Structs, String, List, Fields;
      ghost var was := bytes;
      StructLayout(s);
      ok := WriteString(s.name);
      if !ok { return; }
      ghost var done := String().write(s.name);
      WriteBool(s.isPub);
      done := Then(was, done, Bool().write(s.isPub));
      ok := WriteFields(s.fields);
      if !ok { return; }
      done := Then(was, done, List(Fields()).write(s.fields));
      ok := WriteStrings(s.methods);
      if ok { done := Then(was, done, List(String()).write(s.methods)); }
    }

    method ReadStruct() returns (r: Option<StructShape>)
      modifies this
      ensures Got(Structs(), old(bytes), r, bytes)
    {
      hide String, List, Fields;
      var name :- ReadString();
      var isPub :- ReadBool();
      var fields :- ReadFields();
      var methods :- ReadStrings();
      r := Some(StructShape(name, isPub, fields, methods));
    }

    method WriteTypeAlias(a: TypeAlias) returns (ok: bool)
      modifies this
      ensures Put(TypeAliases(), a, old(bytes), bytes, ok)
    {
      hide TypeAliases, String, List;
      ghost var was := bytes;
      TypeAliasLayout(a);
      ok := WriteString(a.name);
      if !ok { return; }
      ghost var done := String().write(a.name);
      WriteBool(a.isPub);
      done := Then(was, done, Bool().write(a.isPub));
      ok := WriteString(a.underlying);
      if !ok { return; }
      done := Then(was, done, String().write(a.underlying));
      ok := WriteStrings(a.methods);
      if ok { done := Then(was, done, List(String()).write(a.methods)); }
    }

    method ReadTypeAlias() returns (r: Option<TypeAlias>)
      modifies this
      ensures Got(TypeAliases(), old(bytes), r, bytes)
    {
      hide String, List;
      var name :- ReadString();
      var isPub :- ReadBool();
      var underlying :- ReadString();
      var methods :- ReadStrings();
      r := Some(TypeAlias(name, isPub, underlying, methods));
    }

    method WriteInterfaceMethod(m: InterfaceMethod) returns (ok: bool)
      modifies this
      ensures Put(InterfaceMethods(), m, old(bytes), bytes, ok)
    {
      hide InterfaceMethods, String, List, Fields, Size;
      ghost var was := bytes;
      InterfaceMethodLayout(m);
      ok := WriteString(m.name);
      if !ok { return; }
      ghost var done := String().write(m.name);
      ok := WriteFields(m.params);
      if !ok { return; }
      done := Then(was, done, List(Fields()).write(m.params));
      ok := WriteString(m.result);
      if !ok { return; }
      done := Then(was, done, String().write(m.result));
      ok := WriteSlots(m.returnAliases);
      if ok { done := Then(was, done, List(List(Size())).write(m.returnAliases)); }
    }

    method ReadInterfaceMethod() returns (r: Option<InterfaceMethod>)
      modifies this
      ensures Got(InterfaceMethods(), old(bytes), r, bytes)
    {
      hide String, List, Fields, Size;
      var name :- ReadString();
      var params :- ReadFields();
      var result :- ReadString();
      var returnAliases :- ReadSlots();
      r := Some(InterfaceMethod(name, params, result, returnAliases));
    }

    method WriteInterface(i: Interface) returns (ok: bool)
      modifies this
      ensures Put(Interfaces(), i, old(bytes), bytes, ok)
    {
      hide Interfaces, String, List, InterfaceMethods;
      ghost var was := bytes;
      InterfaceLayout(i);
      ok := WriteString(i.name);
      if !ok { return; }
      ghost var done := String().write(i.name);
      WriteBool(i.isPub);
      done := Then(was, done, Bool().write(i.isPub));
      ok := WriteInterfaceMethods(i.methods);
      if ok { done := Then(was, done, List(InterfaceMethods()).write(i.methods)); }
    }

    method ReadInterface() returns (r: Option<Interface>)
      modifies this
      ensures Got(Interfaces(), old(bytes), r, bytes)
    {
      hide String, List, InterfaceMethods;
      var name :- ReadString();
      var isPub :- ReadBool();
      var methods :- ReadInterfaceMethods();
      r := Some(Interface(name, isPub, methods));
    }

    method WriteCase(c: ValuesCase) returns (ok: bool)
      modifies this
      ensures Put(Cases(), c, old(bytes), bytes, ok)
    {
      hide Cases, String;
      ghost var was := bytes;
      CaseLayout(c);
      ok := WriteString(c.name);
      if !ok { return; }
      ghost var done := String().write(c.name);
      WriteInt64(c.tag);
      ok := true;
      done := Then(was, done, Int64().write(c.tag));
    }

    method ReadCase() returns (r: Option<ValuesCase>)
      modifies this
      ensures Got(Cases(), old(bytes), r, bytes)
    {
      hide String;
      var name :- ReadString();
      var tag :- ReadInt64();
      r := Some(ValuesCase(name, tag));
    }

    method WriteValues(v: Values) returns (ok: bool)
      modifies this
      ensures Put(ValuesTypes(), v, old(bytes), bytes, ok)
    {
      hide ValuesTypes, String, List, Cases;
      ghost var was := bytes;
      ValuesLayout(v);
      ok := WriteString(v.name);
      if !ok { return; }
      ghost var done := String().write(v.name);
      WriteBool(v.isPub);
      done := Then(was, done, Bool().write(v.isPub));
      ok := WriteString(v.tagType);
      if !ok { return; }
      done := Then(was, done, String().write(v.tagType));
      ok := WriteCases(v.cases);
      if !ok { return; }
      done := Then(was, done, List(Cases()).write(v.cases));
      ok := WriteStrings(v.projections);
      if !ok { return; }
      done := Then(was, done, List(String()).write(v.projections));
      ok := WriteStrings(v.methods);
      if ok { done := Then(was, done, List(String()).write(v.methods)); }
    }

    method ReadValues() returns (r: Option<Values>)
      modifies this
      ensures Got(ValuesTypes(), old(bytes), r, bytes)
    {
      hide String, List, Cases;
      var name :- ReadString();
      var isPub :- ReadBool();
      var tagType :- ReadString();
      var cases :- ReadCases();
      var projections :- ReadStrings();
      var methods :- ReadStrings();
      r := Some(Values(name, isPub, tagType, cases, projections, methods));
    }

    method WriteFunction(f: Function) returns (ok: bool)
      modifies this
      ensures Put(Functions(), f, old(bytes), bytes, ok)
    {
      hide Functions, String, Size, List, Vars, Symbols, Relocations;
      ghost var was := bytes;
      FunctionLayout(f);
      ok := WriteString(f.name);
      if !ok { return; }
      ghost var done := String().write(f.name);
      WriteBool(f.isPub);
      done := Then(was, done, Bool().write(f.isPub));
      ok := WriteString(f.ftype);
      if !ok { return; }
      done := Then(was, done, String().write(f.ftype));
      ok := WriteString(f.srcFile);
      if !ok { return; }
      done := Then(was, done, String().write(f.srcFile));
      ok := WriteIndex(f.srcLine);
      if !ok { return; }
      done := Then(was, done, Size().write(f.srcLine));
      ok := WriteVarList(f.args);
      if !ok { return; }
      done := Then(was, done, List(Vars()).write(f.args));
      ok := WriteSymbols(f.symbols);
      if !ok { return; }
      done := Then(was, done, List(Symbols()).write(f.symbols));
      ok := WriteRelocations(f.relocations);
      if !ok { return; }
      done := Then(was, done, List(Relocations()).write(f.relocations));
      ok := WriteString(f.body);
      if !ok { return; }
      done := Then(was, done, String().write(f.body));
      ok := WriteSlots(f.returnAliases);
      if ok { done := Then(was, done, List(List(Size())).write(f.returnAliases)); }
    }

    method ReadFunctionHead() returns (r: Option<FunctionHead>)
      modifies this
      ensures Got(FunctionHeads(), old(bytes), r, bytes)
    {
      hide String, Size;
      var name :- ReadString();
      var isPub :- ReadBool();
      var ftype :- ReadString();
      var srcFile :- ReadString();
      var srcLine :- ReadIndex();
      r := Some(((((name, isPub), ftype), srcFile), srcLine));
    }

    method ReadFunction() returns (r: Option<Function>)
      modifies this
      ensures Got(Functions(), old(bytes), r, bytes)
    {
      hide String, List, Vars, Symbols, Relocations, Size, FunctionHeads;
      var h :- ReadFunctionHead();
      var args :- ReadVarList();
      var symbols :- ReadSymbols();
      var relocations :- ReadRelocations();
      var body :- ReadString();
      var returnAliases :- ReadSlots();
      r := Some(Function(h.0.0.0.0, h.0.0.0.1, h.0.0.1, h.0.1, h.1, args, symbols, relocations, body, returnAliases));
    }

    // ----- maps -----

    method WriteTypeDescrs(m: map<Name, TypeDescr>) returns (ok: bool, ghost order: seq<Name>)
      modifies this
      ensures PutMap(TypeDescrs(), m, order, old(bytes), bytes, ok)
    {
      hide Written, Codecs.WriteSize, WriteAll, Listed, Fill, TypeDescrs;
      ghost var was := bytes;
      var names := Keys(m);
      order := names;
      OrderSize(order, m);
      ghost var xs := Listed(m, order);
      ok := WriteSize(|m|);
      if !ok { return; }
      WrittenNone(TypeDescrs(), xs, was);
      for i := 0 to |names|
        invariant Written(TypeDescrs(), xs, i, was, bytes)
      {
        ghost var now := bytes;
        assert names[i] in names;
        ok := WriteTypeDescr(m[names[i]]);
        if !ok { return; }
        WrittenMore(TypeDescrs(), xs, i, was, now);
      }
      MapWritten(TypeDescrs(), m, order, was, bytes);
      ok := true;
    }

    method ReadTypeDescrs() returns (r: Option<map<Name, TypeDescr>>)
      modifies this
      ensures GotMap(TypeDescrs(), TypeName, old(bytes), r, bytes)
    {
      hide Reading, ReadAll, Codecs.ReadSize, Fill, TypeDescrs;
      var n :- ReadSize();
      var m: map<Name, TypeDescr> := map[];
      ghost var all, xs: seq<TypeDescr> := ReadAll(TypeDescrs(), n, bytes), [];
      ReadingNone(TypeDescrs(), n, bytes);
      FillNone<TypeDescr>(TypeName);
      for i := 0 to n
        invariant Reading(TypeDescrs(), all, xs, n - i, bytes) && m == Fill(xs, TypeName)
      {
        ReadingMore(TypeDescrs(), all, xs, n - i, bytes);
        var x :- ReadTypeDescr();
        m := m[x.name := x];
        FillSnoc(xs, x, TypeName);
        xs := xs + [x];
      }
      ReadingAll(TypeDescrs(), all, xs, bytes);
      r := Some(m);
    }

    method WriteVars(m: map<Name, Var>) returns (ok: bool, ghost order: seq<Name>)
      modifies this
      ensures PutMap(Vars(), m, order, old(bytes), bytes, ok)
    {
      hide Written, Codecs.WriteSize, WriteAll, Listed, Fill, Vars;
      ghost var was := bytes;
      var names := Keys(m);
      order := names;
      OrderSize(order, m);
      ghost var xs := Listed(m, order);
      ok := WriteSize(|m|);
      if !ok { return; }
      WrittenNone(Vars(), xs, was);
      for i := 0 to |names|
        invariant Written(Vars(), xs, i, was, bytes)
      {
        ghost var now := bytes;
        assert names[i] in names;
        ok := WriteVar(m[names[i]]);
        if !ok { return; }
        WrittenMore(Vars(), xs, i, was, now);
      }
      MapWritten(Vars(), m, order, was, bytes);
      ok := true;
    }

    method ReadVars() returns (r: Option<map<Name, Var>>)
      modifies this
      ensures GotMap(Vars(), VarName, old(bytes), r, bytes)
    {
      hide Reading, ReadAll, Codecs.ReadSize, Fill, Vars;
      var n :- ReadSize();
      var m: map<Name, Var> := map[];
      ghost var all, xs: seq<Var> := ReadAll(Vars(), n, bytes), [];
      ReadingNone(Vars(), n, bytes);
      FillNone<Var>(VarName);
      for i := 0 to n
        invariant Reading(Vars(), all, xs, n - i, bytes) && m == Fill(xs, VarName)
      {
        ReadingMore(Vars(), all, xs, n - i, bytes);
        var x :- ReadVar();
        m := m[x.name := x];
        FillSnoc(xs, x, VarName);
        xs := xs + [x];
      }
      ReadingAll(Vars(), all, xs, bytes);
      r := Some(m);
    }

    method WriteFunctions(m: map<Name, Function>) returns (ok: bool, ghost order: seq<Name>)
      modifies this
      ensures PutMap(Functions(), m, order, old(bytes), bytes, ok)
    {
      hide Written, Codecs.WriteSize, WriteAll, Listed, Fill, Functions;
      ghost var was := bytes;
      var names := Keys(m);
      order := names;
      OrderSize(order, m);
      ghost var xs := Listed(m, order);
      ok := WriteSize(|m|);
      if !ok { return; }
      WrittenNone(Functions(), xs, was);
      for i := 0 to |names|
        invariant Written(Functions(), xs, i, was, bytes)
      {
        ghost var now := bytes;
        assert names[i] in names;
        ok := WriteFunction(m[names[i]]);
        if !ok { return; }
        WrittenMore(Functions(), xs, i, was, now);
      }
      MapWritten(Functions(), m, order, was, bytes);
      ok := true;
    }

    method ReadFunctions() returns (r: Option<map<Name, Function>>)
      modifies this
      ensures GotMap(Functions(), FunctionName, old(bytes), r, bytes)
    {
      hide Reading, ReadAll, Codecs.ReadSize, Fill, Functions;
      var n :- ReadSize();
      var m: map<Name, Function> := map[];
      ghost var all, xs: seq<Function> := ReadAll(Functions(), n, bytes), [];
      ReadingNone(Functions(), n, bytes);
      FillNone<Function>(FunctionName);
      for i := 0 to n
        invariant Reading(Functions(), all, xs, n - i, bytes) && m == Fill(xs, FunctionName)
      {
        ReadingMore(Functions(), all, xs, n - i, bytes);
        var x :- ReadFunction();
        m := m[x.name := x];
        FillSnoc(xs, x, FunctionName);
        xs := xs + [x];
      }
      ReadingAll(Functions(), all, xs, bytes);
      r := Some(m);
    }

    method WriteStructs(m: map<Name, StructShape>) returns (ok: bool, ghost order: seq<Name>)
      modifies this
      ensures PutMap(Structs(), m, order, old(bytes), bytes, ok) && Sorted(order)
    {
      hide Written, Codecs.WriteSize, WriteAll, Listed, Fill, Structs;
      ghost var was := bytes;
      var keys := Keys(m);
      var names := Sort(keys);
      SortedEnumerates(keys, names, m);
      order := names;
      OrderSize(order, m);
      ghost var xs := Listed(m, order);
      ok := WriteSize(|m|);
      if !ok { return; }
      WrittenNone(Structs(), xs, was);
      for i := 0 to |names|
        invariant Written(Structs(), xs, i, was, bytes)
      {
        ghost var now := bytes;
        assert names[i] in names;
        ok := WriteStruct(m[names[i]]);
        if !ok { return; }
        WrittenMore(Structs(), xs, i, was, now);
      }
      MapWritten(Structs(), m, order, was, bytes);
      ok := true;
    }

    method ReadStructs() returns (r: Option<map<Name, StructShape>>)
      modifies this
      ensures GotMap(Structs(), StructName, old(bytes), r, bytes)
    {
      hide Reading, ReadAll, Codecs.ReadSize, Fill, Structs;
      var n :- ReadSize();
      var m: map<Name, StructShape> := map[];
      ghost var all, xs: seq<StructShape> := ReadAll(Structs(), n, bytes), [];
      ReadingNone(Structs(), n, bytes);
      FillNone<StructShape>(StructName);
      for i := 0 to n
        invariant Reading(Structs(), all, xs, n - i, bytes) && m == Fill(xs, StructName)
      {
        ReadingMore(Structs(), all, xs, n - i, bytes);
        var x :- ReadStruct();
        m := m[x.name := x];
        FillSnoc(xs, x, StructName);
        xs := xs + [x];
      }
      ReadingAll(Structs(), all, xs, bytes);
      r := Some(m);
    }

    method WriteTypeAliases(m: map<Name, TypeAlias>) returns (ok: bool, ghost order: seq<Name>)
      modifies this
      ensures PutMap(TypeAliases(), m, order, old(bytes), bytes, ok) && Sorted(order)
    {
      hide Written, Codecs.WriteSize, WriteAll, Listed, Fill, TypeAliases;
      ghost var was := bytes;
      var keys := Keys(m);
      var names := Sort(keys);
      SortedEnumerates(keys, names, m);
      order := names;
      OrderSize(order, m);
      ghost var xs := Listed(m, order);
      ok := WriteSize(|m|);
      if !ok { return; }
      WrittenNone(TypeAliases(), xs, was);
      for i := 0 to |names|
        invariant Written(TypeAliases(), xs, i, was, bytes)
      {
        ghost var now := bytes;
        assert names[i] in names;
        ok := WriteTypeAlias(m[names[i]]);
        if !ok { return; }
        WrittenMore(TypeAliases(), xs, i, was, now);
      }
      MapWritten(TypeAliases(), m, order, was, bytes);
      ok := true;
    }

    method ReadTypeAliases() returns (r: Option<map<Name, TypeAlias>>)
      modifies this
      ensures GotMap(TypeAliases(), AliasName, old(bytes), r, bytes)
    {
      hide Reading, ReadAll, Codecs.ReadSize, Fill, TypeAliases;
      var n :- ReadSize();
      var m: map<Name, TypeAlias> := map[];
      ghost var all, xs: seq<TypeAlias> := ReadAll(TypeAliases(), n, bytes), [];
      ReadingNone(TypeAliases(), n, bytes);
      FillNone<TypeAlias>(AliasName);
      for i := 0 to n
        invariant Reading(TypeAliases(), all, xs, n - i, bytes) && m == Fill(xs, AliasName)
      {
        ReadingMore(TypeAliases(), all, xs, n - i, bytes);
        var x :- ReadTypeAlias();
        m := m[x.name := x];
        FillSnoc(xs, x, AliasName);
        xs := xs + [x];
      }
      ReadingAll(TypeAliases(), all, xs, bytes);
      r := Some(m);
    }

    method WriteInterfaces(m: map<Name, Interface>) returns (ok: bool, ghost order: seq<Name>)
      modifies this
      ensures PutMap(Interfaces(), m, order, old(bytes), bytes, ok) && Sorted(order)
    {
      hide Written, Codecs.WriteSize, WriteAll, Listed, Fill, Interfaces;
      ghost var was := bytes;
      var keys := Keys(m);
      var names := Sort(keys);
      SortedEnumerates(keys, names, m);
      order := names;
      OrderSize(order, m);
      ghost var xs := Listed(m, order);
      ok := WriteSize(|m|);
      if !ok { return; }
      WrittenNone(Interfaces(), xs, was);
      for i := 0 to |names|
        invariant Written(Interfaces(), xs, i, was, bytes)
      {
        ghost var now := bytes;
        assert names[i] in names;
        ok := WriteInterface(m[names[i]]);
        if !ok { return; }
        WrittenMore(Interfaces(), xs, i, was, now);
      }
      MapWritten(Interfaces(), m, order, was, bytes);
      ok := true;
    }

    method ReadInterfaces() returns (r: Option<map<Name, Interface>>)
      modifies this
      ensures GotMap(Interfaces(), InterfaceName, old(bytes), r, bytes)
    {
      hide Reading, ReadAll, Codecs.ReadSize, Fill, Interfaces;
      var n :- ReadSize();
      var m: map<Name, Interface> := map[];
      ghost var all, xs: seq<Interface> := ReadAll(Interfaces(), n, bytes), [];
      ReadingNone(Interfaces(), n, bytes);
      FillNone<Interface>(InterfaceName);
      for i := 0 to n
        invariant Reading(Interfaces(), all, xs, n - i, bytes) && m == Fill(xs, InterfaceName)
      {
        ReadingMore(Interfaces(), all, xs, n - i, bytes);
        var x :- ReadInterface();
        m := m[x.name := x];
        FillSnoc(xs, x, InterfaceName);
        xs := xs + [x];
      }
      ReadingAll(Interfaces(), all, xs, bytes);
      r := Some(m);
    }

    method WriteValuesTypes(m: map<Name, Values>) returns (ok: bool, ghost order: seq<Name>)
      modifies this
      ensures PutMap(ValuesTypes(), m, order, old(bytes), bytes, ok) && Sorted(order)
    {
      hide Written, Codecs.WriteSize, WriteAll, Listed, Fill, ValuesTypes;
      ghost var was := bytes;
      var keys := Keys(m);
      var names := Sort(keys);
      SortedEnumerates(keys, names, m);
      order := names;
      OrderSize(order, m);
      ghost var xs := Listed(m, order);
      ok := WriteSize(|m|);
      if !ok { return; }
      WrittenNone(ValuesTypes(), xs, was);
      for i := 0 to |names|
        invariant Written(ValuesTypes(), xs, i, was, bytes)
      {
        ghost var now := bytes;
        assert names[i] in names;
        ok := WriteValues(m[names[i]]);
        if !ok { return; }
        WrittenMore(ValuesTypes(), xs, i, was, now);
      }
      MapWritten(ValuesTypes(), m, order, was, bytes);
      ok := true;
    }

    method ReadValuesTypes() returns (r: Option<map<Name, Values>>)
      modifies this
      ensures GotMap(ValuesTypes(), ValuesName, old(bytes), r, bytes)
    {
      hide Reading, ReadAll, Codecs.ReadSize, Fill, ValuesTypes;
      var n :- ReadSize();
      var m: map<Name, Values> := map[];
      ghost var all, xs: seq<Values> := ReadAll(ValuesTypes(), n, bytes), [];
      ReadingNone(ValuesTypes(), n, bytes);
      FillNone<Values>(ValuesName);
      for i := 0 to n
        invariant Reading(ValuesTypes(), all, xs, n - i, bytes) && m == Fill(xs, ValuesName)
      {
        ReadingMore(ValuesTypes(), all, xs, n - i, bytes);
        var x :- ReadValues();
        m := m[x.name := x];
        FillSnoc(xs, x, ValuesName);
        xs := xs + [x];
      }
      ReadingAll(ValuesTypes(), all, xs, bytes);
      r := Some(m);
    }

    // ----- files -----

    /** Writes a file: its maps as they come, those that importers read by name. */
    method WriteOFile(o: OFile) returns (ok: bool, ghost ord: Orders)
      modifies this
      ensures ok <==> Writable(o)
      ensures ok ==> AnyOrders(o, ord) && SortedOrders(o, ord)
      ensures ok ==> bytes == old(bytes) + LinkBytes(o, ord) + ImportBytes(o, ord)
    {
      hide LinkWritable, ImportWritable, Enumerates, Sorted, MapBytes;
      hide TypeDescrs, Vars, Functions, Structs, TypeAliases, Interfaces, ValuesTypes;
      ghost var any: Orders;
      ok, any := WriteLinkPart(o);
      ord := any;
      if !ok { return; }
      ghost var sorted: Orders;
      ok, sorted := WriteImportPart(o);
      ord := Orders(any.types, any.data, any.vars, any.funcs, sorted.structs, sorted.aliases, sorted.interfaces,
                    sorted.values);
    }

    method WriteLinkPart(o: OFile) returns (ok: bool, ghost ord: Orders)
      modifies this
      ensures ok <==> LinkWritable(o)
      ensures ok ==> AnyOrders(o, ord) && bytes == old(bytes) + LinkBytes(o, ord)
    {
      hide TypeDescrs, Vars, Functions, Codecs.WriteString, MapBytes, ValidMap, Enumerates;
      ghost var was := bytes;
      ord := Orders([], [], [], [], [], [], [], []);
      ok := WriteString(o.pkgname);
      if !ok { return; }
      ok := WriteString(o.exeFormat);
      if !ok { return; }
      ghost var types, data, vars, funcs;
      ok, types := WriteTypeDescrs(o.types);
      if !ok { return; }
      ok, data := WriteVars(o.data);
      if !ok { return; }
      ok, vars := WriteVars(o.vars);
      if !ok { return; }
      ok, funcs := WriteFunctions(o.funcs);
      ord := Orders(types, data, vars, funcs, [], [], [], []);
      if ok { assert bytes == was + LinkBytes(o, ord); }
    }

    method WriteImportPart(o: OFile) returns (ok: bool, ghost ord: Orders)
      modifies this
      ensures ok <==> ImportWritable(o)
      ensures ok ==> SortedOrders(o, ord) && bytes == old(bytes) + ImportBytes(o, ord)
    {
      hide Structs, TypeAliases, Interfaces, ValuesTypes, MapBytes, ValidMap, Enumerates, Sorted;
      ghost var was := bytes;
      ord := Orders([], [], [], [], [], [], [], []);
      ghost var structs, aliases, interfaces, values;
      ok, structs := WriteStructs(o.structs);
      if !ok { return; }
      ok, aliases := WriteTypeAliases(o.aliases);
      if !ok { return; }
      ok, interfaces := WriteInterfaces(o.interfaces);
      if !ok { return; }
      ok, values := WriteValuesTypes(o.values);
      ord := Orders([], [], [], [], structs, aliases, interfaces, values);
      if ok { assert bytes == was + ImportBytes(o, ord); }
    }

    method ReadOFile() returns (r: Option<OFile>)
      modifies this
      ensures r.Some? == OFileFrom(old(bytes)).Some?
      ensures r.Some? ==> OFileFrom(old(bytes)) == Some((r.value, bytes))
    {
      hide TypeDescrs, Vars, Functions, Structs, TypeAliases, Interfaces, ValuesTypes, Codecs.ReadString, Codecs.ReadMap;
      var pkgname :- ReadString();
      var exeFormat :- ReadString();
      var types :- ReadTypeDescrs();
      var data :- ReadVars();
      var vars :- ReadVars();
      var funcs :- ReadFunctions();
      var structs :- ReadStructs();
      var aliases :- ReadTypeAliases();
      var interfaces :- ReadInterfaces();
      var values :- ReadValuesTypes();
      r := Some(OFile(pkgname, exeFormat, types, data, vars, funcs, structs, aliases, interfaces, values));
    }
  }
}
