/** Collecting the symbols of all object files under their qualified names, and
    linking them (linker.go, Link). */
module Objects {
  import opened Wrappers
  import opened ObjectFile
  import opened Linkage
  import Linker
  import Linking

  ghost predicate Qualified(v: Var, pkg: string, q: Var) {
    q.val == v.val && |q.relocs| == |v.relocs| &&
    forall i :: 0 <= i < |v.relocs| ==> q.relocs[i] == v.relocs[i].(symbol := QualifyTarget(pkg, v.relocs[i].symbol))
  }

  /** Qualifying again changes nothing. */
  lemma QualifyingTwice(pkg: string, symbol: string)
    ensures QualifyTarget(pkg, QualifyTarget(pkg, symbol)) == QualifyTarget(pkg, symbol)
  {
  }

  method QualifyDataRelocs(v: Var, pkg: string) returns (q: Var)
    ensures Qualified(v, pkg, q)
  {
    q := v;
    for i := 0 to |v.relocs|
      invariant q.val == v.val && |q.relocs| == |v.relocs| && q.relocs[i..] == v.relocs[i..]
      invariant forall j :: 0 <= j < i ==> q.relocs[j] == v.relocs[j].(symbol := QualifyTarget(pkg, v.relocs[j].symbol))
    {
      assert q.relocs[i] == q.relocs[i..][0] && v.relocs[i] == v.relocs[i..][0];
      assert q.relocs[i + 1..] == q.relocs[i..][1..] && v.relocs[i + 1..] == v.relocs[i..][1..];
      var s := q.relocs[i].symbol;
      if '.' !in s {
        q := q.(relocs := q.relocs[i := q.relocs[i].(symbol := Qualify(pkg, s))]);
      }
    }
  }

  /** The object file and the bare name that a qualified name comes from. */
  datatype Origin = Origin(i: nat, name: string)

  function NamesOf(o: OFile, k: Kind): set<string> {
    match k
    case Text => o.funcs.Keys
    case Data => o.vars.Keys
    case Bss => o.data.Keys
  }

  ghost predicate ComesFrom(os: seq<OFile>, k: Kind, s: Origin, q: string) {
    s.i < |os| && s.name in NamesOf(os[s.i], k) && Qualify(os[s.i].pkgname, s.name) == q
  }

  /** Names of the first objects, and of the next one those not left to do,
      are each defined once; `from` says where. */
  ghost predicate NamesMerged(os: seq<OFile>, k: Kind, i: nat, todo: set<string>, from: map<string, Origin>) {
    && (forall q :: q in from ==> ComesFrom(os, k, from[q], q) && Taken(i, todo, from[q]))
    && (forall s, q :: ComesFrom(os, k, s, q) && Taken(i, todo, s) ==> q in from && from[q] == s)
  }

  predicate Taken(i: nat, todo: set<string>, s: Origin) { s.i < i || (s.i == i && s.name !in todo) }

  ghost predicate FuncsMerged(os: seq<OFile>, from: map<string, Origin>, out: map<string, Function>) {
    && out.Keys == from.Keys
    && forall q :: q in from ==> ComesFrom(os, Text, from[q], q) && out[q] == os[from[q].i].funcs[from[q].name]
  }

  function VarsOf(o: OFile, k: Kind): map<string, Var>
    requires !k.Text?
  {
    if k.Data? then o.vars else o.data
  }

  ghost predicate VarsMerged(os: seq<OFile>, k: Kind, from: map<string, Origin>, out: map<string, Var>)
    requires !k.Text?
  {
    && out.Keys == from.Keys
    && forall q :: q in from ==>
         ComesFrom(os, k, from[q], q) && Qualified(VarsOf(os[from[q].i], k)[from[q].name], os[from[q].i].pkgname, out[q])
  }

  /** The program defines what some object file does, and as it does. */
  ghost predicate Merged(os: seq<OFile>, p: Program) {
    exists f, v, d ::
      && NamesMerged(os, Text, |os|, {}, f) && FuncsMerged(os, f, p.funcs)
      && NamesMerged(os, Data, |os|, {}, v) && VarsMerged(os, Data, v, p.vars)
      && NamesMerged(os, Bss, |os|, {}, d) && VarsMerged(os, Bss, d, p.data)
  }

  /** Two definitions of one name, or a function without a package. */
  ghost predicate Clash(os: seq<OFile>) {
    || (exists k, s, t, q :: s != t && ComesFrom(os, k, s, q) && ComesFrom(os, k, t, q))
    || exists s, q :: ComesFrom(os, Text, s, q) && os[s.i].pkgname == ""
  }

  lemma MergeNext(os: seq<OFile>, k: Kind, i: nat, todo: set<string>, from: map<string, Origin>, name: string)
    requires NamesMerged(os, k, i, todo, from) && i < |os| && name in todo && todo <= NamesOf(os[i], k)
    ensures var q := Qualify(os[i].pkgname, name);
            if q in from then Clash(os) else NamesMerged(os, k, i, todo - {name}, from[q := Origin(i, name)])
  {
    var q, s := Qualify(os[i].pkgname, name), Origin(i, name);
    assert ComesFrom(os, k, s, q);
    if q !in from {
      var from' := from[q := s];
      forall t, r | ComesFrom(os, k, t, r) && Taken(i, todo - {name}, t) ensures r in from' && from'[r] == t {
        if t != s { assert Taken(i, todo, t); }
      }
    }
  }

  lemma MergeStart(os: seq<OFile>, k: Kind, i: nat, from: map<string, Origin>)
    requires NamesMerged(os, k, i, {}, from) && i < |os|
    ensures NamesMerged(os, k, i + 1, NamesLeft(os, i + 1, k), from)
  {
  }

  /** What is left to do before the names of an object are merged. */
  function NamesLeft(os: seq<OFile>, i: nat, k: Kind): set<string> { if i < |os| then NamesOf(os[i], k) else {} }

  method MergeFuncs(os: seq<OFile>, i: nat, acc: map<string, Function>, ghost from: map<string, Origin>)
    returns (ok: bool, out: map<string, Function>, ghost from': map<string, Origin>)
    requires i < |os| && NamesMerged(os, Text, i, NamesOf(os[i], Text), from) && FuncsMerged(os, from, acc)
    ensures ok ==> NamesMerged(os, Text, i, {}, from') && FuncsMerged(os, from', out)
    ensures ok ==> (os[i].funcs != map[] ==> os[i].pkgname != "")
    ensures !ok ==> Clash(os)
  {
    hide NamesMerged, Clash;
    var todo := os[i].funcs.Keys;
    out, from' := acc, from;
    while todo != {}
      invariant todo <= os[i].funcs.Keys && NamesMerged(os, Text, i, todo, from') && FuncsMerged(os, from', out)
      invariant todo != os[i].funcs.Keys ==> os[i].pkgname != ""
    {
      var name :| name in todo;
      var qname := Qualify(os[i].pkgname, name);
      assert ComesFrom(os, Text, Origin(i, name), qname);
      if os[i].pkgname == "" {
        HasNoPackage(os, Origin(i, name), qname);
        return false, out, from';
      }
      MergeNext(os, Text, i, todo, from', name);
      if qname in out { return false, out, from'; }
      out := out[qname := os[i].funcs[name]];
      from' := from'[qname := Origin(i, name)];
      todo := todo - {name};
    }
    ok := true;
    if os[i].funcs != map[] { var name :| name in os[i].funcs; assert name !in todo; }
  }

  lemma HasNoPackage(os: seq<OFile>, s: Origin, q: string)
    requires ComesFrom(os, Text, s, q) && os[s.i].pkgname == ""
    ensures Clash(os)
  {
  }

  method MergeVars(os: seq<OFile>, i: nat, k: Kind, acc: map<string, Var>, ghost from: map<string, Origin>)
    returns (ok: bool, out: map<string, Var>, ghost from': map<string, Origin>)
    requires !k.Text? && i < |os| && NamesMerged(os, k, i, NamesOf(os[i], k), from) && VarsMerged(os, k, from, acc)
    ensures ok ==> NamesMerged(os, k, i, {}, from') && VarsMerged(os, k, from', out)
    ensures !ok ==> Clash(os)
  {
    hide NamesMerged, Clash, Qualified;
    var vars := VarsOf(os[i], k);
    var todo := vars.Keys;
    out, from' := acc, from;
    while todo != {}
      invariant todo <= vars.Keys && NamesMerged(os, k, i, todo, from') && VarsMerged(os, k, from', out)
    {
      var name :| name in todo;
      var qname := Qualify(os[i].pkgname, name);
      assert ComesFrom(os, k, Origin(i, name), qname);
      MergeNext(os, k, i, todo, from', name);
      if qname in out { return false, out, from'; }
      var v := QualifyDataRelocs(vars[name], os[i].pkgname);
      out := out[qname := v];
      from' := from'[qname := Origin(i, name)];
      todo := todo - {name};
    }
    ok := true;
  }

  /** All symbols under their qualified names. */
  method Gather(os: seq<OFile>) returns (ok: bool, p: Program)
    ensures ok <==> !Clash(os)
    ensures ok ==> Merged(os, p)
  {
    hide NamesMerged, Clash, FuncsMerged, VarsMerged;
    p := Program(map[], map[], map[]);
    ghost var f, v, d := map[], map[], map[];
    Nothing(os);
    for i := 0 to |os|
      invariant NamesMerged(os, Text, i, NamesLeft(os, i, Text), f) && FuncsMerged(os, f, p.funcs)
      invariant NamesMerged(os, Data, i, NamesLeft(os, i, Data), v) && VarsMerged(os, Data, v, p.vars)
      invariant NamesMerged(os, Bss, i, NamesLeft(os, i, Bss), d) && VarsMerged(os, Bss, d, p.data)
      invariant forall j :: 0 <= j < i ==> (os[j].funcs != map[] ==> os[j].pkgname != "")
    {
      var funcs, data, vars;
      ok, funcs, f := MergeFuncs(os, i, p.funcs, f);
      if !ok { return; }
      ok, data, d := MergeVars(os, i, Bss, p.data, d);
      if !ok { return; }
      ok, vars, v := MergeVars(os, i, Data, p.vars, v);
      if !ok { return; }
      p := Program(funcs, vars, data);
      MergeStart(os, Text, i, f);
      MergeStart(os, Data, i, v);
      MergeStart(os, Bss, i, d);
    }
    ok := true;
    assert Merged(os, p);
    NoClash(os, f, v, d);
  }

  lemma Nothing(os: seq<OFile>)
    ensures forall k :: NamesMerged(os, k, 0, NamesLeft(os, 0, k), map[])
    ensures FuncsMerged(os, map[], map[]) && VarsMerged(os, Data, map[], map[]) && VarsMerged(os, Bss, map[], map[])
  {
  }

  lemma NoClash(os: seq<OFile>, f: map<string, Origin>, v: map<string, Origin>, d: map<string, Origin>)
    requires NamesMerged(os, Text, |os|, {}, f) && NamesMerged(os, Data, |os|, {}, v) &&
             NamesMerged(os, Bss, |os|, {}, d)
    requires forall j :: 0 <= j < |os| ==> (os[j].funcs != map[] ==> os[j].pkgname != "")
    ensures !Clash(os)
  {
  }

  /** Functions are stamped with their name and package when an object is read. */
  ghost predicate ObjectsStamped(os: seq<OFile>) {
    forall i, n :: 0 <= i < |os| && n in os[i].funcs ==> os[i].funcs[n].name == n && os[i].funcs[n].pkgname == os[i].pkgname
  }

  /** Object i is of the package and defines the name. */
  ghost predicate Defines(os: seq<OFile>, k: Kind, pkg: string, name: string, i: nat) {
    i < |os| && os[i].pkgname == pkg && name in NamesOf(os[i], k)
  }

  /** No package name has a dot in it. */
  ghost predicate PlainPackages(os: seq<OFile>) {
    forall i :: 0 <= i < |os| ==> '.' !in os[i].pkgname
  }

  /** Object i defines what this symbol finds: as the package's own, or, where an
      object has no package, by the whole name. */
  ghost predicate Supplies(os: seq<OFile>, k: Kind, pkg: string, name: string, i: nat) {
    Defines(os, k, pkg, name, i) || Defines(os, k, "", pkg + "." + name, i)
  }

  /** The one definition that a name with a package in front of it comes from. */
  lemma OriginOf(os: seq<OFile>, k: Kind, s: Origin, pkg: string, name: string)
    requires PlainPackages(os) && pkg != "" && '.' !in pkg && ComesFrom(os, k, s, pkg + "." + name)
    ensures (Defines(os, k, pkg, name, s.i) && s.name == name) || (os[s.i].pkgname == "" && s.name == pkg + "." + name)
  {
    var q := pkg + "." + name;
    QualifiedSplits(pkg, name, q);
    if os[s.i].pkgname != "" { QualifiedSplits(os[s.i].pkgname, s.name, q); }
  }

  /** A symbol with a package in front finds the function of that name in that
      package, if there is one, and then it is that function; and else the variable
      or constant of that name in that package, or, where an object has no package,
      one that was given the whole name. */
  lemma SymbolFinds(os: seq<OFile>, p: Program, pkg: string, name: string, i: nat)
    requires Merged(os, p) && !Clash(os) && PlainPackages(os) && pkg != "" && '.' !in pkg
    ensures var q := pkg + "." + name;
            && (Find(p, q) == Some(Code(q)) <==> exists j: nat :: Defines(os, Text, pkg, name, j))
            && (q in p.vars <==> exists j: nat :: Supplies(os, Data, pkg, name, j))
            && (q in p.data <==> exists j: nat :: Supplies(os, Bss, pkg, name, j))
            && (Defines(os, Text, pkg, name, i) ==> p.funcs[q] == os[i].funcs[name])
            && (Defines(os, Data, pkg, name, i) ==> q in p.vars && Qualified(os[i].vars[name], pkg, p.vars[q]))
            && (Defines(os, Bss, pkg, name, i) ==> q in p.data && Qualified(os[i].data[name], pkg, p.data[q]))
  {
    hide Qualified, Clash, NamesMerged, PlainPackages, Supplies;
    var q := pkg + "." + name;
    var f, v, d :|
      && NamesMerged(os, Text, |os|, {}, f) && FuncsMerged(os, f, p.funcs)
      && NamesMerged(os, Data, |os|, {}, v) && VarsMerged(os, Data, v, p.vars)
      && NamesMerged(os, Bss, |os|, {}, d) && VarsMerged(os, Bss, d, p.data);
    NameIsIn(os, Text, pkg, name, f, i);
    NameIsIn(os, Data, pkg, name, v, i);
    NameIsIn(os, Bss, pkg, name, d, i);
    FunctionsHavePackages(os, pkg, name);
  }

  lemma FunctionsHavePackages(os: seq<OFile>, pkg: string, name: string)
    requires !Clash(os) && pkg != ""
    ensures forall j: nat :: Supplies(os, Text, pkg, name, j) <==> Defines(os, Text, pkg, name, j)
  {
    hide Clash;
    forall j: nat | Defines(os, Text, "", pkg + "." + name, j) ensures false {
      HasNoPackage(os, Origin(j, pkg + "." + name), pkg + "." + name);
    }
  }

  lemma NameIsIn(os: seq<OFile>, k: Kind, pkg: string, name: string, from: map<string, Origin>, i: nat)
    requires NamesMerged(os, k, |os|, {}, from) && PlainPackages(os) && pkg != "" && '.' !in pkg
    ensures var q := pkg + "." + name;
            && (q in from <==> exists j: nat :: Supplies(os, k, pkg, name, j))
            && (Defines(os, k, pkg, name, i) ==> q in from && from[q] == Origin(i, name))
  {
    var q := pkg + "." + name;
    assert q == Qualify(pkg, name) && q == Qualify("", q);
    if q in from {
      OriginOf(os, k, from[q], pkg, name);
      assert Supplies(os, k, pkg, name, from[q].i);
    }
    forall j: nat | Defines(os, k, pkg, name, j) ensures q in from && from[q] == Origin(j, name) {
      assert ComesFrom(os, k, Origin(j, name), q);
    }
    forall j: nat | Defines(os, k, "", q, j) ensures q in from {
      assert ComesFrom(os, k, Origin(j, q), q);
    }
  }

  /** The entry point is there exactly if an object of package _init defines start,
      and it is that function, whatever the other packages are called. */
  lemma EntryIsStart(os: seq<OFile>, p: Program, i: nat)
    requires Merged(os, p) && !Clash(os)
    ensures ENTRY in p.funcs <==> exists j: nat :: Defines(os, Text, "_init", "start", j)
    ensures Defines(os, Text, "_init", "start", i) ==> p.funcs[ENTRY] == os[i].funcs["start"]
  {
    hide Clash, VarsMerged;
    var f: map<string, Origin> :| NamesMerged(os, Text, |os|, {}, f) && FuncsMerged(os, f, p.funcs);
    assert ENTRY == Qualify("_init", "start");
    forall j: nat | Defines(os, Text, "_init", "start", j) ensures ENTRY in f && f[ENTRY] == Origin(j, "start") {
      assert ComesFrom(os, Text, Origin(j, "start"), ENTRY);
    }
    if ENTRY in f {
      var s := f[ENTRY];
      if os[s.i].pkgname == "" { HasNoPackage(os, s, ENTRY); }
      OnlyOneDot(os[s.i].pkgname, s.name);
      assert Defines(os, Text, "_init", "start", s.i);
    }
  }

  lemma OnlyOneDot(pkg: string, name: string)
    requires pkg != "" && Qualify(pkg, name) == ENTRY
    ensures pkg == "_init" && name == "start"
  {
    assert ENTRY[5] == '.' && forall k :: 0 <= k < |ENTRY| && k != 5 ==> ENTRY[k] != '.';
    assert ENTRY[|pkg|] == '.' && pkg == ENTRY[..|pkg|] && name == ENTRY[|pkg| + 1..];
  }

  ghost predicate SlotAt(f: Function, k: int) {
    exists i :: 0 <= i < |f.relocations| && f.relocations[i].offset <= k < f.relocations[i].offset + 4
  }

  /** The code of start, but for its slots, stands at the beginning of the text. */
  ghost predicate StartPlaced(start: Function, textoff: nat, bin: Linking.LinkedBin) {
    && bin.text.offset == textoff && |start.body| <= |bin.text.val|
    && forall k :: 0 <= k < |start.body| && !SlotAt(start, k) ==> bin.text.val[k] == start.body[k]
  }

  /** An object of package _init defines start, and its code comes first. */
  ghost predicate StartFirst(os: seq<OFile>, textoff: nat, bin: Linking.LinkedBin) {
    exists i: nat :: Defines(os, Text, "_init", "start", i) && StartPlaced(os[i].funcs["start"], textoff, bin)
  }

  lemma EntryPlaced(os: seq<OFile>, p: Program, textoff: nat, bin: Linking.LinkedBin)
    requires Merged(os, p) && !Clash(os) && ENTRY in p.funcs && Linking.Linked(p, textoff, bin)
    ensures StartFirst(os, textoff, bin)
  {
    hide Linking.Leading, Linking.NoneOverlap, Reachable, Merged, Clash;
    EntryIsReachable(p);
    assert Linking.Present(p, bin, Code(ENTRY));
    EntryIsStart(os, p, 0);
    var i: nat :| Defines(os, Text, "_init", "start", i);
    EntryIsStart(os, p, i);
    assert StartPlaced(os[i].funcs["start"], textoff, bin);
  }

  /** Links object files.  It fails exactly if definitions clash, no object of package
      _init defines start, or something reachable refers to a symbol that does not
      exist. */
  method Link(os: seq<OFile>, textoff: nat) returns (ok: bool, p: Program, bin: Linking.LinkedBin)
    requires ObjectsStamped(os)
    requires forall p :: Merged(os, p) ==> Fits(p) && Linking.WellSlotted(p)
    ensures ok ==> !Clash(os) && Merged(os, p) && Linkable(p) && Linking.Linked(p, textoff, bin) && Linking.Small(bin)
    ensures !ok ==> Clash(os) || (Merged(os, p) && !Linkable(p))
    ensures ok ==> StartFirst(os, textoff, bin)
    ensures !ok && !Clash(os) ==> (forall i: nat :: !Defines(os, Text, "_init", "start", i)) || Dangling(p)
  {
    hide Clash, Merged, Fits, Dangling, Linking.WellSlotted, Linking.Linked, Linking.Small, ObjectsStamped, Stamped, StartFirst;
    bin := Linking.LinkedBin(Linking.Section(".text", 0, [], []), Linking.Section(".data", 0, [], []),
                               Linking.Section(".bss", 0, [], []));
    ok, p := Gather(os);
    if !ok { return; }
    MergedIsStamped(os, p);
    ok, bin := Linking.LinkProgram(p, textoff);
    EntryIsStart(os, p, 0);
    if ok { EntryPlaced(os, p, textoff, bin); }
  }

  lemma MergedIsStamped(os: seq<OFile>, p: Program)
    requires ObjectsStamped(os) && Merged(os, p)
    ensures Stamped(p)
  {
  }
}
