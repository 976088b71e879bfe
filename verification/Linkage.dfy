/** What linking a set of symbols means: which of them a program reaches, and
    how a section lays them out. */
module Linkage {
  import opened Wrappers
  import opened Bytes
  import opened ObjectFile

  /** All functions, variables and constants, by qualified name. */
  datatype Program = Program(funcs: map<string, Function>, vars: map<string, Var>, data: map<string, Var>)

  datatype Node = Code(name: string) | Variable(name: string) | Constant(name: string)

  const ENTRY: string := "_init.start"

  function Qualify(pkg: string, name: string): string { if pkg == "" then name else pkg + "." + name }

  /** A bare target belongs to the package of the variable that refers to it. */
  function QualifyTarget(pkg: string, symbol: string): string {
    if '.' in symbol then symbol else Qualify(pkg, symbol)
  }

  /** The position of the first dot of a name, or its length. */
  function FirstDot(s: string): (k: nat)
    ensures k <= |s| && (k < |s| ==> s[k] == '.') && forall j :: 0 <= j < k ==> s[j] != '.'
  {
    if s == "" || s[0] == '.' then 0 else 1 + FirstDot(s[1..])
  }

  /** A name that belongs to a package: what is before the first dot and what is
      after it. */
  ghost predicate Belongs(q: string, pkg: string, name: string) {
    FirstDot(q) < |q| && q[..FirstDot(q)] == pkg && q[FirstDot(q) + 1..] == name
  }

  /** A qualified name splits, at its first dot, into the package and the name. */
  lemma QualifiedSplits(pkg: string, name: string, q: string)
    requires pkg != "" && '.' !in pkg
    ensures Belongs(q, pkg, name) <==> q == Qualify(pkg, name)
  {
    var made := Qualify(pkg, name);
    assert made[|pkg|] == '.' && made[..|pkg|] == pkg && made[|pkg| + 1..] == name;
    forall j | 0 <= j < |pkg| ensures made[j] != '.' { assert made[j] == pkg[j]; }
    if Belongs(q, pkg, name) {
      assert q == q[..FirstDot(q)] + [q[FirstDot(q)]] + q[FirstDot(q) + 1..];
    }
  }

  /** A bare target comes to belong to the package, and one with a dot stays. */
  lemma TargetSplits(pkg: string, symbol: string)
    requires pkg != "" && '.' !in pkg
    ensures if '.' in symbol then QualifyTarget(pkg, symbol) == symbol else Belongs(QualifyTarget(pkg, symbol), pkg, symbol)
  {
    QualifiedSplits(pkg, symbol, Qualify(pkg, symbol));
  }

  /** Functions are stamped with the name they are known by. */
  predicate Stamped(p: Program) {
    forall q <- p.funcs :: Qualify(p.funcs[q].pkgname, p.funcs[q].name) == q
  }

  /** What a symbol stands for: a function before a variable before a constant. */
  function Find(p: Program, symbol: string): Option<Node> {
    if symbol in p.funcs then Some(Code(symbol))
    else if symbol in p.vars then Some(Variable(symbol))
    else if symbol in p.data then Some(Constant(symbol))
    else None
  }

  predicate Defined(p: Program, n: Node) {
    match n
    case Code(q) => q in p.funcs
    case Variable(q) => q in p.vars
    case Constant(q) => q in p.data
  }

  function Content(p: Program, n: Node): seq<Byte>
    requires Defined(p, n)
  {
    match n
    case Code(q) => p.funcs[q].body
    case Variable(q) => p.vars[q].val
    case Constant(q) => p.data[q].val
  }

  /** The relocations of a variable or constant. */
  function SlotsOf(p: Program, n: Node): seq<DataReloc>
    requires Defined(p, n) && !n.Code?
  {
    if n.Variable? then p.vars[n.name].relocs else p.data[n.name].relocs
  }

  predicate Refers(p: Program, n: Node, symbol: string)
    requires Defined(p, n)
  {
    if n.Code? then exists i :: 0 <= i < |p.funcs[n.name].relocations| && p.funcs[n.name].relocations[i].symbol == symbol
    else exists i :: 0 <= i < |SlotsOf(p, n)| && SlotsOf(p, n)[i].symbol == symbol
  }

  // ----- reachability -----

  ghost predicate Leads(p: Program, a: Node, b: Node) {
    Defined(p, a) && exists s :: Refers(p, a, s) && Find(p, s) == Some(b)
  }

  ghost predicate Path(p: Program, path: seq<Node>) {
    path != [] && path[0] == Code(ENTRY) && ENTRY in p.funcs && forall i :: 0 < i < |path| ==> Leads(p, path[i - 1], path[i])
  }

  ghost predicate Reachable(p: Program, n: Node) {
    exists path :: Path(p, path) && path[|path| - 1] == n
  }

  /** Something reachable refers to a symbol that does not exist. */
  ghost predicate Dangling(p: Program) {
    exists n, s :: Reachable(p, n) && Defined(p, n) && Refers(p, n, s) && Find(p, s).None?
  }

  ghost predicate Linkable(p: Program) { ENTRY in p.funcs && !Dangling(p) }

  lemma EntryIsReachable(p: Program)
    requires ENTRY in p.funcs
    ensures Reachable(p, Code(ENTRY))
  {
    assert Path(p, [Code(ENTRY)]);
  }

  lemma LeadsFurther(p: Program, a: Node, s: string)
    requires Reachable(p, a) && Defined(p, a) && Refers(p, a, s)
    ensures Find(p, s).None? ==> Dangling(p)
    ensures Find(p, s).Some? ==> Reachable(p, Find(p, s).value)
  {
    if Find(p, s).Some? {
      var path :| Path(p, path) && path[|path| - 1] == a;
      var longer := path + [Find(p, s).value];
      forall i | 0 < i < |longer| ensures Leads(p, longer[i - 1], longer[i]) {
        if i < |path| { assert Leads(p, path[i - 1], path[i]); }
      }
      assert Path(p, longer);
    }
  }

  /** Every reference of n is to something in the set. */
  ghost predicate Covered(p: Program, n: Node, seen: set<Node>) {
    Defined(p, n) && forall s :: Refers(p, n, s) ==> Find(p, s).Some? && Find(p, s).value in seen
  }

  /** A closed set that holds the entry point holds everything reachable. */
  lemma ClosedIsAll(p: Program, seen: set<Node>)
    requires ENTRY in p.funcs && Code(ENTRY) in seen && forall n :: n in seen ==> Covered(p, n, seen)
    ensures forall n :: Reachable(p, n) ==> n in seen
    ensures !Dangling(p)
  {
    forall n | Reachable(p, n) ensures n in seen {
      var path :| Path(p, path) && path[|path| - 1] == n;
      PathStaysIn(p, seen, path, |path| - 1);
    }
  }

  lemma {:induction false} PathStaysIn(p: Program, seen: set<Node>, path: seq<Node>, i: nat)
    requires Path(p, path) && i < |path|
    requires Code(ENTRY) in seen && forall n :: n in seen ==> Covered(p, n, seen)
    ensures path[i] in seen
  {
    if i > 0 {
      PathStaysIn(p, seen, path, i - 1);
      assert Leads(p, path[i - 1], path[i]);
    }
  }

  // ----- sections -----

  datatype SectSym = SectSym(name: string, address: nat, size: nat)

  datatype Kind = Text | Data | Bss

  function NodeOf(k: Kind, name: string): Node {
    match k
    case Text => Code(name)
    case Data => Variable(name)
    case Bss => Constant(name)
  }

  function End(syms: seq<SectSym>): nat { if syms == [] then 0 else syms[|syms| - 1].address + syms[|syms| - 1].size }

  ghost predicate EndToEnd(syms: seq<SectSym>) {
    forall i :: 0 <= i < |syms| ==> syms[i].address == End(syms[..i])
  }

  ghost predicate Entries(p: Program, k: Kind, syms: seq<SectSym>, locs: map<string, int>, buf: seq<Byte>) {
    forall i :: 0 <= i < |syms| ==> Entry(p, k, syms[i], locs, buf)
  }

  ghost predicate DistinctNames(syms: seq<SectSym>) {
    forall i, j :: 0 <= i < j < |syms| ==> syms[i].name != syms[j].name
  }

  ghost predicate Listed(syms: seq<SectSym>, name: string) { exists i :: 0 <= i < |syms| && syms[i].name == name }

  /** The symbols lie end to end in the section, each once, with their contents;
      `locs` finds them by name. */
  ghost predicate LaidOut(p: Program, k: Kind, syms: seq<SectSym>, locs: map<string, int>, buf: seq<Byte>) {
    && |buf| == End(syms) && EndToEnd(syms) && DistinctNames(syms)
    && Entries(p, k, syms, locs, buf) && forall n :: n in locs ==> Listed(syms, n)
  }

  ghost predicate Entry(p: Program, k: Kind, s: SectSym, locs: map<string, int>, buf: seq<Byte>) {
    && s.name in locs && locs[s.name] == s.address
    && Defined(p, NodeOf(k, s.name)) && s.size == |Content(p, NodeOf(k, s.name))|
    && s.address + s.size <= |buf| && buf[s.address..s.address + s.size] == Content(p, NodeOf(k, s.name))
  }

  /** However its symbols are arranged, no section reaches 4 GiB. */
  ghost predicate Fits(p: Program) {
    forall k, syms, locs, buf :: LaidOut(p, k, syms, locs, buf) ==> |buf| < TWO32
  }

  lemma EntryStays(p: Program, k: Kind, s: SectSym, locs: map<string, int>, buf: seq<Byte>, name: string, more: seq<Byte>)
    requires Entry(p, k, s, locs, buf) && name !in locs
    ensures Entry(p, k, s, locs[name := |buf|], buf + more)
  {
  }

  lemma EntryAdded(p: Program, k: Kind, locs: map<string, int>, buf: seq<Byte>, name: string)
    requires name !in locs && Defined(p, NodeOf(k, name))
    ensures var c := Content(p, NodeOf(k, name));
            Entry(p, k, SectSym(name, |buf|, |c|), locs[name := |buf|], buf + c)
  {
  }

  lemma EndToEndNext(syms: seq<SectSym>, s: SectSym)
    requires EndToEnd(syms) && s.address == End(syms)
    ensures EndToEnd(syms + [s]) && End(syms + [s]) == s.address + s.size
  {
  }

  lemma EntriesNext(p: Program, k: Kind, syms: seq<SectSym>, locs: map<string, int>, buf: seq<Byte>, name: string)
    requires Entries(p, k, syms, locs, buf) && name !in locs && Defined(p, NodeOf(k, name))
    ensures var c := Content(p, NodeOf(k, name));
            Entries(p, k, syms + [SectSym(name, |buf|, |c|)], locs[name := |buf|], buf + c)
  {
    var c := Content(p, NodeOf(k, name));
    EntryAdded(p, k, locs, buf, name);
    var syms' := syms + [SectSym(name, |buf|, |c|)];
    hide Entry, Content, NodeOf, Defined;
    forall i | 0 <= i < |syms'| ensures Entry(p, k, syms'[i], locs[name := |buf|], buf + c) {
      if i < |syms| { EntryStays(p, k, syms[i], locs, buf, name, c); }
    }
  }

  lemma NamesAreLocated(p: Program, k: Kind, syms: seq<SectSym>, locs: map<string, int>, buf: seq<Byte>)
    requires Entries(p, k, syms, locs, buf)
    ensures forall i :: 0 <= i < |syms| ==> syms[i].name in locs
  {
  }

  lemma NamesNext(syms: seq<SectSym>, locs: map<string, int>, s: SectSym, at: int)
    requires DistinctNames(syms) && (forall n :: n in locs ==> Listed(syms, n)) && s.name !in locs
    requires forall i :: 0 <= i < |syms| ==> syms[i].name in locs
    ensures DistinctNames(syms + [s]) && forall n :: n in locs[s.name := at] ==> Listed(syms + [s], n)
  {
    var syms' := syms + [s];
    assert syms'[|syms|].name == s.name;
    forall n | n in locs ensures Listed(syms', n) {
      var i :| 0 <= i < |syms| && syms[i].name == n;
      assert syms'[i].name == n;
    }
  }

  /** Appending a new symbol keeps the layout. */
  lemma LayOutNext(p: Program, k: Kind, syms: seq<SectSym>, locs: map<string, int>, buf: seq<Byte>, name: string)
    requires LaidOut(p, k, syms, locs, buf) && name !in locs && Defined(p, NodeOf(k, name))
    ensures var c := Content(p, NodeOf(k, name));
            LaidOut(p, k, syms + [SectSym(name, |buf|, |c|)], locs[name := |buf|], buf + c)
  {
    var last := SectSym(name, |buf|, |Content(p, NodeOf(k, name))|);
    hide Content, NodeOf, Defined, End, EndToEnd, DistinctNames, Listed;
    EndToEndNext(syms, last);
    EntriesNext(p, k, syms, locs, buf, name);
    NamesAreLocated(p, k, syms, locs, buf);
    hide Entries;
    NamesNext(syms, locs, last, |buf|);
  }

  /** Different symbols of a section share no byte. */
  lemma {:induction false} SymbolsApart(p: Program, k: Kind, syms: seq<SectSym>, locs: map<string, int>, buf: seq<Byte>,
                                       i: nat, j: nat)
    requires LaidOut(p, k, syms, locs, buf) && i < j < |syms|
    ensures syms[i].address + syms[i].size <= syms[j].address
    decreases j
  {
    assert syms[j].address == End(syms[..j]);
    assert syms[..j][j - 1] == syms[j - 1];
    if i < j - 1 { SymbolsApart(p, k, syms, locs, buf, i, j - 1); }
  }

  /** The first page after some address. */
  function PageAfter(x: int): int { (x + 0x1000) / 0x1000 * 0x1000 }

  lemma PagesAfter(textoff: nat, text: nat, vardat: nat)
    ensures var varoff := PageAfter(textoff + text);
            var dataoff := PageAfter(varoff + vardat);
            textoff + text < varoff && varoff + vardat < dataoff && varoff % 0x1000 == 0 && dataoff % 0x1000 == 0
  {
  }
}
