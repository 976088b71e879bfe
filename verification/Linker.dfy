/** The linker (linker.go): a worklist of functions, placement of variables and
    constants that follows their relocations recursively, section layout, and
    patching of the address slots in place. */
module Linker {
  import opened Wrappers
  import opened Bytes
  import opened ObjectFile
  import opened Linkage

  function QName(f: Function): string { Qualify(f.pkgname, f.name) }

  lemma CoveredMore(p: Program, n: Node, seen: set<Node>, more: set<Node>)
    requires Covered(p, n, seen) && seen <= more
    ensures Covered(p, n, more)
  {
  }

  /** Everything in the set but functions and what was there before is covered. */
  ghost predicate CoveredSince(p: Program, before: set<Node>, seen: set<Node>) {
    forall n :: n in seen && n !in before && !n.Code? ==> Covered(p, n, seen)
  }

  lemma CoveredSinceMore(p: Program, before: set<Node>, middle: set<Node>, seen: set<Node>)
    requires CoveredSince(p, before, middle) && CoveredSince(p, middle, seen) && middle <= seen
    ensures CoveredSince(p, before, seen)
  {
    forall n | n in seen && n !in before && !n.Code? ensures Covered(p, n, seen) {
      if n in middle { CoveredMore(p, n, middle, seen); }
    }
  }

  predicate Waits(needfn: seq<Function>, q: string) { exists f <- needfn :: QName(f) == q }

  ghost predicate SeenIs(needfn: seq<Function>, fns: set<string>, vars: set<string>, data: set<string>, seen: set<Node>) {
    && (forall q :: Code(q) in seen <==> q in fns || Waits(needfn, q))
    && (forall q :: Variable(q) in seen <==> q in vars)
    && (forall q :: Constant(q) in seen <==> q in data)
  }

  lemma SeenGrows(needfn: seq<Function>, fns: set<string>, vars: set<string>, data: set<string>, seen: set<Node>, name: string)
    requires SeenIs(needfn, fns, vars, data, seen)
    ensures SeenIs(needfn, fns, vars + {name}, data, seen + {Variable(name)})
    ensures SeenIs(needfn, fns, vars, data + {name}, seen + {Constant(name)})
  {
  }

  lemma SeenWaits(needfn: seq<Function>, fns: set<string>, vars: set<string>, data: set<string>, seen: set<Node>, f: Function)
    requires SeenIs(needfn, fns, vars, data, seen)
    ensures SeenIs(needfn + [f], fns, vars, data, seen + {Code(QName(f))})
    ensures f in needfn ==> SeenIs(needfn, fns, vars, data, seen + {Code(QName(f))})
    ensures needfn != [] && needfn[0] == f ==> SeenIs(needfn[1..], fns + {QName(f)}, vars, data, seen)
  {
    var longer := needfn + [f];
    forall q ensures Waits(longer, q) <==> q == QName(f) || Waits(needfn, q) {
      if g :| g in needfn && QName(g) == q { assert g in longer; }
      assert f in longer;
    }
    if needfn != [] && needfn[0] == f {
      forall q ensures Waits(needfn, q) <==> q == QName(f) || Waits(needfn[1..], q) {
        assert f in needfn && forall g :: g in needfn <==> g == f || g in needfn[1..];
      }
    }
  }

  lemma NothingPlaced(p: Program, locs: map<string, int>, buf: seq<Byte>)
    requires LaidOut(p, Text, [], locs, buf)
    ensures ENTRY !in locs
  {
    assert !Listed([], ENTRY);
  }

  lemma Initially(p: Program, f: Function)
    requires QName(f) == ENTRY
    ensures SeenIs([f], {}, {}, {}, {Code(ENTRY)})
    ensures forall k: Kind :: LaidOut(p, k, [], map[], [])
  {
    assert [f][0] == f;
    forall q ensures Waits([f], q) <==> q == ENTRY { assert f in [f]; }
  }

  /** A relocation of a function that lies at some offset of the section. */
  function Shift(r: Relocation, start: int): Relocation { r.(offset := Uint32(r.offset + start)) }

  /** Each relocation is that of a placed function, shifted by its offset. */
  ghost predicate FromFunctions(p: Program, locs: map<string, int>, origin: seq<(string, nat)>, relocations: seq<Relocation>) {
    && |origin| == |relocations|
    && (forall i, j :: 0 <= i < j < |origin| ==> origin[i] != origin[j])
    && forall i :: 0 <= i < |origin| ==>
         var (q, j) := origin[i];
         q in locs && q in p.funcs && j < |p.funcs[q].relocations| && relocations[i] == Shift(p.funcs[q].relocations[j], locs[q])
  }

  /** Every relocation of the placed functions is there, of one function only the first few. */
  ghost predicate Collected(p: Program, locs: map<string, int>, origin: seq<(string, nat)>, current: string, upto: int) {
    forall q, j :: q in locs && q in p.funcs && 0 <= j < (if q == current then upto else |p.funcs[q].relocations|) ==>
      (q, j) in origin
  }

  lemma CollectNext(p: Program, locs: map<string, int>, origin: seq<(string, nat)>, relocations: seq<Relocation>,
                    current: string, i: nat)
    requires FromFunctions(p, locs, origin, relocations) && Collected(p, locs, origin, current, i)
    requires current in locs && current in p.funcs && i < |p.funcs[current].relocations| && (current, i) !in origin
    ensures var r := Shift(p.funcs[current].relocations[i], locs[current]);
            FromFunctions(p, locs, origin + [(current, i)], relocations + [r])
    ensures Collected(p, locs, origin + [(current, i)], current, i + 1)
  {
    var longer := origin + [(current, i)];
    assert longer[|origin|] == (current, i);
    assert forall o <- origin :: o in longer;
  }

  lemma CollectedAll(p: Program, locs: map<string, int>, origin: seq<(string, nat)>, current: string)
    requires current in p.funcs && Collected(p, locs, origin, current, |p.funcs[current].relocations|)
    ensures forall q :: q in p.funcs ==> Collected(p, locs, origin, q, |p.funcs[q].relocations|)
  {
  }

  lemma CollectFirst(p: Program, locs: map<string, int>, origin: seq<(string, nat)>, relocations: seq<Relocation>,
                     current: string, at: int)
    requires FromFunctions(p, locs, origin, relocations) && current !in locs
    requires forall q :: q in p.funcs ==> Collected(p, locs, origin, q, |p.funcs[q].relocations|)
    ensures FromFunctions(p, locs[current := at], origin, relocations)
    ensures Collected(p, locs[current := at], origin, current, 0)
    ensures forall j :: (current, j) !in origin
  {
    forall i | 0 <= i < |origin| ensures origin[i].0 != current {
    }
  }

  class Linker {
    const p: Program
    var funclocs: map<string, int>
    var varlocs: map<string, int>
    var datalocs: map<string, int>
    var funcsyms: seq<SectSym>
    var varsyms: seq<SectSym>
    var datasyms: seq<SectSym>
    var fnbs: seq<Byte>
    var varbs: seq<Byte>
    var databs: seq<Byte>
    var needfn: seq<Function>
    var needfnm: set<Function>
    var relocations: seq<Relocation>
    /** What has been placed, and the functions waiting to be. */
    ghost var seen: set<Node>
    /** The function and the index that each relocation came from. */
    ghost var origin: seq<(string, nat)>

    ghost predicate Known(f: Function) { QName(f) in p.funcs && p.funcs[QName(f)] == f }

    /** The worklist holds each function to be placed once. */
    ghost predicate Queue()
      reads this`needfn, this`needfnm, this`funclocs
    {
      && (forall f <- needfn :: Known(f) && QName(f) !in funclocs)
      && (forall i, j :: 0 <= i < j < |needfn| ==> needfn[i] != needfn[j])
      && (forall f <- needfnm :: Known(f) && (f in needfn || QName(f) in funclocs))
      && (forall f <- needfn :: f in needfnm || (QName(f) == ENTRY && ENTRY !in funclocs))
    }

    ghost predicate Seen()
      reads this`needfn, this`funclocs, this`varlocs, this`datalocs, this`seen
    {
      && SeenIs(needfn, funclocs.Keys, varlocs.Keys, datalocs.Keys, seen)
      && forall n <- seen :: Reachable(p, n) && Defined(p, n)
    }

    /** The sections are laid out end to end. */
    ghost predicate DataLaidOut()
      reads this`varlocs, this`varsyms, this`varbs, this`datalocs, this`datasyms, this`databs
    {
      LaidOut(p, Data, varsyms, varlocs, varbs) && LaidOut(p, Bss, datasyms, datalocs, databs)
    }

    ghost predicate Valid()
      reads this
    {
      Stamped(p) && Fits(p) && Queue() && Seen() && DataLaidOut()
    }

    method AddNeeded(f: Function)
      requires Valid() && Known(f) && QName(f) !in funclocs && ENTRY in funclocs && Reachable(p, Code(QName(f)))
      modifies this`needfn, this`needfnm, this`seen
      ensures Valid() && seen == old(seen) + {Code(QName(f))}
    {
      hide Reachable, LaidOut, SeenIs;
      SeenWaits(needfn, funclocs.Keys, varlocs.Keys, datalocs.Keys, seen, f);
      seen := seen + {Code(QName(f))};
      if f in needfnm { return; }
      needfnm := needfnm + {f};
      needfn := needfn + [f];
    }

    /** Makes sure that the target of a relocation of `from` is placed; false if
        there is no such symbol. */
    method AddNeededDataReloc(target: string, ghost from: Node) returns (ok: bool)
      requires Valid() && ENTRY in funclocs
      requires Reachable(p, from) && Defined(p, from) && Refers(p, from, target)
      modifies this`varlocs, this`varsyms, this`varbs, this`datalocs, this`datasyms, this`databs
      modifies this`needfn, this`needfnm, this`seen
      ensures Valid() && old(varlocs.Keys) <= varlocs.Keys && old(datalocs.Keys) <= datalocs.Keys && old(seen) <= seen
      ensures ok ==> Find(p, target).Some? && Find(p, target).value in seen && CoveredSince(p, old(seen), seen)
      ensures !ok ==> Dangling(p)
      decreases p.vars.Keys - varlocs.Keys, p.data.Keys - datalocs.Keys, 1
    {
      hide Reachable, LaidOut, Covered, Dangling, Queue, Seen, Stamped, Fits;
      LeadsFurther(p, from, target);
      if target in p.funcs {
        IsKnown(target);
        if target !in funclocs { AddNeeded(p.funcs[target]); } else { PlacedIsSeen(Code(target)); }
        return true;
      }
      if target in p.vars {
        ok := AddVar(target);
        return;
      }
      if target in p.data {
        ok := AddData(target);
        return;
      }
      return false;
    }

    lemma IsKnown(q: string)
      requires Stamped(p) && q in p.funcs
      ensures Known(p.funcs[q]) && QName(p.funcs[q]) == q
    {
    }

    lemma PlacedIsSeen(n: Node)
      requires Seen()
      ensures (n.Code? && n.name in funclocs) || (n.Variable? && n.name in varlocs) ||
              (n.Constant? && n.name in datalocs) ==>
                n in seen
    {
    }

    method AddVar(name: string) returns (ok: bool)
      requires Valid() && ENTRY in funclocs && name in p.vars && Reachable(p, Variable(name))
      modifies this`varlocs, this`varsyms, this`varbs, this`datalocs, this`datasyms, this`databs
      modifies this`needfn, this`needfnm, this`seen
      ensures Valid() && old(varlocs.Keys) <= varlocs.Keys && old(datalocs.Keys) <= datalocs.Keys && old(seen) <= seen
      ensures ok ==> Variable(name) in seen && CoveredSince(p, old(seen), seen)
      ensures !ok ==> Dangling(p)
      decreases p.vars.Keys - varlocs.Keys, p.data.Keys - datalocs.Keys, 0
    {
      hide Reachable, LaidOut, Covered, Dangling, Queue, Seen, Stamped, Fits;
      PlacedIsSeen(Variable(name));
      if name in varlocs { return true; }
      PlaceVar(name);
      ok := Follow(p.vars[name].relocs, Variable(name), old(seen));
    }

    method PlaceVar(name: string)
      requires Valid() && name in p.vars && name !in varlocs && Reachable(p, Variable(name))
      modifies this`varlocs, this`varsyms, this`varbs, this`seen
      ensures Valid() && varlocs.Keys == old(varlocs.Keys) + {name} && seen == old(seen) + {Variable(name)}
    {
      hide Reachable, LaidOut, Queue, Stamped, SeenIs;
      SeenGrows(needfn, funclocs.Keys, varlocs.Keys, datalocs.Keys, seen, name);
      var v := p.vars[name];
      LayOutNext(p, Data, varsyms, varlocs, varbs, name);
      var loc := Uint32(|varbs|);
      varbs := varbs + v.val;
      varlocs := varlocs[name := loc];
      varsyms := varsyms + [SectSym(name, loc, |v.val|)];
      assert varlocs.Keys == old(varlocs.Keys) + {name};
      seen := seen + {Variable(name)};
    }

    method AddData(name: string) returns (ok: bool)
      requires Valid() && ENTRY in funclocs && name in p.data && Reachable(p, Constant(name))
      modifies this`varlocs, this`varsyms, this`varbs, this`datalocs, this`datasyms, this`databs
      modifies this`needfn, this`needfnm, this`seen
      ensures Valid() && old(varlocs.Keys) <= varlocs.Keys && old(datalocs.Keys) <= datalocs.Keys && old(seen) <= seen
      ensures ok ==> Constant(name) in seen && CoveredSince(p, old(seen), seen)
      ensures !ok ==> Dangling(p)
      decreases p.vars.Keys - varlocs.Keys, p.data.Keys - datalocs.Keys, 0
    {
      hide Reachable, LaidOut, Covered, Dangling, Queue, Seen, Stamped, Fits;
      PlacedIsSeen(Constant(name));
      if name in datalocs { return true; }
      PlaceData(name);
      ok := Follow(p.data[name].relocs, Constant(name), old(seen));
    }

    method PlaceData(name: string)
      requires Valid() && name in p.data && name !in datalocs && Reachable(p, Constant(name))
      modifies this`datalocs, this`datasyms, this`databs, this`seen
      ensures Valid() && datalocs.Keys == old(datalocs.Keys) + {name} && seen == old(seen) + {Constant(name)}
    {
      hide Reachable, LaidOut, Queue, Stamped, SeenIs;
      SeenGrows(needfn, funclocs.Keys, varlocs.Keys, datalocs.Keys, seen, name);
      var v := p.data[name];
      LayOutNext(p, Bss, datasyms, datalocs, databs, name);
      var loc := Uint32(|databs|);
      databs := databs + v.val;
      datalocs := datalocs[name := loc];
      datasyms := datasyms + [SectSym(name, loc, |v.val|)];
      assert datalocs.Keys == old(datalocs.Keys) + {name};
      seen := seen + {Constant(name)};
    }

    /** Follows the relocations of something that has just been placed. */
    method Follow(relocs: seq<DataReloc>, ghost from: Node, ghost before: set<Node>) returns (ok: bool)
      requires Valid() && ENTRY in funclocs && seen == before + {from} && Reachable(p, from)
      requires Defined(p, from) && !from.Code? && relocs == SlotsOf(p, from)
      modifies this`varlocs, this`varsyms, this`varbs, this`datalocs, this`datasyms, this`databs
      modifies this`needfn, this`needfnm, this`seen
      ensures Valid() && old(varlocs.Keys) <= varlocs.Keys && old(datalocs.Keys) <= datalocs.Keys && old(seen) <= seen
      ensures ok ==> CoveredSince(p, before, seen)
      ensures !ok ==> Dangling(p)
      decreases p.vars.Keys - varlocs.Keys, p.data.Keys - datalocs.Keys, 2
    {
      hide Reachable, LaidOut, Dangling, Queue, Seen, Stamped, Fits, CoveredSince;
      Fresh(old(seen));
      for i := 0 to |relocs|
        invariant Valid() && old(varlocs.Keys) <= varlocs.Keys && old(datalocs.Keys) <= datalocs.Keys &&
                  old(seen) <= seen
        invariant CoveredSince(p, old(seen), seen)
        invariant forall j :: 0 <= j < i ==> Find(p, relocs[j].symbol).Some? && Find(p, relocs[j].symbol).value in seen
      {
        ghost var middle := seen;
        ok := AddNeededDataReloc(relocs[i].symbol, from);
        if !ok { return; }
        CoveredSinceMore(p, old(seen), middle, seen);
      }
      ok := true;
      assert Covered(p, from, seen);
      AndFrom(before, from);
    }

    lemma Fresh(s: set<Node>)
      ensures CoveredSince(p, s, s)
    {
    }

    lemma AndFrom(before: set<Node>, from: Node)
      requires CoveredSince(p, before + {from}, seen) && Covered(p, from, seen)
      ensures CoveredSince(p, before, seen)
    {
    }

    /** The code section, with the entry point in front. */
    ghost predicate TextLaidOut()
      reads this`funclocs, this`funcsyms, this`fnbs
    {
      LaidOut(p, Text, funcsyms, funclocs, fnbs) && (funcsyms != [] ==> funcsyms[0].name == ENTRY)
    }

    ghost predicate AllCollected()
      reads this`funclocs, this`relocations, this`origin
    {
      && FromFunctions(p, funclocs, origin, relocations)
      && forall q :: q in p.funcs ==> Collected(p, funclocs, origin, q, |p.funcs[q].relocations|)
    }

    /** Everything placed is covered; only functions still wait. */
    ghost predicate AllCovered()
      reads this`seen, this`funclocs
    {
      forall n :: n in seen && (n.Code? ==> n.name in funclocs) ==> Covered(p, n, seen)
    }

    /** Places the next function of the worklist; false if it refers to a symbol
        that does not exist. */
    method PlaceNext() returns (ok: bool)
      requires Valid() && TextLaidOut() && AllCollected() && AllCovered() && needfn != []
      requires ENTRY in funclocs || QName(needfn[0]) == ENTRY
      modifies this
      ensures ok ==> Valid() && TextLaidOut() && AllCollected() && AllCovered() && ENTRY in funclocs
      ensures ok ==> old(funclocs.Keys) < funclocs.Keys <= p.funcs.Keys
      ensures !ok ==> Dangling(p)
    {
      hide Reachable, LaidOut, Covered, Dangling, Queue, Seen, FromFunctions, Collected, Stamped, DataLaidOut, CoveredSince;
      var current := needfn[0];
      var qname := QName(current);
      Waiting();
      PlacedAreSeen();
      var foffset := Uint32(|fnbs|);
      LayOutNext(p, Text, funcsyms, funclocs, fnbs, qname);
      if funcsyms == [] { NothingPlaced(p, funclocs, fnbs); }
      CollectFirst(p, funclocs, origin, relocations, qname, foffset);
      ghost var before := seen;
      Start(current, foffset);
      funcsyms := funcsyms + [SectSym(qname, foffset, |current.body|)];
      ok := Scan(current, foffset);
      if !ok { return; }
      fnbs := fnbs + current.body;
      NewlyCovered(before, qname);
      CollectedAll(p, funclocs, origin, qname);
    }

    lemma Waiting()
      requires Valid() && needfn != []
      ensures QName(needfn[0]) in p.funcs && p.funcs[QName(needfn[0])] == needfn[0] && QName(needfn[0]) !in funclocs
      ensures Code(QName(needfn[0])) in seen
    {
      assert needfn[0] in needfn && Waits(needfn, QName(needfn[0]));
    }

    /** Takes a function off the worklist and fixes its place. */
    method Start(current: Function, foffset: int)
      requires Valid() && needfn != [] && current == needfn[0] && (ENTRY in funclocs || QName(current) == ENTRY)
      modifies this`needfn, this`funclocs
      ensures Valid() && funclocs == old(funclocs)[QName(current) := foffset] && ENTRY in funclocs
    {
      hide Reachable, LaidOut, SeenIs;
      SeenWaits(needfn, funclocs.Keys, varlocs.Keys, datalocs.Keys, seen, current);
      needfn := needfn[1..];
      funclocs := funclocs[QName(current) := foffset];
      assert funclocs.Keys == old(funclocs.Keys) + {QName(current)};
    }

    /** Makes sure that the targets of a function are placed and collects its relocations. */
    method Scan(current: Function, foffset: int) returns (ok: bool)
      requires Valid() && ENTRY in funclocs && QName(current) in p.funcs && p.funcs[QName(current)] == current
      requires QName(current) in funclocs && funclocs[QName(current)] == foffset && Code(QName(current)) in seen
      requires FromFunctions(p, funclocs, origin, relocations) && Collected(p, funclocs, origin, QName(current), 0)
      requires forall j :: (QName(current), j) !in origin
      modifies this`varlocs, this`varsyms, this`varbs, this`datalocs, this`datasyms, this`databs
      modifies this`needfn, this`needfnm, this`seen, this`relocations, this`origin
      ensures Valid() && old(seen) <= seen
      ensures ok ==> CoveredSince(p, old(seen), seen) && Covered(p, Code(QName(current)), seen)
      ensures ok ==> FromFunctions(p, funclocs, origin, relocations) &&
                     Collected(p, funclocs, origin, QName(current), |current.relocations|)
      ensures !ok ==> Dangling(p)
    {
      hide Reachable, LaidOut, Dangling, Queue, Seen, Stamped, Fits, CoveredSince, FromFunctions, Collected;
      ghost var q := QName(current);
      SeenIsReachable(Code(q));
      Fresh(old(seen));
      for i := 0 to |current.relocations|
        invariant Valid() && old(seen) <= seen && CoveredSince(p, old(seen), seen)
        invariant FromFunctions(p, funclocs, origin, relocations) && Collected(p, funclocs, origin, q, i)
        invariant forall j :: j >= i ==> (q, j) !in origin
        invariant forall j :: 0 <= j < i ==>
                    Find(p, current.relocations[j].symbol).Some? && Find(p, current.relocations[j].symbol).value in seen
      {
        ghost var middle := seen;
        var r := current.relocations[i];
        ok := AddNeededDataReloc(r.symbol, Code(q));
        if !ok { return; }
        CoveredSinceMore(p, old(seen), middle, seen);
        CollectNext(p, funclocs, origin, relocations, q, i);
        relocations := relocations + [Shift(r, foffset)];
        origin := origin + [(q, i)];
      }
      ok := true;
    }

    lemma SeenIsReachable(n: Node)
      requires Valid() && n in seen
      ensures Reachable(p, n) && Defined(p, n)
    {
    }

    lemma NewlyCovered(before: set<Node>, qname: string)
      requires CoveredSince(p, before, seen) && before <= seen && Covered(p, Code(qname), seen) && qname in funclocs
      requires forall n :: n in before && (n.Code? ==> n.name in funclocs && n.name != qname) ==> Covered(p, n, before)
      requires forall q :: q in funclocs ==> Code(q) in before
      ensures AllCovered()
    {
      forall n | n in seen && (n.Code? ==> n.name in funclocs) ensures Covered(p, n, seen) {
        if n in before && n != Code(qname) { CoveredMore(p, n, before, seen); }
      }
    }

    lemma PlacedAreSeen()
      requires Valid()
      ensures forall q :: q in funclocs ==> q in p.funcs && Code(q) in seen
    {
      forall q | q in funclocs ensures q in p.funcs && Code(q) in seen {
        assert Code(q) in seen && Defined(p, Code(q));
      }
    }

    /** Starts with the entry point as the only function to be placed. */
    constructor (p: Program)
      requires Stamped(p) && Fits(p) && ENTRY in p.funcs
      ensures this.p == p && Valid() && TextLaidOut() && AllCollected() && AllCovered()
      ensures needfn == [p.funcs[ENTRY]] && funclocs == map[]
    {
      this.p := p;
      funclocs, varlocs, datalocs := map[], map[], map[];
      funcsyms, varsyms, datasyms := [], [], [];
      fnbs, varbs, databs := [], [], [];
      needfn, needfnm, relocations := [p.funcs[ENTRY]], {}, [];
      seen, origin := {Code(ENTRY)}, [];
      new;
      hide Reachable, LaidOut, SeenIs, Covered;
      EntryIsReachable(p);
      IsKnown(ENTRY);
      Initially(p, p.funcs[ENTRY]);
    }

    /** Places everything that the entry point reaches: it succeeds exactly if
        nothing reachable refers to a symbol that does not exist, and places
        exactly what is reachable. */
    method Place() returns (ok: bool)
      requires Valid() && TextLaidOut() && AllCollected() && AllCovered()
      requires ENTRY in p.funcs && needfn == [p.funcs[ENTRY]] && funclocs == map[]
      modifies this
      ensures ok <==> Linkable(p)
      ensures ok ==> Valid() && TextLaidOut() && AllCollected() && needfn == []
      ensures ok ==> forall n :: n in seen <==> Reachable(p, n)
      ensures ok ==> forall n :: n in seen ==> Covered(p, n, seen)
    {
      hide Queue, SeenIs, DataLaidOut, TextLaidOut, AllCollected, Reachable, Covered, Dangling;
      IsKnown(ENTRY);
      EntryWaits();
      while needfn != []
        invariant Valid() && TextLaidOut() && AllCollected() && AllCovered()
        invariant ENTRY in funclocs || (needfn != [] && QName(needfn[0]) == ENTRY)
        invariant Code(ENTRY) in seen
        decreases p.funcs.Keys - funclocs.Keys
      {
        ok := PlaceNext();
        if !ok { return; }
        PlacedAreSeen();
      }
      NothingWaits();
      ClosedIsAll(p, seen);
      ok := true;
    }

    lemma EntryWaits()
      requires Valid() && ENTRY in p.funcs && needfn == [p.funcs[ENTRY]]
      ensures Code(ENTRY) in seen
    {
      assert needfn[0] in needfn && Waits(needfn, ENTRY);
    }

    lemma NothingWaits()
      requires Valid() && needfn == []
      ensures forall q :: Code(q) in seen <==> q in funclocs
    {
      assert forall q :: !Waits(needfn, q);
    }
  }
}
