/** What the ownership checker promises beyond safety: without loops, every
    resource is taken exactly once before the function is left. */
module OwnershipExact {
  import opened Wrappers
  import opened Boson
  import opened Ownership
  import opened OwnershipGiven
  import opened OwnershipSoundness
  import opened Lowering

  /** Whether x holds a resource after a trace; `None` once a resource has been
      overwritten while held or taken while not held. */
  function Holding(trace: seq<Event>, x: Name): Option<bool> {
    if trace == [] then Some(false)
    else
      var before, last := Holding(trace[..|trace| - 1], x), trace[|trace| - 1];
      if last == Gave(x) then (if before == Some(false) then Some(true) else None)
      else if last == Took(x) then (if before == Some(true) then Some(false) else None)
      else before
  }

  lemma HoldingSnoc(trace: seq<Event>, e: Event, x: Name)
    ensures Holding(trace + [e], x) ==
              if e == Gave(x) then (if Holding(trace, x) == Some(false) then Some(true) else None)
              else if e == Took(x) then (if Holding(trace, x) == Some(true) then Some(false) else None)
              else Holding(trace, x)
  {
    assert (trace + [e])[..|trace + [e]| - 1] == trace;
  }

  /** The trace tells which bindings are live: nothing was given twice or lost. */
  ghost predicate Exactly(w: World) { forall x :: Holding(w.trace, x) == Some(x in w.live) }

  /** What is live is in scope, and the checker knows that it is. */
  ghost predicate Known(env: Env, w: World) { forall x <- w.live :: x in env.names && x !in env.moved }

  ghost predicate Settled(w: World) { forall x :: Holding(w.trace, x) == Some(false) }

  predicate LoopFree(s: Stmt) {
    match s
    case If(_, thn, els) => LoopFree(thn) && (els.Some? ==> LoopFree(els.value))
    case Block(stmts) => forall i :: 0 <= i < |stmts| ==> LoopFree(stmts[i])
    case Loop(_) => false
    case Break => false
    case Continue(_) => false
    case For(_, _, _, _) => false
    case _ => true
  }

  /** No join forgets a resource: where both arms fall through the checker goes by the
      flags of the first for the names which that one binds, and so the other must
      not leave one of them given. */
  predicate Keeps(s: Stmt, g: set<Name>, n: set<Name>)
    decreases s, 1
  {
    match s
    case If(_, thn, els) =>
      && Keeps(thn, g, n)
      && (els.Some? ==> Keeps(els.value, g, n + Binds(thn, {})) && !Forgets(s, g, n))
    case Block(stmts) => AllKeep(stmts, g, n)
    case _ => true
  }

  predicate AllKeep(ss: seq<Stmt>, g: set<Name>, n: set<Name>)
    decreases ss, 0
  {
    ss == [] ||
    (Keeps(ss[0], g, n) && var a := After(ss[0], g, n); a.normal.Some? ==> AllKeep(ss[1..], a.normal.value, n))
  }

  predicate Forgets(s: Stmt, g: set<Name>, n: set<Name>)
    requires s.If? && s.els.Some?
  {
    var e := After(s.els.value, g, n + Binds(s.thn, {})).normal;
    FallsThrough(s.thn) && e.Some? && e.value * Binds(s.thn, {}) != {}
  }

  // ----- single effects -----

  lemma TakeExactly(x: Name, w: World)
    requires Exactly(w) && x in w.live
    ensures Exactly(TakeName(x, w).w)
  {
    forall y ensures Holding(TakeName(x, w).w.trace, y) == Some(y in w.live - {x}) {
      assert Holding(w.trace, y) == Some(y in w.live);
      HoldingSnoc(w.trace, Took(x), y);
    }
  }

  lemma GiveExactly(x: Name, w: World)
    requires Exactly(w) && x !in w.live
    ensures Exactly(GiveName(x, w))
  {
    forall y ensures Holding(GiveName(x, w).trace, y) == Some(y in w.live + {x}) {
      assert Holding(w.trace, y) == Some(y in w.live);
      HoldingSnoc(w.trace, Gave(x), y);
    }
  }

  lemma SourceExactly(src: Source, w: World)
    requires Exactly(w) && SourceNames(Some(src)) <= w.live
    ensures TakeSource(src, w).out.Normal? && Exactly(TakeSource(src, w).w)
  {
    if src.From? { TakeExactly(src.name, w); }
  }

  /** Reading and testing leave no mark on what is held. */
  lemma {:induction false} ReadAllHolds(xs: seq<Name>, w: World, x: Name)
    ensures Holding(ReadAll(xs, w).w.trace, x) == Holding(w.trace, x)
  {
    if xs != [] && xs[0] in w.live {
      HoldingSnoc(w.trace, Read(xs[0]), x);
      ReadAllHolds(xs[1..], ReadName(xs[0], w).w, x);
    }
  }

  lemma {:induction false} TestHolds(c: Cond, w: World, x: Name)
    ensures Holding(Test(c, w).0.w.trace, x) == Holding(w.trace, x)
  {
    match c
    case Reads(xs) =>
      ReadAllHolds(xs, w, x);
      var v := ReadAll(xs, w).w;
      HoldingSnoc(v.trace, Tested(v.coins(v.tossed)), x);
    case Not(a) => TestHolds(a, w, x);
  }

  // ----- nothing is lost -----

  /** Where the checker takes a name to be live, it is given. */
  lemma {:induction false} Backed(s: Stmt, x: Name, g: set<Name>, n: set<Name>, f: Flow)
    requires LoopFree(s) && Check(s, f).Some? && x in f.env.names && (x in f.env.moved || x in g)
    ensures var a := After(s, g, n).normal; a.Some? ==> x in Check(s, f).value.env.moved || x in a.value
    decreases s, 1
  {
    match s
    case If(_, thn, els) =>
      Backed(thn, x, g, n, f);
      CheckRecords(thn, f);
      if !FallsThrough(thn) { NoEnd(thn, g, n); }
      if els.Some? {
        var t := Check(thn, f).value;
        var start := t.(env := Restore(t.env, f.env));
        if !FallsThrough(els.value) { NoEnd(els.value, g, n + Binds(thn, {})); }
        Backed(els.value, x, g, n + Binds(thn, {}), start);
        CheckRecords(els.value, start);
      }
    case Block(stmts) =>
      CheckAllRecords(stmts, f);
      AllBacked(stmts, x, g, n, f);
    case _ =>
  }

  lemma {:induction false} AllBacked(ss: seq<Stmt>, x: Name, g: set<Name>, n: set<Name>, f: Flow)
    requires forall i :: 0 <= i < |ss| ==> LoopFree(ss[i])
    requires CheckAll(ss, f).Some? && x in f.env.names && (x in f.env.moved || x in g)
    ensures var a := AllAfter(ss, g, n).normal; a.Some? ==> x in CheckAll(ss, f).value.env.moved || x in a.value
    decreases ss, 0
  {
    if ss != [] {
      Backed(ss[0], x, g, n, f);
      if !FallsThrough(ss[0]) { NoEnd(ss[0], g, n); }
      var a := After(ss[0], g, n);
      if a.normal.Some? { AllBacked(ss[1..], x, a.normal.value, n, Check(ss[0], f).value); }
    }
  }

  /** How a run ends that lost nothing. */
  ghost predicate Settles(r: Flow, e: Result) {
    match e.out
    case Normal => Exactly(e.w) && Known(r.env, e.w)
    case Returned => Settled(e.w)
    case _ => false
  }

  /** The checker's flags are exactly what the run holds, at every statement. */
  lemma {:induction false} CheckSettlesRuns(s: Stmt, g: set<Name>, n: set<Name>, f: Flow, w: World, fuel: nat)
    requires LoopFree(s) && Check(s, f).Some? && Given(s, g, n) && Keeps(s, g, n)
    requires g <= f.env.names && Covers(g, n, f.env, w.live) && Exactly(w) && Known(f.env, w)
    ensures Settles(Check(s, f).value, Exec(s, {}, w, fuel))
    decreases s, 1
  {
    CheckExplainsRuns(s, g, n, f, w, fuel);
    match s
    case Use(x) =>
      forall y ensures Holding(w.trace + [Read(x)], y) == Holding(w.trace, y) { HoldingSnoc(w.trace, Read(x), y); }
    case Consume(x) => TakeExactly(x, w);
    case Dispose(x) => TakeExactly(x, w);
    case Declare(x, init) =>
      assert Drop({x}, w).live == w.live;
      if init.Some? {
        SourceExactly(init.value, Drop({x}, w));
        GiveExactly(x, TakeSource(init.value, Drop({x}, w)).w);
      }
    case Assign(x, src) =>
      SourceExactly(src, w);
      GiveExactly(x, TakeSource(src, w).w);
    case Return(val) => if val.Some? { SourceExactly(val.value, w); }
    case If(_, _, _) => IfSettles(s, g, n, f, w, fuel);
    case Block(stmts) => BlockSettles(stmts, g, n, f, w, fuel);
  }

  lemma {:induction false} IfSettles(s: Stmt, g: set<Name>, n: set<Name>, f: Flow, w: World, fuel: nat)
    requires s.If? && LoopFree(s) && Check(s, f).Some? && Given(s, g, n) && Keeps(s, g, n)
    requires g <= f.env.names && Covers(g, n, f.env, w.live) && Exactly(w) && Known(f.env, w)
    ensures Settles(Check(s, f).value, Exec(s, {}, w, fuel))
    decreases s, 0
  {
    TestCovered(s.cond, g, n, f.env, w);
    var (c, b) := Test(s.cond, w);
    forall x ensures Holding(c.w.trace, x) == Holding(w.trace, x) { TestHolds(s.cond, w, x); }
    CheckRecords(s.thn, f);
    var t := Check(s.thn, f).value;
    var start := t.(env := Restore(t.env, f.env));
    if b {
      CheckSettlesRuns(s.thn, g, n, f, c.w, fuel);
      CheckExplainsRuns(s.thn, g, n, f, c.w, fuel);
      if s.els.Some? { CheckRecords(s.els.value, start); }
    } else if s.els.Some? {
      var inner := n + Binds(s.thn, {});
      assert Covers(g, inner, start.env, c.w.live);
      CheckSettlesRuns(s.els.value, g, inner, start, c.w, fuel);
      CheckExplainsRuns(s.els.value, g, inner, start, c.w, fuel);
      var e := Exec(s.els.value, {}, c.w, fuel);
      if e.out.Normal? { ElseKnown(s, g, n, f, e.w); }
    }
  }

  /** After the `else` arm of a join that forgets nothing the checker knows what is live. */
  lemma ElseKnown(s: Stmt, g: set<Name>, n: set<Name>, f: Flow, w: World)
    requires s.If? && s.els.Some? && LoopFree(s) && Check(s, f).Some? && !Forgets(s, g, n) && g <= f.env.names
    requires FallsThrough(s.els.value) && After(s.els.value, g, n + Binds(s.thn, {})).normal.Some?
    requires var t := Check(s.thn, f).value;
             Known(Check(s.els.value, t.(env := Restore(t.env, f.env))).value.env, w)
    ensures Known(Check(s, f).value.env, w)
  {
    CheckRecords(s.thn, f);
    var t := Check(s.thn, f).value;
    var start := t.(env := Restore(t.env, f.env));
    CheckRecords(s.els.value, start);
    forall x | x in w.live && FallsThrough(s.thn) && x in Binds(s.thn, {}) && x in t.env.moved ensures false {
      Backed(s.els.value, x, g, n + Binds(s.thn, {}), start);
    }
  }

  lemma {:induction false} BlockSettles(ss: seq<Stmt>, g: set<Name>, n: set<Name>, f: Flow, w: World, fuel: nat)
    requires LoopFree(Block(ss)) && Check(Block(ss), f).Some? && AllGiven(ss, g, n) && AllKeep(ss, g, n)
    requires g <= f.env.names && Covers(g, n, f.env, w.live) && Exactly(w) && Known(f.env, w)
    ensures Settles(Check(Block(ss), f).value, Exec(Block(ss), {}, w, fuel))
    decreases ss, 1
  {
    AllSettle(ss, g, n, f, w, fuel);
    AllExplained(ss, g, n, f, w, fuel);
    CheckAllRecords(ss, f);
    var e, b := ExecAll(ss, {}, w, fuel), CheckAll(ss, f).value;
    if e.out.Normal? {
      assert forall x <- e.w.live :: x in f.env.names;
      assert e.w.live - AllBinds(ss, {}) == e.w.live;
    }
  }

  lemma {:induction false} AllSettle(ss: seq<Stmt>, g: set<Name>, n: set<Name>, f: Flow, w: World, fuel: nat)
    requires forall i :: 0 <= i < |ss| ==> LoopFree(ss[i])
    requires CheckAll(ss, f).Some? && AllGiven(ss, g, n) && AllKeep(ss, g, n)
    requires g <= f.env.names && Covers(g, n, f.env, w.live) && Exactly(w) && Known(f.env, w)
    ensures Settles(CheckAll(ss, f).value, ExecAll(ss, {}, w, fuel))
    decreases ss, 0
  {
    if ss != [] {
      CheckSettlesRuns(ss[0], g, n, f, w, fuel);
      CheckExplainsRuns(ss[0], g, n, f, w, fuel);
      GivenInScope(ss[0], g, n, f);
      var a, e := After(ss[0], g, n), Exec(ss[0], {}, w, fuel);
      if e.out.Normal? { AllSettle(ss[1..], a.normal.value, n, Check(ss[0], f).value, e.w, fuel); }
    }
  }
}
