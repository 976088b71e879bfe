/** Soundness of the ownership checker over all runs: an accepted body in which
    every use is of a name that is certainly given never uses a binding that holds
    no resource, and no other accepted body has that property. */
module OwnershipSoundness {
  import opened Wrappers
  import opened Boson
  import opened Ownership
  import opened OwnershipGiven
  import opened Lowering

  // ----- what checking records -----

  function Breaks(f: Flow): seq<Env> { if f.frames == [] then [] else f.frames[|f.frames| - 1].breaks }

  function Conts(f: Flow): seq<Env> { if f.frames == [] then [] else f.frames[|f.frames| - 1].conts }

  /** What checking a statement may do to the loop frames: record snapshots,
      each of all the bindings visible before it, in the innermost one. */
  ghost predicate Records(f: Flow, r: Flow) {
    && |r.frames| == |f.frames|
    && (f.frames != [] ==> r.frames[..|f.frames| - 1] == f.frames[..|f.frames| - 1])
    && Breaks(f) <= Breaks(r)
    && Conts(f) <= Conts(r)
    && (forall k :: |Breaks(f)| <= k < |Breaks(r)| ==> f.env.names <= Breaks(r)[k].names)
    && (forall k :: |Conts(f)| <= k < |Conts(r)| ==> f.env.names <= Conts(r)[k].names)
  }

  /** Checking leaves the names in scope that the statement binds. */
  ghost predicate Scopes(f: Flow, r: Flow, bound: set<Name>) {
    r.env.names == f.env.names + bound && bound !! f.env.names
  }

  lemma RecordsTransitive(f: Flow, g: Flow, h: Flow)
    requires Records(f, g) && Records(g, h) && f.env.names <= g.env.names
    ensures Records(f, h)
  {
  }

  lemma {:induction false} CheckRecords(s: Stmt, f: Flow)
    requires Check(s, f).Some?
    ensures Records(f, Check(s, f).value) && Scopes(f, Check(s, f).value, Binds(s, {}))
    decreases s, 1
  {
    match s
    case If(_, _, _) => IfRecords(s, f);
    case Loop(_) => LoopRecords(s, f);
    case Block(stmts) => CheckAllRecords(stmts, f);
    case Continue(_) => ContinueRecords(s, f);
    case Break => RecordingRecords(f);
    case _ => assert Check(s, f).value.frames == f.frames;
  }

  lemma RecordingRecords(f: Flow)
    requires f.frames != []
    ensures Records(f, RecordBreak(f)) && Records(f, RecordContinue(f))
  {
  }

  lemma {:induction false} ContinueRecords(s: Stmt, f: Flow)
    requires s.Continue? && Check(s, f).Some?
    ensures Records(f, Check(s, f).value) && Scopes(f, Check(s, f).value, Binds(s, {}))
    decreases s, 0
  {
    hide Records;
    var t := if s.step.Some? then Check(s.step.value, f).value else f;
    RecordingRecords(t);
    if s.step.Some? {
      CheckRecords(s.step.value, f);
      RecordsTransitive(f, t, RecordContinue(t));
    }
  }

  lemma {:induction false} IfRecords(s: Stmt, f: Flow)
    requires s.If? && Check(s, f).Some?
    ensures Records(f, Check(s, f).value) && Scopes(f, Check(s, f).value, Binds(s, {}))
    decreases s, 0
  {
    CheckRecords(s.thn, f);
    var t := Check(s.thn, f).value;
    var g := t.(env := Restore(t.env, f.env));
    if s.els.Some? {
      CheckRecords(s.els.value, g);
      RecordsTransitive(f, g, Check(s.els.value, g).value);
    }
  }

  lemma {:induction false} LoopRecords(s: Stmt, f: Flow)
    requires s.Loop? && Check(s, f).Some?
    ensures Records(f, Check(s, f).value) && Scopes(f, Check(s, f).value, Binds(s, {}))
    decreases s, 0
  {
    var fb := f.(frames := f.frames + [Frame([], [])]);
    CheckRecords(s.body, fb);
    assert fb.frames[..|f.frames|] == f.frames;
    assert Check(s, f).value.frames == f.frames;
  }

  lemma {:induction false} CheckAllRecords(ss: seq<Stmt>, f: Flow)
    requires CheckAll(ss, f).Some?
    ensures Records(f, CheckAll(ss, f).value) && Scopes(f, CheckAll(ss, f).value, AllBinds(ss, {}))
    decreases ss, 0
  {
    if ss != [] {
      CheckRecords(ss[0], f);
      var r := Check(ss[0], f).value;
      if FallsThrough(ss[0]) {
        CheckAllRecords(ss[1..], r);
        RecordsTransitive(f, r, CheckAll(ss[1..], r).value);
      }
    }
  }

  // ----- what is given is in scope -----

  lemma {:induction false} NoEnd(s: Stmt, g: set<Name>, n: set<Name>)
    requires !FallsThrough(s)
    ensures After(s, g, n).normal.None?
    decreases s, 1
  {
    match s
    case If(_, thn, els) =>
      NoEnd(thn, g, n);
      NoEnd(els.value, g, n + Binds(thn, {}));
    case Block(stmts) => AllNoEnd(stmts, g, n);
    case _ =>
  }

  lemma {:induction false} AllNoEnd(ss: seq<Stmt>, g: set<Name>, n: set<Name>)
    requires !FallsThrough(Block(ss))
    ensures AllAfter(ss, g, n).normal.None?
    decreases ss, 0
  {
    if !FallsThrough(ss[0]) {
      NoEnd(ss[0], g, n);
    } else if After(ss[0], g, n).normal.Some? {
      AllFall(ss);
      AllNoEnd(ss[1..], After(ss[0], g, n).normal.value, n);
    }
  }

  predicate Inside(a: Ways, names: set<Name>) {
    && (a.normal.Some? ==> a.normal.value <= names)
    && (a.breaks.Some? ==> a.breaks.value <= names)
    && (a.conts.Some? ==> a.conts.value <= names)
  }

  lemma {:induction false} GivenInScope(s: Stmt, g: set<Name>, n: set<Name>, f: Flow)
    requires Check(s, f).Some? && g <= f.env.names
    ensures Inside(After(s, g, n), Check(s, f).value.env.names)
    decreases s, 1
  {
    CheckRecords(s, f);
    match s
    case If(_, thn, els) =>
      GivenInScope(thn, g, n, f);
      CheckRecords(thn, f);
      if els.Some? {
        var t := Check(thn, f).value;
        var e := t.(env := Restore(t.env, f.env));
        CheckRecords(els.value, e);
        GivenInScope(els.value, g, n + Binds(thn, {}), e);
      }
    case Loop(body) =>
      HeadStays(body, g, n);
      var fb := f.(frames := f.frames + [Frame([], [])]);
      CheckRecords(body, fb);
      GivenInScope(body, Head(body, g, n), n + Binds(body, {}), fb);
    case Block(stmts) =>
      CheckAllRecords(stmts, f);
      AllGivenInScope(stmts, g, n, f);
    case Continue(step) => if step.Some? { GivenInScope(step.value, g, n, f); }
    case _ =>
  }

  lemma {:induction false} AllGivenInScope(ss: seq<Stmt>, g: set<Name>, n: set<Name>, f: Flow)
    requires CheckAll(ss, f).Some? && g <= f.env.names
    ensures Inside(AllAfter(ss, g, n), CheckAll(ss, f).value.env.names)
    decreases ss, 0
  {
    if ss != [] {
      GivenInScope(ss[0], g, n, f);
      var a := After(ss[0], g, n);
      if a.normal.Some? {
        if !FallsThrough(ss[0]) { NoEnd(ss[0], g, n); }
        AllGivenInScope(ss[1..], a.normal.value, n, Check(ss[0], f).value);
      }
    }
  }

  // ----- what is not given is not touched -----

  /** No way out has it given, nor has the checker marked it moved where there is
      a way out. */
  ghost predicate Idle(x: Name, a: Ways, f: Flow, r: Flow) {
    && (a.normal.Some? ==> x !in a.normal.value && x !in r.env.moved)
    && (a.breaks.Some? ==> x !in a.breaks.value && exists k :: |Breaks(f)| <= k < |Breaks(r)| && x !in Breaks(r)[k].moved)
    && (a.conts.Some? ==> x !in a.conts.value)
  }

  lemma IdleOn(x: Name, a: Ways, f: Flow, t: Flow, r: Flow)
    requires Idle(x, a, f, t) && a.breaks.Some? && Breaks(t) <= Breaks(r)
    ensures exists k :: |Breaks(f)| <= k < |Breaks(r)| && x !in Breaks(r)[k].moved
  {
    var k :| |Breaks(f)| <= k < |Breaks(t)| && x !in Breaks(t)[k].moved;
    assert Breaks(r)[k] == Breaks(t)[k];
  }

  lemma {:induction false} Untouched(s: Stmt, x: Name, g: set<Name>, n: set<Name>, f: Flow)
    requires Check(s, f).Some? && Given(s, g, n)
    requires x in f.env.names && x !in g && x !in f.env.moved
    ensures Idle(x, After(s, g, n), f, Check(s, f).value)
    decreases s, 1
  {
    match s
    case If(_, _, _) => IfUntouched(s, x, g, n, f);
    case Loop(_) => LoopUntouched(s, x, g, n, f);
    case Block(stmts) =>
      CheckRecords(s, f);
      CheckAllRecords(stmts, f);
      AllUntouched(stmts, x, g, n, f);
      if After(s, g, n).breaks.Some? {
        IdleOn(x, AllAfter(stmts, g, n), f, CheckAll(stmts, f).value, Check(s, f).value);
      }
    case Continue(step) =>
      if step.Some? {
        Untouched(step.value, x, g, n, f);
        var t := Check(step.value, f).value;
        if After(s, g, n).breaks.Some? { IdleOn(x, After(step.value, g, n), f, t, Check(s, f).value); }
      }
    case Break => assert Breaks(Check(s, f).value)[|Breaks(f)|] == f.env;
    case _ =>
  }

  lemma {:induction false} IfUntouched(s: Stmt, x: Name, g: set<Name>, n: set<Name>, f: Flow)
    requires s.If? && Check(s, f).Some? && Given(s, g, n)
    requires x in f.env.names && x !in g && x !in f.env.moved
    ensures Idle(x, After(s, g, n), f, Check(s, f).value)
    decreases s, 0
  {
    Untouched(s.thn, x, g, n, f);
    CheckRecords(s.thn, f);
    if !FallsThrough(s.thn) { NoEnd(s.thn, g, n); }
    var t := Check(s.thn, f).value;
    var e := t.(env := Restore(t.env, f.env));
    var r := Check(s, f).value;
    if s.els.Some? {
      if !FallsThrough(s.els.value) { NoEnd(s.els.value, g, n + Binds(s.thn, {})); }
      Untouched(s.els.value, x, g, n + Binds(s.thn, {}), e);
      CheckRecords(s.els.value, e);
      if After(s.els.value, g, n + Binds(s.thn, {})).breaks.Some? {
        IdleOn(x, After(s.els.value, g, n + Binds(s.thn, {})), e, Check(s.els.value, e).value, r);
      }
    }
    if After(s.thn, g, n).breaks.Some? { IdleOn(x, After(s.thn, g, n), f, t, r); }
  }

  lemma {:induction false} LoopUntouched(s: Stmt, x: Name, g: set<Name>, n: set<Name>, f: Flow)
    requires s.Loop? && Check(s, f).Some? && Given(s, g, n)
    requires x in f.env.names && x !in g && x !in f.env.moved
    ensures Idle(x, After(s, g, n), f, Check(s, f).value)
    decreases s, 0
  {
    HeadStays(s.body, g, n);
    var fb := f.(frames := f.frames + [Frame([], [])]);
    Untouched(s.body, x, Head(s.body, g, n), n + Binds(s.body, {}), fb);
    CheckRecords(s.body, fb);
  }

  lemma {:induction false} AllUntouched(ss: seq<Stmt>, x: Name, g: set<Name>, n: set<Name>, f: Flow)
    requires CheckAll(ss, f).Some? && AllGiven(ss, g, n)
    requires x in f.env.names && x !in g && x !in f.env.moved
    ensures Idle(x, AllAfter(ss, g, n), f, CheckAll(ss, f).value)
    decreases ss, 0
  {
    if ss != [] {
      Untouched(ss[0], x, g, n, f);
      CheckRecords(ss[0], f);
      var a, t := After(ss[0], g, n), Check(ss[0], f).value;
      if !FallsThrough(ss[0]) {
        NoEnd(ss[0], g, n);
      } else {
        CheckAllRecords(ss[1..], t);
        var r := CheckAll(ss[1..], t).value;
        if a.breaks.Some? { IdleOn(x, a, f, t, r); }
        if a.normal.Some? { AllUntouched(ss[1..], x, a.normal.value, n, t); }
      }
    }
  }

  // ----- runs -----

  /** The checker under-approximates the run: a given name that it takes to be live
      is live, and so is every given name of n. */
  ghost predicate Covers(g: set<Name>, n: set<Name>, env: Env, live: set<Name>) {
    forall x <- g :: (x in n || x !in env.moved) ==> x in live
  }

  ghost predicate CoveredByOne(g: Option<set<Name>>, n: set<Name>, snaps: seq<Env>, from: nat, live: set<Name>) {
    g.Some? && exists k :: from <= k < |snaps| && Covers(g.value, n, snaps[k], live)
  }

  /** How a run from a covered state may end, given the checker's result. */
  ghost predicate Explains(s: Stmt, a: Ways, n: set<Name>, f: Flow, r: Flow, e: Result) {
    match e.out
    case Normal => FallsThrough(s) && a.normal.Some? && Covers(a.normal.value, n, r.env, e.w.live)
    case Broke => CoveredByOne(a.breaks, n, Breaks(r), |Breaks(f)|, e.w.live)
    case Continued(left) => CoveredByOne(a.conts, n, Conts(r), |Conts(f)|, e.w.live - left)
    case NotHeld(_) => false
    case _ => true
  }

  lemma {:induction false} TestCovered(c: Cond, g: set<Name>, n: set<Name>, env: Env, w: World)
    requires CheckCond(c, env) && Covers(g, n, env, w.live) && forall x <- CondNames(c) :: x in g
    ensures var r := Test(c, w).0; r.out.Normal? && r.w.live == w.live && r.w.coins == w.coins
  {
    match c
    case Reads(xs) => ReadAllCovered(xs, g, n, env, w);
    case Not(a) => TestCovered(a, g, n, env, w);
  }

  lemma {:induction false} ReadAllCovered(xs: seq<Name>, g: set<Name>, n: set<Name>, env: Env, w: World)
    requires (forall x <- xs :: Available(x, env) && x in g) && Covers(g, n, env, w.live)
    ensures var r := ReadAll(xs, w); r.out.Normal? && r.w.live == w.live && r.w.coins == w.coins
  {
    if xs != [] {
      assert xs[0] in g && Available(xs[0], env);
      ReadAllCovered(xs[1..], g, n, env, ReadName(xs[0], w).w);
    }
  }

  lemma {:induction false} CheckExplainsRuns(s: Stmt, g: set<Name>, n: set<Name>, f: Flow, w: World, fuel: nat)
    requires Check(s, f).Some? && Given(s, g, n) && g <= f.env.names && Covers(g, n, f.env, w.live)
    ensures Explains(s, After(s, g, n), n, f, Check(s, f).value, Exec(s, {}, w, fuel))
    decreases fuel, s, 1
  {
    match s
    case If(_, _, _) => IfExplained(s, g, n, f, w, fuel);
    case Loop(body) =>
      HeadStays(body, g, n);
      CheckRecords(s, f);
      LoopExplained(s, Head(body, g, n), n, f, w, fuel);
    case Block(_) => BlockExplained(s, g, n, f, w, fuel);
    case Continue(_) => ContinueExplained(s, g, n, f, w, fuel);
    case Break => assert Breaks(Check(s, f).value)[|Breaks(f)|] == f.env;
    case _ =>
  }

  lemma CoveredOn(g: Option<set<Name>>, n: set<Name>, was: seq<Env>, now: seq<Env>, from: nat, live: set<Name>)
    requires CoveredByOne(g, n, was, from, live) && was <= now
    ensures CoveredByOne(g, n, now, from, live)
  {
    var k :| from <= k < |was| && Covers(g.value, n, was[k], live);
    assert now[k] == was[k];
  }

  lemma {:induction false} ContinueExplained(s: Stmt, g: set<Name>, n: set<Name>, f: Flow, w: World, fuel: nat)
    requires s.Continue? && Check(s, f).Some? && Given(s, g, n) && g <= f.env.names && Covers(g, n, f.env, w.live)
    ensures Explains(s, After(s, g, n), n, f, Check(s, f).value, Exec(s, {}, w, fuel))
    decreases fuel, s, 0
  {
    var r := Check(s, f).value;
    if s.step.None? {
      assert Conts(r)[|Conts(f)|] == f.env;
      assert w.live - {} == w.live;
    } else {
      CheckExplainsRuns(s.step.value, g, n, f, w, fuel);
      CheckRecords(s.step.value, f);
      var t, a := Check(s.step.value, f).value, After(s.step.value, g, n);
      var e := Exec(s.step.value, {}, w, fuel);
      assert Breaks(r) == Breaks(t) && Conts(t) <= Conts(r);
      assert Conts(r)[|Conts(t)|] == t.env;
      if e.out.Normal? { assert e.w.live - {} == e.w.live; }
      if e.out.Continued? { CoveredOn(a.conts, n, Conts(t), Conts(r), |Conts(f)|, e.w.live - e.out.left); }
    }
  }

  lemma {:induction false} BlockExplained(s: Stmt, g: set<Name>, n: set<Name>, f: Flow, w: World, fuel: nat)
    requires s.Block? && Check(s, f).Some? && Given(s, g, n) && g <= f.env.names && Covers(g, n, f.env, w.live)
    ensures Explains(s, After(s, g, n), n, f, Check(s, f).value, Exec(s, {}, w, fuel))
    decreases fuel, s, 0
  {
    var own, a := AllBinds(s.stmts, {}), AllAfter(s.stmts, g, n);
    var b, r := CheckAll(s.stmts, f).value, Check(s, f).value;
    var e := ExecAll(s.stmts, {}, w, fuel);
    AllExplained(s.stmts, g, n, f, w, fuel);
    CheckAllRecords(s.stmts, f);
    AllGivenInScope(s.stmts, g, n, f);
    assert Breaks(r) == Breaks(b) && Conts(r) == Conts(b);
    match e.out
    case Normal => assert Covers(a.normal.value - own, n, r.env, e.w.live - own);
    case Broke =>
      var k :| |Breaks(f)| <= k < |Breaks(r)| && Covers(a.breaks.value, n, Breaks(r)[k], e.w.live);
      assert Covers(a.breaks.value - own, n, Breaks(r)[k], e.w.live - own);
    case Continued(left) =>
      var k :| |Conts(f)| <= k < |Conts(r)| && Covers(a.conts.value, n, Conts(r)[k], e.w.live - left);
      assert Covers(a.conts.value - own, n, Conts(r)[k], e.w.live - (left + own));
    case _ =>
  }

  lemma {:induction false} AllExplained(ss: seq<Stmt>, g: set<Name>, n: set<Name>, f: Flow, w: World, fuel: nat)
    requires CheckAll(ss, f).Some? && AllGiven(ss, g, n) && g <= f.env.names && Covers(g, n, f.env, w.live)
    ensures Explains(Block(ss), AllAfter(ss, g, n), n, f, CheckAll(ss, f).value, ExecAll(ss, {}, w, fuel))
    decreases fuel, ss, 0
  {
    if ss != [] {
      CheckExplainsRuns(ss[0], g, n, f, w, fuel);
      CheckRecords(ss[0], f);
      GivenInScope(ss[0], g, n, f);
      var a, t, e := After(ss[0], g, n), Check(ss[0], f).value, Exec(ss[0], {}, w, fuel);
      AllFall(ss);
      if FallsThrough(ss[0]) {
        var r := CheckAll(ss[1..], t).value;
        CheckAllRecords(ss[1..], t);
        if e.out.Normal? {
          AllExplained(ss[1..], a.normal.value, n, t, e.w, fuel);
          RestExplained(ss, g, n, f, r, ExecAll(ss[1..], {}, e.w, fuel));
        } else {
          FirstExplained(ss, g, n, f, e);
        }
      } else {
        NoEnd(ss[0], g, n);
      }
    }
  }

  /** Covering fewer names is easier. */
  lemma FewerCovered(a: Option<set<Name>>, b: Option<set<Name>>, n: set<Name>, snaps: seq<Env>, from: nat, live: set<Name>)
    requires CoveredByOne(a, n, snaps, from, live)
    ensures CoveredByOne(Meet(a, b), n, snaps, from, live) && CoveredByOne(Meet(b, a), n, snaps, from, live)
  {
    var k :| from <= k < |snaps| && Covers(a.value, n, snaps[k], live);
    assert Covers(Meet(a, b).value, n, snaps[k], live) && Covers(Meet(b, a).value, n, snaps[k], live);
  }

  lemma LaterCovered(a: Option<set<Name>>, n: set<Name>, snaps: seq<Env>, from: nat, earlier: nat, live: set<Name>)
    requires CoveredByOne(a, n, snaps, from, live) && earlier <= from
    ensures CoveredByOne(a, n, snaps, earlier, live)
  {
    var k :| from <= k < |snaps| && Covers(a.value, n, snaps[k], live);
    assert earlier <= k;
  }

  lemma RestExplained(ss: seq<Stmt>, g: set<Name>, n: set<Name>, f: Flow, r: Flow, e: Result)
    requires ss != [] && Check(ss[0], f).Some? && FallsThrough(ss[0]) && After(ss[0], g, n).normal.Some?
    requires Explains(Block(ss[1..]), AllAfter(ss[1..], After(ss[0], g, n).normal.value, n), n, Check(ss[0], f).value, r, e)
    ensures Explains(Block(ss), AllAfter(ss, g, n), n, f, r, e)
  {
    CheckRecords(ss[0], f);
    AllFall(ss);
    var a, t := After(ss[0], g, n), Check(ss[0], f).value;
    var b := AllAfter(ss[1..], a.normal.value, n);
    if e.out.Broke? {
      LaterCovered(b.breaks, n, Breaks(r), |Breaks(t)|, |Breaks(f)|, e.w.live);
      FewerCovered(b.breaks, a.breaks, n, Breaks(r), |Breaks(f)|, e.w.live);
    }
    if e.out.Continued? {
      LaterCovered(b.conts, n, Conts(r), |Conts(t)|, |Conts(f)|, e.w.live - e.out.left);
      FewerCovered(b.conts, a.conts, n, Conts(r), |Conts(f)|, e.w.live - e.out.left);
    }
  }

  lemma FirstExplained(ss: seq<Stmt>, g: set<Name>, n: set<Name>, f: Flow, e: Result)
    requires ss != [] && CheckAll(ss, f).Some? && FallsThrough(ss[0]) && !e.out.Normal?
    requires Explains(ss[0], After(ss[0], g, n), n, f, Check(ss[0], f).value, e)
    ensures Explains(Block(ss), AllAfter(ss, g, n), n, f, CheckAll(ss, f).value, e)
  {
    var a, t, r := After(ss[0], g, n), Check(ss[0], f).value, CheckAll(ss, f).value;
    CheckAllRecords(ss[1..], t);
    var b := if a.normal.Some? then AllAfter(ss[1..], a.normal.value, n) else NOWHERE;
    if e.out.Broke? {
      CoveredOn(a.breaks, n, Breaks(t), Breaks(r), |Breaks(f)|, e.w.live);
      FewerCovered(a.breaks, b.breaks, n, Breaks(r), |Breaks(f)|, e.w.live);
    }
    if e.out.Continued? {
      CoveredOn(a.conts, n, Conts(t), Conts(r), |Conts(f)|, e.w.live - e.out.left);
      FewerCovered(a.conts, b.conts, n, Conts(r), |Conts(f)|, e.w.live - e.out.left);
    }
  }

  lemma {:induction false} IfExplained(s: Stmt, g: set<Name>, n: set<Name>, f: Flow, w: World, fuel: nat)
    requires s.If? && Check(s, f).Some? && Given(s, g, n) && g <= f.env.names && Covers(g, n, f.env, w.live)
    ensures Explains(s, After(s, g, n), n, f, Check(s, f).value, Exec(s, {}, w, fuel))
    decreases fuel, s, 0
  {
    TestCovered(s.cond, g, n, f.env, w);
    var (c, b) := Test(s.cond, w);
    CheckRecords(s.thn, f);
    if b {
      CheckExplainsRuns(s.thn, g, n, f, c.w, fuel);
      ThenExplained(s, g, n, f, Exec(s.thn, {}, c.w, fuel));
    } else {
      var t := Check(s.thn, f).value;
      var start := t.(env := Restore(t.env, f.env));
      assert Covers(g, n + Binds(s.thn, {}), start.env, c.w.live);
      if s.els.Some? {
        CheckExplainsRuns(s.els.value, g, n + Binds(s.thn, {}), start, c.w, fuel);
        ElseExplained(s, g, n, f, Exec(s.els.value, {}, c.w, fuel));
      } else {
        NoElseExplained(s, g, n, f, c);
      }
    }
  }

  lemma ThenExplained(s: Stmt, g: set<Name>, n: set<Name>, f: Flow, e: Result)
    requires s.If? && Check(s, f).Some? && g <= f.env.names
    requires Explains(s.thn, After(s.thn, g, n), n, f, Check(s.thn, f).value, e)
    ensures Explains(s, After(s, g, n), n, f, Check(s, f).value, e)
  {
    var t, r := Check(s.thn, f).value, Check(s, f).value;
    var start := t.(env := Restore(t.env, f.env));
    if s.els.Some? { CheckRecords(s.els.value, start); }
    GivenInScope(s.thn, g, n, f);
    var a := After(s.thn, g, n);
    var d := if s.els.Some? then After(s.els.value, g, n + Binds(s.thn, {})) else Ways(Some(g), None, None);
    if e.out.Broke? {
      CoveredOn(a.breaks, n, Breaks(t), Breaks(r), |Breaks(f)|, e.w.live);
      FewerCovered(a.breaks, d.breaks, n, Breaks(r), |Breaks(f)|, e.w.live);
    }
    if e.out.Continued? {
      CoveredOn(a.conts, n, Conts(t), Conts(r), |Conts(f)|, e.w.live - e.out.left);
      FewerCovered(a.conts, d.conts, n, Conts(r), |Conts(f)|, e.w.live - e.out.left);
    }
  }

  lemma NoElseExplained(s: Stmt, g: set<Name>, n: set<Name>, f: Flow, e: Result)
    requires s.If? && s.els.None? && Check(s, f).Some? && g <= f.env.names
    requires e.out.Normal? && Covers(g, n, f.env, e.w.live)
    ensures Explains(s, After(s, g, n), n, f, Check(s, f).value, e)
  {
    CheckRecords(s.thn, f);
  }

  /** What the join makes of the flags after the `else` arm: it takes those of the
      other arm for the names which that one binds, and the two agree on the rest. */
  lemma JoinFlags(s: Stmt, f: Flow)
    requires s.If? && s.els.Some? && Check(s, f).Some? && FallsThrough(s.els.value)
    ensures var t := Check(s.thn, f).value;
            var e := Check(s.els.value, t.(env := Restore(t.env, f.env))).value.env;
            var r := Check(s, f).value.env;
            forall x :: x in r.names && x !in r.moved ==>
              (x in Binds(s.thn, {}) && x !in t.env.moved) || x !in e.moved
  {
    CheckRecords(s.thn, f);
    var t := Check(s.thn, f).value;
    CheckRecords(s.els.value, t.(env := Restore(t.env, f.env)));
  }

  /** The names that the `else` arm gives are those that the checker then takes to
      be live, but for names that the other arm binds, which it takes to be moved. */
  lemma ElseCovers(s: Stmt, g: set<Name>, n: set<Name>, f: Flow, live: set<Name>)
    requires s.If? && s.els.Some? && Check(s, f).Some? && Given(s, g, n) && g <= f.env.names && FallsThrough(s.els.value)
    requires var t := Check(s.thn, f).value;
             var start, inner := t.(env := Restore(t.env, f.env)), n + Binds(s.thn, {});
             var d := After(s.els.value, g, inner).normal;
             d.Some? && Covers(d.value, inner, Check(s.els.value, start).value.env, live)
    ensures Covers(After(s, g, n).normal.value, n, Check(s, f).value.env, live)
  {
    var t := Check(s.thn, f).value;
    var start, inner := t.(env := Restore(t.env, f.env)), n + Binds(s.thn, {});
    CheckRecords(s.thn, f);
    IfMeets(s, g, n);
    GivenInScope(s, g, n, f);
    JoinFlags(s, f);
    var given, h := After(s.els.value, g, inner).normal.value, After(s, g, n).normal.value;
    assert h <= given;
    hide Check, After, FallsThrough;
    forall x | x in h && (x in n || x !in Check(s, f).value.env.moved) ensures x in live {
      if x in Binds(s.thn, {}) && x !in t.env.moved { Untouched(s.els.value, x, g, inner, start); }
    }
  }

  lemma ElseExplained(s: Stmt, g: set<Name>, n: set<Name>, f: Flow, e: Result)
    requires s.If? && s.els.Some? && Check(s, f).Some? && Given(s, g, n) && g <= f.env.names
    requires var t := Check(s.thn, f).value;
             var start, inner := t.(env := Restore(t.env, f.env)), n + Binds(s.thn, {});
             Explains(s.els.value, After(s.els.value, g, inner), inner, start, Check(s.els.value, start).value, e)
    ensures Explains(s, After(s, g, n), n, f, Check(s, f).value, e)
  {
    hide After, Given, Binds, Restore;
    var t, r := Check(s.thn, f).value, Check(s, f).value;
    var start, inner := t.(env := Restore(t.env, f.env)), n + Binds(s.thn, {});
    CheckRecords(s.thn, f);
    IfMeets(s, g, n);
    var a, d := After(s.thn, g, n), After(s.els.value, g, inner);
    assert r.frames == Check(s.els.value, start).value.frames;
    if e.out.Normal? { ElseCovers(s, g, n, f, e.w.live); }
    if e.out.Broke? {
      OuterCovered(d.breaks, n, inner, Breaks(r), |Breaks(start)|, e.w.live);
      LaterCovered(d.breaks, n, Breaks(r), |Breaks(start)|, |Breaks(f)|, e.w.live);
      FewerCovered(d.breaks, a.breaks, n, Breaks(r), |Breaks(f)|, e.w.live);
    }
    if e.out.Continued? {
      var live := e.w.live - e.out.left;
      OuterCovered(d.conts, n, inner, Conts(r), |Conts(start)|, live);
      LaterCovered(d.conts, n, Conts(r), |Conts(start)|, |Conts(f)|, live);
      FewerCovered(d.conts, a.conts, n, Conts(r), |Conts(f)|, live);
    }
  }

  lemma IfMeets(s: Stmt, g: set<Name>, n: set<Name>)
    requires s.If? && s.els.Some?
    ensures var a, t, d := After(s, g, n), After(s.thn, g, n), After(s.els.value, g, n + Binds(s.thn, {}));
            a == Ways(Meet(t.normal, d.normal), Meet(t.breaks, d.breaks), Meet(t.conts, d.conts))
  {
  }

  lemma OuterCovered(g: Option<set<Name>>, n: set<Name>, inner: set<Name>, snaps: seq<Env>, from: nat, live: set<Name>)
    requires CoveredByOne(g, inner, snaps, from, live) && n <= inner
    ensures CoveredByOne(g, n, snaps, from, live)
  {
    var k :| from <= k < |snaps| && Covers(g.value, inner, snaps[k], live);
    assert Covers(g.value, n, snaps[k], live);
  }

  /** A state covered by some back edge is covered by the state before the loop. */
  lemma BackedgeCovers(body: Stmt, h: set<Name>, given: set<Name>, n: set<Name>, f: Flow, b: Flow, backedges: seq<Env>,
                       k: nat, live: set<Name>)
    requires |b.frames| == |f.frames| + 1 && CheckLoopEnd(body, f, b).Some? && h <= given && h <= f.env.names
    requires backedges == (if FallsThrough(body) then [b.env] else []) + b.frames[|f.frames|].conts
    requires k < |backedges| && Covers(given, n, backedges[k], live)
    ensures Covers(h, n, f.env, live)
  {
  }

  lemma {:induction false} LoopExplained(s: Stmt, h: set<Name>, n: set<Name>, f: Flow, w: World, fuel: nat)
    requires s.Loop? && Check(s, f).Some? && Given(s.body, h, n + Binds(s.body, {}))
    requires h <= f.env.names && Covers(h, n, f.env, w.live) && Binds(s.body, {}) !! f.env.names
    requires var a := After(s.body, h, n + Binds(s.body, {}));
             (a.normal.Some? ==> h <= a.normal.value) && (a.conts.Some? ==> h <= a.conts.value)
    ensures var a := After(s.body, h, n + Binds(s.body, {}));
            Explains(s, Ways(a.breaks, None, None), n, f, Check(s, f).value, Exec(s, {}, w, fuel))
    decreases fuel, s, 0
  {
    if fuel > 0 {
      var body, inner := s.body, n + Binds(s.body, {});
      var a := After(body, h, inner);
      var fb := f.(frames := f.frames + [Frame([], [])]);
      var b := Check(body, fb).value;
      CheckRecords(body, fb);
      CheckExplainsRuns(body, h, inner, fb, w, fuel - 1);
      var top := b.frames[|f.frames|];
      var backedges := (if FallsThrough(body) then [b.env] else []) + top.conts;
      var e := Exec(body, {}, w, fuel - 1);
      if e.out.Normal? {
        BackedgeCovers(body, h, a.normal.value, inner, f, b, backedges, 0, e.w.live);
        LoopExplained(s, h, n, f, e.w, fuel - 1);
      } else if e.out.Continued? {
        var live := e.w.live - e.out.left;
        var k :| 0 <= k < |top.conts| && Covers(a.conts.value, inner, top.conts[k], live);
        var j := if FallsThrough(body) then k + 1 else k;
        assert backedges[j] == top.conts[k];
        BackedgeCovers(body, h, a.conts.value, inner, f, b, backedges, j, live);
        LoopExplained(s, h, n, f, Drop(e.out.left, e.w), fuel - 1);
      } else if e.out.Broke? {
        GivenInScope(body, h, inner, fb);
        BreakCovers(body, a.breaks.value, n, f, b, e.w.live);
      }
    }
  }

  /** At the way out of a loop: the breaks agree on what was bound before it, and of
      what its body binds only what is live is given. */
  lemma BreakCovers(body: Stmt, given: set<Name>, n: set<Name>, f: Flow, b: Flow, live: set<Name>)
    requires |b.frames| == |f.frames| + 1 && CheckLoopEnd(body, f, b).Some?
    requires b.env.names == f.env.names + Binds(body, {}) && given <= b.env.names
    requires var breaks := b.frames[|f.frames|].breaks;
             && (forall k :: 0 <= k < |breaks| ==> f.env.names <= breaks[k].names)
             && exists k :: 0 <= k < |breaks| && Covers(given, n + Binds(body, {}), breaks[k], live)
    ensures Covers(given, n, CheckLoopEnd(body, f, b).value.env, live)
  {
    var breaks := b.frames[|f.frames|].breaks;
    var k :| 0 <= k < |breaks| && Covers(given, n + Binds(body, {}), breaks[k], live);
    assert Agree(f.env.names, breaks[0], breaks[k]);
  }

  /** On every run of an accepted function body in which each use is of a name that is
      certainly given, with any answers of its conditions and any number of
      iterations, no owned binding is read, moved or disposed of while it holds
      nothing: not after its resource was taken, and not before it was given one. */
  lemma NoUseAfterMove(params: set<Name>, body: Stmt, w: World, fuel: nat)
    requires CheckFunction(params, body) && Given(body, params, {})
    requires params <= w.live
    ensures !Exec(body, {}, w, fuel).out.NotHeld?
  {
    CheckExplainsRuns(body, params, {}, Flow(Env(params, {}), []), w, fuel);
  }

  ghost predicate NeverFails(params: set<Name>, body: Stmt) {
    forall w: World, fuel: nat :: w.live == params ==> !Exec(body, {}, w, fuel).out.NotHeld?
  }

  /** The main result: the checker's promise holds of an accepted body exactly if each
      use in it is of a name that is certainly given. */
  lemma AcceptedIsSafe(params: set<Name>, body: Stmt)
    requires CheckFunction(params, body)
    ensures NeverFails(params, body) <==> Given(body, params, {})
  {
    if Given(body, params, {}) {
      forall w: World, fuel: nat | w.live == params ensures !Exec(body, {}, w, fuel).out.NotHeld? {
        NoUseAfterMove(params, body, w, fuel);
      }
    } else {
      var w, fuel := SomeRunFails(params, body, []);
    }
  }

  /** The same for a source program with `for` loops: what is checked is its
      lowered form, what runs is the program with the direct `for`. */
  lemma AcceptedSourceIsSafe(params: set<Name>, body: Stmt)
    requires PlainContinues(body) && CheckFunction(params, Lower(body))
    ensures NeverFails(params, body) <==> Given(Lower(body), params, {})
  {
    forall w: World, fuel: nat ensures Exec(Lower(body), {}, w, fuel) == Exec(body, {}, w, fuel) {
      LowerPreservesRuns(body, {}, w, fuel);
    }
    AcceptedIsSafe(params, Lower(body));
    if NeverFails(params, body) { assert NeverFails(params, Lower(body)); }
  }
}
