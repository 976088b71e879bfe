/** What becomes of resources in loops: on every run of an accepted function each
    resource is held by a binding in scope until it is taken, exactly if no way out of
    or round a loop leaves or brings one that the checker does not ask about. */
module OwnershipLoops {
  import opened Wrappers
  import opened Boson
  import opened Ownership
  import opened OwnershipGiven
  import opened OwnershipSoundness
  import opened OwnershipExact
  import opened OwnershipLeaks
  import opened OwnershipPaths
  import opened OwnershipAcceptance
  import opened Lowering

  // ----- what must be asked of loops -----

  /** Whatever is held was bound outside. */
  predicate LeavesNothing(env: Env, outer: set<Name>) { env.names - outer <= env.moved }

  /** At each `break` and `continue` that is reached, nothing is held that was bound
      within the loop, and what gets back to the head of a loop brings nothing that
      was not held before.  `outer` are the names from outside the innermost loop; of
      g it is certain that they are given. */
  predicate Tight(s: Stmt, g: set<Name>, f: Flow, outer: set<Name>)
    requires Check(s, f).Some?
    decreases s, 1
  {
    match s
    case Break => LeavesNothing(f.env, outer)
    case Continue(step) =>
      if step.None? then LeavesNothing(f.env, outer)
      else
        && Tight(step.value, g, f, outer)
        && (After(step.value, g, {}).normal.Some? ==> LeavesNothing(Check(step.value, f).value.env, outer))
    case If(_, thn, els) =>
      var t := Check(thn, f).value;
      Tight(thn, g, f, outer) && (els.Some? ==> Tight(els.value, g, t.(env := Restore(t.env, f.env)), outer))
    case Loop(body) =>
      && Tight(body, Head(body, g, {}), Entering(f), f.env.names)
      && (GetsBack(body, g) ==> BringsNothing(f, BackEdges(body, Check(body, Entering(f)).value)))
    case Block(stmts) => AllTight(stmts, g, f, outer)
    case _ => true
  }

  predicate AllTight(ss: seq<Stmt>, g: set<Name>, f: Flow, outer: set<Name>)
    requires CheckAll(ss, f).Some?
    decreases ss, 0
  {
    ss == [] ||
    (Tight(ss[0], g, f, outer) &&
     var a := After(ss[0], g, {});
     a.normal.Some? && FallsThrough(ss[0]) ==> AllTight(ss[1..], a.normal.value, Check(ss[0], f).value, outer))
  }

  /** Some way leads from the head of a loop back to it. */
  predicate GetsBack(body: Stmt, g: set<Name>) {
    var a := After(body, Head(body, g, {}), {});
    a.normal.Some? || a.conts.Some?
  }

  predicate BringsNothing(f: Flow, backs: seq<Env>) { backs == [] || f.env.moved <= backs[0].moved }

  // ----- tight bodies -----

  /** What is held is what the checker takes to be, and it was given and not taken. */
  ghost predicate Matched(env: Env, w: World) { Exactly(w) && w.live == env.names - env.moved }

  ghost predicate LiveAs(snaps: seq<Env>, from: nat, outer: set<Name>, live: set<Name>) {
    exists k :: from <= k < |snaps| && live <= outer && live == snaps[k].names - snaps[k].moved
  }

  ghost predicate Matches(f: Flow, r: Flow, outer: set<Name>, e: Result) {
    match e.out
    case Normal => Matched(r.env, e.w)
    case Broke => Exactly(e.w) && LiveAs(Breaks(r), |Breaks(f)|, outer, e.w.live)
    case Continued(left) => Exactly(e.w) && e.w.live !! left && LiveAs(Conts(r), |Conts(f)|, outer, e.w.live)
    case Returned => Exactly(e.w) && e.w.live == {}
    case OutOfFuel => Exactly(e.w)
    case NotHeld(_) => false
  }

  /** From where what is held matches, and the names that are given are in scope. */
  ghost predicate Ready(s: Stmt, g: set<Name>, f: Flow, outer: set<Name>) {
    && Ordinary(s) && Clean(f.env) && Check(s, f).Some? && Given(s, g, {}) && g <= f.env.names && outer <= f.env.names
  }

  lemma MatchedCovers(g: set<Name>, env: Env, w: World)
    requires Matched(env, w) && g <= env.names
    ensures Covers(g, {}, env, w.live)
  {
  }

  lemma {:induction false} RunMatches(s: Stmt, g: set<Name>, f: Flow, outer: set<Name>, w: World, fuel: nat)
    requires Ready(s, g, f, outer) && Tight(s, g, f, outer) && Matched(f.env, w)
    ensures Matches(f, Check(s, f).value, outer, Exec(s, {}, w, fuel))
    decreases fuel, s, 1
  {
    match s
    case If(_, _, _) => IfMatches(s, g, f, outer, w, fuel);
    case Loop(body) =>
      LoopReady(s, g, f, outer);
      LoopMatches(s, Head(body, g, {}), f, w, fuel);
      LoopEndIs(body, f);
    case Block(_) => BlockMatches(s, g, f, outer, w, fuel);
    case Continue(_) => ContinueMatches(s, g, f, outer, w, fuel);
    case _ => SimpleMatches(s, g, f, outer, w, fuel);
  }

  lemma SimpleMatches(s: Stmt, g: set<Name>, f: Flow, outer: set<Name>, w: World, fuel: nat)
    requires Ready(s, g, f, outer) && Tight(s, g, f, outer) && Matched(f.env, w)
    requires !s.If? && !s.Loop? && !s.Block? && !s.Continue?
    ensures Matches(f, Check(s, f).value, outer, Exec(s, {}, w, fuel))
  {
    match s
    case Use(x) =>
      forall y ensures Holding(w.trace + [Read(x)], y) == Holding(w.trace, y) { HoldingSnoc(w.trace, Read(x), y); }
    case Consume(x) => TakeExactly(x, w);
    case Dispose(x) => TakeExactly(x, w);
    case Declare(x, init) =>
      assert Drop({x}, w).live == w.live;
      if init.Some? {
        SourceExactly(init.value, Drop({x}, w));
        GiveExactly(x, TakeSource(init.value, Drop({x}, w)).w);
      }
    case Assign(x, src) =>
      SourceExactly(src, w);
      GiveExactly(x, TakeSource(src, w).w);
    case Return(val) => if val.Some? { SourceExactly(val.value, w); }
    case Break =>
      var r := Check(s, f).value;
      assert Breaks(r)[|Breaks(f)|] == f.env;
  }

  lemma TestMatches(c: Cond, g: set<Name>, env: Env, w: World)
    requires CheckCond(c, env) && Matched(env, w) && (forall x <- CondNames(c) :: x in g) && g <= env.names
    ensures var r := Test(c, w).0; r.out.Normal? && Matched(env, r.w) && r.w.coins == w.coins
  {
    MatchedCovers(g, env, w);
    TestCovered(c, g, {}, env, w);
    forall x ensures Holding(Test(c, w).0.w.trace, x) == Holding(w.trace, x) { TestHolds(c, w, x); }
  }

  lemma LiveAsLater(was: seq<Env>, now: seq<Env>, from: nat, earlier: nat, outer: set<Name>, live: set<Name>)
    requires LiveAs(was, from, outer, live) && was <= now && earlier <= from
    ensures LiveAs(now, earlier, outer, live)
  {
    var k :| from <= k < |was| && live <= outer && live == was[k].names - was[k].moved;
    assert now[k] == was[k];
  }

  /** What a part records is recorded by the whole. */
  lemma PartMatches(f: Flow, g: Flow, t: Flow, r: Flow, outer: set<Name>, e: Result)
    requires Matches(g, t, outer, e) && (e.out.Normal? ==> r.env == t.env)
    requires |Breaks(f)| <= |Breaks(g)| && Breaks(t) <= Breaks(r) && |Conts(f)| <= |Conts(g)| && Conts(t) <= Conts(r)
    ensures Matches(f, r, outer, e)
  {
    if e.out.Broke? { LiveAsLater(Breaks(t), Breaks(r), |Breaks(g)|, |Breaks(f)|, outer, e.w.live); }
    if e.out.Continued? { LiveAsLater(Conts(t), Conts(r), |Conts(g)|, |Conts(f)|, outer, e.w.live); }
  }

  lemma {:induction false} IfMatches(s: Stmt, g: set<Name>, f: Flow, outer: set<Name>, w: World, fuel: nat)
    requires s.If? && Ready(s, g, f, outer) && Tight(s, g, f, outer) && Matched(f.env, w)
    ensures Matches(f, Check(s, f).value, outer, Exec(s, {}, w, fuel))
    decreases fuel, s, 0
  {
    var r := Check(s, f).value;
    var t, e := ArmsOf(s, f);
    JoinIs(s, f, t, e, r);
    TestMatches(s.cond, g, f.env, w);
    var (c, b) := Test(s.cond, w);
    SecondArm(s, f);
    var start := Flow(f.env, t.frames);
    if b {
      RunMatches(s.thn, g, f, outer, c.w, fuel);
      EndsOnward(s.thn, g, f, c.w, fuel);
      PartMatches(f, f, t, r, outer, Exec(s.thn, {}, c.w, fuel));
    } else if s.els.Some? {
      assert {} + Binds(s.thn, {}) == {};
      RunMatches(s.els.value, g, start, outer, c.w, fuel);
      EndsOnward(s.els.value, g, start, c.w, fuel);
      PartMatches(f, start, e, r, outer, Exec(s.els.value, {}, c.w, fuel));
    }
  }

  /** A run that gets to the end of a statement gets there in the text. */
  lemma EndsOnward(s: Stmt, g: set<Name>, f: Flow, w: World, fuel: nat)
    requires Check(s, f).Some? && Given(s, g, {}) && g <= f.env.names && Matched(f.env, w)
    ensures var e := Exec(s, {}, w, fuel);
            && (e.out.Normal? ==> FallsThrough(s) && After(s, g, {}).normal.Some?)
            && (e.out.Continued? ==> After(s, g, {}).conts.Some?) && (e.out.Broke? ==> After(s, g, {}).breaks.Some?)
  {
    MatchedCovers(g, f.env, w);
    CheckExplainsRuns(s, g, {}, f, w, fuel);
  }

  lemma {:induction false} ContinueMatches(s: Stmt, g: set<Name>, f: Flow, outer: set<Name>, w: World, fuel: nat)
    requires s.Continue? && Ready(s, g, f, outer) && Tight(s, g, f, outer) && Matched(f.env, w)
    ensures Matches(f, Check(s, f).value, outer, Exec(s, {}, w, fuel))
    decreases fuel, s, 0
  {
    var r := Check(s, f).value;
    if s.step.None? {
      assert Conts(r)[|Conts(f)|] == f.env;
    } else {
      var step := s.step.value;
      var t, e := Check(step, f).value, Exec(step, {}, w, fuel);
      RunMatches(step, g, f, outer, w, fuel);
      EndsOnward(step, g, f, w, fuel);
      CheckRecords(step, f);
      assert Breaks(r) == Breaks(t) && Conts(r) == Conts(t) + [t.env];
      if e.out.Normal? {
        assert Conts(r)[|Conts(t)|] == t.env;
      } else {
        PartMatches(f, f, t, r, outer, e);
      }
    }
  }

  lemma {:induction false} BlockMatches(s: Stmt, g: set<Name>, f: Flow, outer: set<Name>, w: World, fuel: nat)
    requires s.Block? && Ready(s, g, f, outer) && Tight(s, g, f, outer) && Matched(f.env, w)
    ensures Matches(f, Check(s, f).value, outer, Exec(s, {}, w, fuel))
    decreases fuel, s, 0
  {
    AllMatch(s.stmts, g, f, outer, w, fuel);
    CheckAllRecords(s.stmts, f);
    var own, b, e := AllBinds(s.stmts, {}), CheckAll(s.stmts, f).value, ExecAll(s.stmts, {}, w, fuel);
    MatchedCovers(g, f.env, w);
    AllExplained(s.stmts, g, {}, f, w, fuel);
    match e.out
    case Normal => assert e.w.live - own == f.env.names - (b.env.moved * f.env.names);
    case Broke => assert e.w.live - own == e.w.live;
    case Continued(left) => assert e.w.live !! left + own;
    case _ =>
  }

  lemma {:induction false} AllMatch(ss: seq<Stmt>, g: set<Name>, f: Flow, outer: set<Name>, w: World, fuel: nat)
    requires (forall i :: 0 <= i < |ss| ==> Ordinary(ss[i])) && Clean(f.env) && CheckAll(ss, f).Some?
    requires AllGiven(ss, g, {}) && g <= f.env.names && outer <= f.env.names && AllTight(ss, g, f, outer) && Matched(f.env, w)
    ensures Matches(f, CheckAll(ss, f).value, outer, ExecAll(ss, {}, w, fuel))
    decreases fuel, ss, 0
  {
    if ss != [] {
      var t, r := Check(ss[0], f).value, CheckAll(ss, f).value;
      var e := Exec(ss[0], {}, w, fuel);
      RunMatches(ss[0], g, f, outer, w, fuel);
      EndsOnward(ss[0], g, f, w, fuel);
      CheckRecords(ss[0], f);
      CheckClean(ss[0], f);
      GivenInScope(ss[0], g, {}, f);
      if FallsThrough(ss[0]) { CheckAllRecords(ss[1..], t); }
      if e.out.Normal? {
        var h := After(ss[0], g, {}).normal.value;
        AllMatch(ss[1..], h, t, outer, e.w, fuel);
        PartMatches(f, t, r, r, outer, ExecAll(ss[1..], {}, e.w, fuel));
      } else {
        PartMatches(f, f, t, r, outer, e);
      }
    }
  }

  /** The body of a loop, from its head. */
  ghost predicate LoopIsReady(s: Stmt, h: set<Name>, f: Flow) {
    && s.Loop? && Ordinary(s) && Clean(f.env) && Check(s, f).Some? && Check(s.body, Entering(f)).Some?
    && Given(s.body, h, {}) && h <= f.env.names && Tight(s.body, h, Entering(f), f.env.names)
    && var a := After(s.body, h, {});
       && (a.normal.Some? ==> h <= a.normal.value) && (a.conts.Some? ==> h <= a.conts.value)
       && (a.normal.Some? || a.conts.Some? ==> BringsNothing(f, BackEdges(s.body, Check(s.body, Entering(f)).value)))
  }

  lemma LoopReady(s: Stmt, g: set<Name>, f: Flow, outer: set<Name>)
    requires s.Loop? && Ready(s, g, f, outer) && Tight(s, g, f, outer)
    ensures LoopIsReady(s, Head(s.body, g, {}), f)
  {
    HeadStays(s.body, g, {});
    assert {} + Binds(s.body, {}) == {};
  }

  /** Every way back to the head is as the checker found it before the loop. */
  lemma HeadMatches(body: Stmt, f: Flow, b: Flow, env: Env, live: set<Name>)
    requires Clean(f.env) && LoopAgrees(body, f, b) && BringsNothing(f, BackEdges(body, b)) && env in BackEdges(body, b)
    requires f.env.names <= env.names && live <= f.env.names && live == env.names - env.moved
    ensures live == f.env.names - f.env.moved
  {
    AgreePairs(f.env.names, BackEdges(body, b), BackEdges(body, b)[0], env);
  }

  lemma {:induction false} LoopMatches(s: Stmt, h: set<Name>, f: Flow, w: World, fuel: nat)
    requires LoopIsReady(s, h, f) && Matched(f.env, w)
    ensures var e := Exec(s, {}, w, fuel);
            && !e.out.Broke? && !e.out.Continued?
            && Matches(f, Flow(AfterLoop(f, Check(s.body, Entering(f)).value), f.frames), f.env.names, e)
    decreases fuel, s, 0
  {
    if fuel > 0 {
      var fb, b := Entering(f), Check(s.body, Entering(f)).value;
      EnteringIsEmpty(f);
      RunMatches(s.body, h, fb, f.env.names, w, fuel - 1);
      EndsOnward(s.body, h, fb, w, fuel - 1);
      LoopEndIs(s.body, f);
      var e := Exec(s.body, {}, w, fuel - 1);
      match e.out
      case Normal =>
        CheckClean(s.body, fb);
        assert BackEdges(s.body, b)[0] == b.env;
        HeadMatches(s.body, f, b, b.env, e.w.live);
        LoopMatches(s, h, f, e.w, fuel - 1);
      case Continued(left) =>
        ContinuedToHead(s, f, b, e);
        LoopMatches(s, h, f, Drop(left, e.w), fuel - 1);
      case Broke => BrokenOut(s, f, b, e);
      case _ =>
    }
  }

  lemma ContinuedToHead(s: Stmt, f: Flow, b: Flow, e: Result)
    requires s.Loop? && Clean(f.env) && LoopAgrees(s.body, f, b) && BringsNothing(f, BackEdges(s.body, b))
    requires Records(Entering(f), b) && e.out.Continued? && Matches(Entering(f), b, f.env.names, e)
    ensures Matched(f.env, Drop(e.out.left, e.w)) && Drop(e.out.left, e.w).live == e.w.live
  {
    EnteringIsEmpty(f);
    var k :| 0 <= k < |Conts(b)| && e.w.live <= f.env.names && e.w.live == Conts(b)[k].names - Conts(b)[k].moved;
    assert BackEdges(s.body, b)[(if FallsThrough(s.body) then 1 else 0) + k] == Conts(b)[k];
    HeadMatches(s.body, f, b, Conts(b)[k], e.w.live);
  }

  lemma BrokenOut(s: Stmt, f: Flow, b: Flow, e: Result)
    requires s.Loop? && LoopAgrees(s.body, f, b) && Records(Entering(f), b)
    requires e.out.Broke? && Matches(Entering(f), b, f.env.names, e)
    ensures Matched(AfterLoop(f, b), e.w)
  {
    EnteringIsEmpty(f);
    var k :| 0 <= k < |Breaks(b)| && e.w.live <= f.env.names && e.w.live == Breaks(b)[k].names - Breaks(b)[k].moved;
    AgreePairs(f.env.names, Breaks(b), Breaks(b)[0], Breaks(b)[k]);
    assert f.env.names <= Breaks(b)[k].names;
  }

  // ----- lost -----

  /** x was overwritten while it was held, or went out of scope. */
  ghost predicate Lost(x: Name, w: World) {
    Holding(w.trace, x) == None || (Holding(w.trace, x) == Some(true) && x !in w.live)
  }

  lemma LostTaken(x: Name, src: Source, w: World)
    requires Lost(x, w)
    ensures Lost(x, TakeSource(src, w).w)
  {
    if src.From? { HoldingSnoc(w.trace, Took(src.name), x); }
  }

  lemma LostGiven(x: Name, y: Name, w: World)
    requires Lost(x, w)
    ensures Lost(x, GiveName(y, w))
  {
    HoldingSnoc(w.trace, Gave(y), x);
  }

  lemma {:induction false} LostRead(x: Name, xs: seq<Name>, w: World)
    requires Lost(x, w)
    ensures Lost(x, ReadAll(xs, w).w)
  {
    if xs != [] && xs[0] in w.live {
      HoldingSnoc(w.trace, Read(xs[0]), x);
      LostRead(x, xs[1..], ReadName(xs[0], w).w);
    }
  }

  lemma {:induction false} LostTested(x: Name, c: Cond, w: World)
    requires Lost(x, w)
    ensures Lost(x, Test(c, w).0.w)
  {
    match c
    case Reads(xs) =>
      LostRead(x, xs, w);
      var v := ReadAll(xs, w).w;
      HoldingSnoc(v.trace, Tested(v.coins(v.tossed)), x);
    case Not(a) => LostTested(x, a, w);
  }

  /** What is lost stays lost, whatever is run. */
  lemma {:induction false} LostStays(s: Stmt, x: Name, w: World, fuel: nat)
    requires Ordinary(s) && Lost(x, w)
    ensures Lost(x, Exec(s, {}, w, fuel).w)
    decreases fuel, s, 1
  {
    match s
    case Use(y) => HoldingSnoc(w.trace, Read(y), x);
    case Consume(y) => LostTaken(x, From(y), w);
    case Dispose(y) => LostTaken(x, From(y), w);
    case Declare(y, init) =>
      var bound := Drop({y}, w);
      if init.Some? {
        LostTaken(x, init.value, bound);
        LostGiven(x, y, TakeSource(init.value, bound).w);
      }
    case Assign(y, src) =>
      LostTaken(x, src, w);
      LostGiven(x, y, TakeSource(src, w).w);
    case If(cond, thn, els) =>
      LostTested(x, cond, w);
      var (c, b) := Test(cond, w);
      if c.out.Normal? {
        if b { LostStays(thn, x, c.w, fuel); } else if els.Some? { LostStays(els.value, x, c.w, fuel); }
      }
    case Loop(body) =>
      if fuel > 0 {
        LostStays(body, x, w, fuel - 1);
        var e := Exec(body, {}, w, fuel - 1);
        if e.out.Normal? { LostStays(s, x, e.w, fuel - 1); }
        if e.out.Continued? { LostStays(s, x, Drop(e.out.left, e.w), fuel - 1); }
      }
    case Block(stmts) => AllLostStays(stmts, x, w, fuel);
    case Continue(step) => if step.Some? { LostStays(step.value, x, w, fuel); }
    case Return(val) => if val.Some? { LostTaken(x, val.value, w); }
    case Break =>
  }

  lemma {:induction false} AllLostStays(ss: seq<Stmt>, x: Name, w: World, fuel: nat)
    requires (forall i :: 0 <= i < |ss| ==> Ordinary(ss[i])) && Lost(x, w)
    ensures Lost(x, ExecAll(ss, {}, w, fuel).w)
    decreases fuel, ss, 0
  {
    if ss != [] {
      LostStays(ss[0], x, w, fuel);
      var e := Exec(ss[0], {}, w, fuel);
      if e.out.Normal? { AllLostStays(ss[1..], x, e.w, fuel); }
    }
  }

  // ----- the same way again -----

  function Answer(w: World, i: nat): bool { w.coins(w.tossed + i) }

  ghost predicate SameAnswers(a: World, b: World) { forall i: nat :: Answer(a, i) == Answer(b, i) }

  /** b holds all that a holds, and goes the way that a goes. */
  ghost predicate Ahead(a: World, b: World) { a.live <= b.live && SameAnswers(a, b) }

  lemma AnswersKept(a: World, b: World, c: World, d: World)
    requires SameAnswers(a, b) && c.coins == a.coins && c.tossed == a.tossed && d.coins == b.coins && d.tossed == b.tossed
    ensures SameAnswers(c, d)
  {
    forall i: nat ensures Answer(c, i) == Answer(d, i) { assert Answer(a, i) == Answer(b, i); }
  }

  /** x is held in b only. */
  ghost predicate Extra(x: Name, a: World, b: World) {
    x !in a.live && x in b.live && Holding(b.trace, x) == Some(true)
  }

  ghost predicate Follow(x: Name, p: Result, q: Result) {
    p.out == q.out && Ahead(p.w, q.w) && (Extra(x, p.w, q.w) || Lost(x, q.w))
  }

  lemma TakeFollows(x: Name, src: Source, a: World, b: World)
    requires Ahead(a, b) && (Extra(x, a, b) || Lost(x, b)) && !TakeSource(src, a).out.NotHeld?
    ensures Follow(x, TakeSource(src, a), TakeSource(src, b))
  {
    if src.From? {
      HoldingSnoc(b.trace, Took(src.name), x);
      AnswersKept(a, b, TakeSource(src, a).w, TakeSource(src, b).w);
    }
  }

  lemma GiveFollows(x: Name, y: Name, a: World, b: World)
    requires Ahead(a, b) && (Extra(x, a, b) || Lost(x, b))
    ensures Ahead(GiveName(y, a), GiveName(y, b)) && (Extra(x, GiveName(y, a), GiveName(y, b)) || Lost(x, GiveName(y, b)))
  {
    HoldingSnoc(b.trace, Gave(y), x);
    AnswersKept(a, b, GiveName(y, a), GiveName(y, b));
  }

  lemma DropFollows(x: Name, names: set<Name>, a: World, b: World)
    requires Ahead(a, b) && (Extra(x, a, b) || Lost(x, b))
    ensures Ahead(Drop(names, a), Drop(names, b)) && (Extra(x, Drop(names, a), Drop(names, b)) || Lost(x, Drop(names, b)))
  {
    AnswersKept(a, b, Drop(names, a), Drop(names, b));
  }

  lemma {:induction false} ReadFollows(x: Name, xs: seq<Name>, a: World, b: World)
    requires Ahead(a, b) && (Extra(x, a, b) || Lost(x, b)) && !ReadAll(xs, a).out.NotHeld?
    ensures Follow(x, ReadAll(xs, a), ReadAll(xs, b))
  {
    if xs != [] {
      HoldingSnoc(b.trace, Read(xs[0]), x);
      AnswersKept(a, b, ReadName(xs[0], a).w, ReadName(xs[0], b).w);
      ReadFollows(x, xs[1..], ReadName(xs[0], a).w, ReadName(xs[0], b).w);
    }
  }

  lemma {:induction false} TestFollows(x: Name, c: Cond, a: World, b: World)
    requires Ahead(a, b) && (Extra(x, a, b) || Lost(x, b)) && !Test(c, a).0.out.NotHeld?
    ensures Follow(x, Test(c, a).0, Test(c, b).0) && Test(c, a).1 == Test(c, b).1
  {
    match c
    case Reads(xs) =>
      ReadFollows(x, xs, a, b);
      var p, q := ReadAll(xs, a).w, ReadAll(xs, b).w;
      ReadAllCoins(xs, a);
      ReadAllCoins(xs, b);
      assert Answer(p, 0) == Answer(q, 0);
      HoldingSnoc(q.trace, Tested(q.coins(q.tossed)), x);
      var r, t := Test(c, a).0.w, Test(c, b).0.w;
      if ReadAll(xs, a).out.Normal? {
        forall i: nat ensures Answer(r, i) == Answer(t, i) { assert Answer(p, i + 1) == Answer(q, i + 1); }
      }
    case Not(d) => TestFollows(x, d, a, b);
  }

  lemma {:induction false} ReadAllCoins(xs: seq<Name>, w: World)
    ensures ReadAll(xs, w).w.coins == w.coins
  {
    if xs != [] && xs[0] in w.live { ReadAllCoins(xs[1..], ReadName(xs[0], w).w); }
  }

  /** A run that holds more goes the same way; and what it alone held is still more
      than the other holds, or lost. */
  lemma {:induction false} RunFollows(s: Stmt, x: Name, a: World, b: World, fuel: nat)
    requires Ordinary(s) && Ahead(a, b) && (Extra(x, a, b) || Lost(x, b)) && !Exec(s, {}, a, fuel).out.NotHeld?
    ensures Follow(x, Exec(s, {}, a, fuel), Exec(s, {}, b, fuel))
    decreases fuel, s, 1
  {
    match s
    case If(_, _, _) => IfFollows(s, x, a, b, fuel);
    case Loop(body) =>
      if fuel > 0 {
        RunFollows(body, x, a, b, fuel - 1);
        var p, q := Exec(body, {}, a, fuel - 1), Exec(body, {}, b, fuel - 1);
        if p.out.Normal? { RunFollows(s, x, p.w, q.w, fuel - 1); }
        if p.out.Continued? {
          DropFollows(x, p.out.left, p.w, q.w);
          RunFollows(s, x, Drop(p.out.left, p.w), Drop(q.out.left, q.w), fuel - 1);
        }
      }
    case Block(stmts) =>
      AllFollow(stmts, x, a, b, fuel);
      DropFollows(x, AllBinds(stmts, {}), ExecAll(stmts, {}, a, fuel).w, ExecAll(stmts, {}, b, fuel).w);
    case Continue(step) => if step.Some? { RunFollows(step.value, x, a, b, fuel); }
    case _ => SimpleFollows(s, x, a, b, fuel);
  }

  lemma UseFollows(x: Name, y: Name, a: World, b: World)
    requires Ahead(a, b) && (Extra(x, a, b) || Lost(x, b)) && !ReadName(y, a).out.NotHeld?
    ensures Follow(x, ReadName(y, a), ReadName(y, b))
  {
    HoldingSnoc(b.trace, Read(y), x);
    AnswersKept(a, b, ReadName(y, a).w, ReadName(y, b).w);
  }

  lemma DeclareFollows(x: Name, y: Name, init: Option<Source>, a: World, b: World)
    requires Ahead(a, b) && (Extra(x, a, b) || Lost(x, b)) && !Exec(Declare(y, init), {}, a, 0).out.NotHeld?
    ensures Follow(x, Exec(Declare(y, init), {}, a, 0), Exec(Declare(y, init), {}, b, 0))
  {
    hide Holding, SameAnswers, Extra, Lost, Drop;
    DropFollows(x, {y}, a, b);
    var p, q := Drop({y}, a), Drop({y}, b);
    if init.Some? {
      TakeFollows(x, init.value, p, q);
      GiveFollows(x, y, TakeSource(init.value, p).w, TakeSource(init.value, q).w);
    }
  }

  lemma SimpleFollows(s: Stmt, x: Name, a: World, b: World, fuel: nat)
    requires Ordinary(s) && Ahead(a, b) && (Extra(x, a, b) || Lost(x, b)) && !Exec(s, {}, a, fuel).out.NotHeld?
    requires !s.If? && !s.Loop? && !s.Block? && !s.Continue?
    ensures Follow(x, Exec(s, {}, a, fuel), Exec(s, {}, b, fuel))
  {
    hide Holding, SameAnswers, Extra, Lost;
    match s
    case Use(y) => UseFollows(x, y, a, b);
    case Consume(y) => TakeFollows(x, From(y), a, b);
    case Dispose(y) => TakeFollows(x, From(y), a, b);
    case Declare(y, init) => DeclareFollows(x, y, init, a, b);
    case Assign(y, src) =>
      TakeFollows(x, src, a, b);
      GiveFollows(x, y, TakeSource(src, a).w, TakeSource(src, b).w);
    case Return(val) => if val.Some? { TakeFollows(x, val.value, a, b); }
    case Break =>
  }

  lemma {:induction false} IfFollows(s: Stmt, x: Name, a: World, b: World, fuel: nat)
    requires s.If? && Ordinary(s) && Ahead(a, b) && (Extra(x, a, b) || Lost(x, b)) && !Exec(s, {}, a, fuel).out.NotHeld?
    ensures Follow(x, Exec(s, {}, a, fuel), Exec(s, {}, b, fuel))
    decreases fuel, s, 0
  {
    TestFollows(x, s.cond, a, b);
    var (p, v) := Test(s.cond, a);
    var q := Test(s.cond, b).0;
    if p.out.Normal? {
      if v { RunFollows(s.thn, x, p.w, q.w, fuel); } else if s.els.Some? { RunFollows(s.els.value, x, p.w, q.w, fuel); }
    }
  }

  lemma {:induction false} AllFollow(ss: seq<Stmt>, x: Name, a: World, b: World, fuel: nat)
    requires forall i :: 0 <= i < |ss| ==> Ordinary(ss[i])
    requires Ahead(a, b) && (Extra(x, a, b) || Lost(x, b)) && !ExecAll(ss, {}, a, fuel).out.NotHeld?
    ensures Follow(x, ExecAll(ss, {}, a, fuel), ExecAll(ss, {}, b, fuel))
    decreases fuel, ss, 0
  {
    if ss != [] {
      RunFollows(ss[0], x, a, b, fuel);
      var p, q := Exec(ss[0], {}, a, fuel), Exec(ss[0], {}, b, fuel);
      if p.out.Normal? { AllFollow(ss[1..], x, p.w, q.w, fuel); }
    }
  }

  // ----- what is not tight loses -----

  /** x is held on the way out of the scope of its binding. */
  ghost predicate Pending(x: Name, outer: set<Name>, names: set<Name>, live: set<Name>, trace: seq<Event>) {
    x in live && x in names && x !in outer && Holding(trace, x) == Some(true)
  }

  /** x is lost, or will be where the scopes within the loop are left. */
  ghost predicate Losing(x: Name, outer: set<Name>, names: set<Name>, e: Result) {
    match e.out
    case Broke => Lost(x, e.w) || Pending(x, outer, names, e.w.live, e.w.trace)
    case Continued(left) =>
      var w := Drop(left, e.w);
      Lost(x, w) || Pending(x, outer, names, w.live, w.trace)
    case _ => Lost(x, e.w)
  }

  /** With these answers every run from a matching state loses x. */
  ghost predicate Loses(s: Stmt, x: Name, f: Flow, outer: set<Name>, answers: seq<bool>, m: nat) {
    forall w: World, fuel: nat :: fuel >= m && Matched(f.env, w) && Follows(w, answers) ==>
      Losing(x, outer, f.env.names, Exec(s, {}, w, fuel))
  }

  ghost predicate AllLose(ss: seq<Stmt>, x: Name, f: Flow, outer: set<Name>, names: set<Name>, answers: seq<bool>, m: nat) {
    forall w: World, fuel: nat :: fuel >= m && Matched(f.env, w) && Follows(w, answers) ==>
      Losing(x, outer, names, ExecAll(ss, {}, w, fuel))
  }

  lemma {:induction false} UntightLoses(s: Stmt, g: set<Name>, f: Flow, outer: set<Name>)
    returns (x: Name, answers: seq<bool>, m: nat)
    requires Ready(s, g, f, outer) && !Tight(s, g, f, outer)
    ensures Loses(s, x, f, outer, answers, m)
    decreases s, 1
  {
    match s
    case Break =>
      x :| x in f.env.names - outer && x !in f.env.moved;
      answers, m := [], 0;
    case If(_, _, _) => x, answers, m := IfLoses(s, g, f, outer);
    case Loop(_) => x, answers, m := LoopLoses(s, g, f, outer);
    case Block(_) => x, answers, m := BlockLoses(s, g, f, outer);
    case Continue(_) => x, answers, m := ContinueLoses(s, g, f, outer);
  }

  lemma {:induction false} IfLoses(s: Stmt, g: set<Name>, f: Flow, outer: set<Name>)
    returns (x: Name, answers: seq<bool>, m: nat)
    requires s.If? && Ready(s, g, f, outer) && !Tight(s, g, f, outer)
    ensures Loses(s, x, f, outer, answers, m)
    decreases s, 0
  {
    SecondArm(s, f);
    var t, e := ArmsOf(s, f);
    var start := Flow(f.env, t.frames);
    assert {} + Binds(s.thn, {}) == {};
    var b := !Tight(s.thn, g, f, outer);
    var rest;
    if b { x, rest, m := UntightLoses(s.thn, g, f, outer); } else { x, rest, m := UntightLoses(s.els.value, g, start, outer); }
    var a := TossFor(s.cond, b);
    answers := [a] + rest;
    forall w: World, fuel: nat | fuel >= m && Matched(f.env, w) && Follows(w, answers)
      ensures Losing(x, outer, f.env.names, Exec(s, {}, w, fuel))
    {
      TestMatches(s.cond, g, f.env, w);
      assert w.coins(w.tossed + 0) == answers[0];
      FollowsOn(w, [a], rest, Test(s.cond, w).0.w);
    }
  }

  lemma {:induction false} ContinueLoses(s: Stmt, g: set<Name>, f: Flow, outer: set<Name>)
    returns (x: Name, answers: seq<bool>, m: nat)
    requires s.Continue? && Ready(s, g, f, outer) && !Tight(s, g, f, outer)
    ensures Loses(s, x, f, outer, answers, m)
    decreases s, 0
  {
    if s.step.None? {
      x :| x in f.env.names - outer && x !in f.env.moved;
      answers, m := [], 0;
      forall w: World ensures Drop({}, w).live == w.live { assert w.live - {} == w.live; }
    } else if !Tight(s.step.value, g, f, outer) {
      x, answers, m := UntightLoses(s.step.value, g, f, outer);
      forall w: World ensures Drop({}, w) == w { assert w.live - {} == w.live; }
    } else {
      var t := Check(s.step.value, f).value;
      CheckRecords(s.step.value, f);
      x :| x in t.env.names - outer && x !in t.env.moved;
      answers, m := WayOn(s.step.value, g, {});
      forall w: World, fuel: nat | fuel >= m && Matched(f.env, w) && Follows(w, answers)
        ensures Losing(x, outer, f.env.names, Exec(s, {}, w, fuel))
      {
        RunMatches(s.step.value, g, f, outer, w, fuel);
        var e := Exec(s.step.value, {}, w, fuel);
        assert e.w.live - {} == e.w.live;
      }
    }
  }

  lemma {:induction false} BlockLoses(s: Stmt, g: set<Name>, f: Flow, outer: set<Name>)
    returns (x: Name, answers: seq<bool>, m: nat)
    requires s.Block? && Ready(s, g, f, outer) && !Tight(s, g, f, outer)
    ensures Loses(s, x, f, outer, answers, m)
    decreases s, 0
  {
    var own := AllBinds(s.stmts, {});
    CheckAllRecords(s.stmts, f);
    x, answers, m := AllUntightLose(s.stmts, g, f, outer, f.env.names + own);
    forall w: World, fuel: nat | fuel >= m && Matched(f.env, w) && Follows(w, answers)
      ensures Losing(x, outer, f.env.names, Exec(s, {}, w, fuel))
    {
      BlockLeft(x, outer, f.env.names, own, ExecAll(s.stmts, {}, w, fuel));
    }
  }

  /** At the end of a block what is pending is lost if it was bound there. */
  lemma BlockLeft(x: Name, outer: set<Name>, names: set<Name>, own: set<Name>, e: Result)
    requires Losing(x, outer, names + own, e)
    ensures Losing(x, outer, names, Leave(own, e))
  {
    match e.out
    case Continued(left) => assert Drop(left + own, e.w).live == Drop(left, e.w).live - own;
    case _ =>
  }

  lemma {:induction false} AllUntightLose(ss: seq<Stmt>, g: set<Name>, f: Flow, outer: set<Name>, names: set<Name>)
    returns (x: Name, answers: seq<bool>, m: nat)
    requires (forall i :: 0 <= i < |ss| ==> Ordinary(ss[i])) && Clean(f.env) && CheckAll(ss, f).Some?
    requires AllGiven(ss, g, {}) && g <= f.env.names && outer <= f.env.names && !AllTight(ss, g, f, outer)
    requires f.env.names + AllBinds(ss, {}) <= names
    ensures AllLose(ss, x, f, outer, names, answers, m)
    decreases ss, 0
  {
    if !Tight(ss[0], g, f, outer) {
      x, answers, m := UntightLoses(ss[0], g, f, outer);
      forall w: World, fuel: nat | fuel >= m && Matched(f.env, w) && Follows(w, answers)
        ensures Losing(x, outer, names, ExecAll(ss, {}, w, fuel))
      {
        FirstLoses(ss, x, f, outer, names, w, fuel);
      }
    } else {
      var t, h := Check(ss[0], f).value, After(ss[0], g, {}).normal.value;
      CheckRecords(ss[0], f);
      CheckClean(ss[0], f);
      GivenInScope(ss[0], g, {}, f);
      var more, m2;
      x, more, m2 := AllUntightLose(ss[1..], h, t, outer, names);
      var first, m1 := WayOn(ss[0], g, {});
      answers, m := first + more, m1 + m2;
      forall w: World, fuel: nat | fuel >= m && Matched(f.env, w) && Follows(w, answers)
        ensures Losing(x, outer, names, ExecAll(ss, {}, w, fuel))
      {
        var e := Exec(ss[0], {}, w, fuel);
        FollowsOn(w, first, more, e.w);
        RunMatches(ss[0], g, f, outer, w, fuel);
      }
    }
  }

  lemma FirstLoses(ss: seq<Stmt>, x: Name, f: Flow, outer: set<Name>, names: set<Name>, w: World, fuel: nat)
    requires ss != [] && (forall i :: 0 <= i < |ss| ==> Ordinary(ss[i])) && f.env.names <= names
    requires Losing(x, outer, f.env.names, Exec(ss[0], {}, w, fuel))
    ensures Losing(x, outer, names, ExecAll(ss, {}, w, fuel))
  {
    var e := Exec(ss[0], {}, w, fuel);
    if e.out.Normal? {
      AllLostStays(ss[1..], x, e.w, fuel);
      LostIsLosing(x, outer, names, ExecAll(ss[1..], {}, e.w, fuel));
    }
  }

  lemma LostIsLosing(x: Name, outer: set<Name>, names: set<Name>, e: Result)
    requires Lost(x, e.w)
    ensures Losing(x, outer, names, e)
  {
  }

  // ----- a loop that loses -----

  lemma {:induction false} LoopLoses(s: Stmt, g: set<Name>, f: Flow, outer: set<Name>)
    returns (x: Name, answers: seq<bool>, m: nat)
    requires s.Loop? && Ready(s, g, f, outer) && !Tight(s, g, f, outer)
    ensures Loses(s, x, f, outer, answers, m)
    decreases s, 0
  {
    var h := Head(s.body, g, {});
    HeadStays(s.body, g, {});
    assert {} + Binds(s.body, {}) == {};
    LoopEndIs(s.body, f);
    if !Tight(s.body, h, Entering(f), f.env.names) {
      x, answers, m := UntightLoses(s.body, h, Entering(f), f.env.names);
      m := m + 1;
      forall w: World, fuel: nat | fuel >= m && Matched(f.env, w) && Follows(w, answers)
        ensures Losing(x, outer, f.env.names, Exec(s, {}, w, fuel))
      {
        BodyLoses(s, x, f.env.names, w, fuel);
        LostIsLosing(x, outer, f.env.names, Exec(s, {}, w, fuel));
      }
    } else {
      x, answers, m := HeadLoses(s, h, f, outer);
    }
  }

  /** Once round, or out, and lost. */
  lemma BodyLoses(s: Stmt, x: Name, outer: set<Name>, w: World, fuel: nat)
    requires s.Loop? && Ordinary(s) && fuel > 0 && Losing(x, outer, outer, Exec(s.body, {}, w, fuel - 1))
    ensures Lost(x, Exec(s, {}, w, fuel).w)
  {
    var e := Exec(s.body, {}, w, fuel - 1);
    if e.out.Normal? { LostStays(s, x, e.w, fuel - 1); }
    if e.out.Continued? { LostStays(s, x, Drop(e.out.left, e.w), fuel - 1); }
  }

  /** Every run of the body with these answers gets back to the head. */
  ghost predicate RunsBack(body: Stmt, answers: seq<bool>, m: nat) {
    forall w: World, fuel: nat :: fuel >= m && Follows(w, answers) ==>
      var r := Exec(body, {}, w, fuel);
      r.out.NotHeld? || ((r.out.Normal? || r.out.Continued?) && Tossed(w, r.w, |answers|))
  }

  /** To the end of a body, or back to the head from within. */
  lemma WayBack(body: Stmt, h: set<Name>) returns (answers: seq<bool>, m: nat)
    requires var a := After(body, h, {}); a.normal.Some? || a.conts.Some?
    ensures RunsBack(body, answers, m)
  {
    EachByItself(body, "a", h, h + {""}, {});
    var e := if After(body, h, {}).normal.Some? then ToEnd else ToContinue;
    answers, m := Way(body, "", h + {""}, {}, e);
    forall w: World, fuel: nat | fuel >= m && Follows(w, answers)
      ensures var r := Exec(body, {}, w, fuel);
              r.out.NotHeld? || ((r.out.Normal? || r.out.Continued?) && Tossed(w, r.w, |answers|))
    {
      assert Missing("", h + {""}, w);
    }
  }

  /** What the run is at the head again. */
  function Again(r: Result): World
    requires r.out.Normal? || r.out.Continued?
  {
    if r.out.Normal? then r.w else Drop(r.out.left, r.w)
  }

  /** Round the loop once: what the ways back agree to hold is held. */
  lemma BackHolds(s: Stmt, h: set<Name>, f: Flow, w: World, fuel: nat, x: Name)
    requires BodyIsReady(s, h, f) && Matched(f.env, w) && BackHas(s, f, x)
    requires var r := Exec(s.body, {}, w, fuel); r.out.Normal? || r.out.Continued?
    ensures var v := Again(Exec(s.body, {}, w, fuel)); x in v.live && w.live <= v.live && Exactly(v)
  {
    EnteringIsEmpty(f);
    var fb, b := Entering(f), Check(s.body, Entering(f)).value;
    RunMatches(s.body, h, fb, f.env.names, w, fuel);
    EndsOnward(s.body, h, fb, w, fuel);
    LoopEndIs(s.body, f);
    var backs, r := BackEdges(s.body, b), Exec(s.body, {}, w, fuel);
    if r.out.Normal? {
      assert backs[0] == b.env;
    } else {
      var k :| 0 <= k < |Conts(b)| && r.w.live <= f.env.names && r.w.live == Conts(b)[k].names - Conts(b)[k].moved;
      assert backs[(if FallsThrough(s.body) then 1 else 0) + k] == Conts(b)[k];
      AgreePairs(f.env.names, backs, backs[0], Conts(b)[k]);
      assert f.env.names <= Conts(b)[k].names;
    }
  }

  ghost predicate BodyIsReady(s: Stmt, h: set<Name>, f: Flow) {
    && s.Loop? && Ordinary(s) && Clean(f.env) && Check(s, f).Some? && Check(s.body, Entering(f)).Some?
    && LoopAgrees(s.body, f, Check(s.body, Entering(f)).value)
    && Given(s.body, h, {}) && h <= f.env.names && Tight(s.body, h, Entering(f), f.env.names)
  }

  /** The ways back agree to hold x, which was not held before the loop. */
  predicate BackHas(s: Stmt, f: Flow, x: Name)
    requires s.Loop? && Check(s.body, Entering(f)).Some?
  {
    var backs := BackEdges(s.body, Check(s.body, Entering(f)).value);
    backs != [] && x in f.env.names && x in f.env.moved && x !in backs[0].moved
  }

  /** Going round twice the same way, the second time gives x while it is held. */
  lemma HeadLoses(s: Stmt, h: set<Name>, f: Flow, outer: set<Name>) returns (x: Name, answers: seq<bool>, m: nat)
    requires BodyIsReady(s, h, f) && !BringsNothing(f, BackEdges(s.body, Check(s.body, Entering(f)).value))
    requires var a := After(s.body, h, {}); a.normal.Some? || a.conts.Some?
    ensures Loses(s, x, f, outer, answers, m)
  {
    var backs := BackEdges(s.body, Check(s.body, Entering(f)).value);
    x :| x in f.env.moved && x !in backs[0].moved;
    var first, m1 := WayBack(s.body, h);
    answers, m := first + first, m1 + 2;
    forall w: World, fuel: nat | fuel >= m && Matched(f.env, w) && Follows(w, answers)
      ensures Losing(x, outer, f.env.names, Exec(s, {}, w, fuel))
    {
      SecondPass(s, h, f, x, first, m1, w, fuel);
      LostIsLosing(x, outer, f.env.names, Exec(s, {}, w, fuel));
    }
  }

  /** The first world with the answers that the second one gets. */
  function Replay(w: World, v: World): World { World(w.live, w.trace, (i: nat) => Answer(v, i), 0) }

  lemma ReplayFollows(w: World, v: World, answers: seq<bool>)
    requires Follows(v, answers)
    ensures Follows(Replay(w, v), answers) && SameAnswers(Replay(w, v), v)
  {
  }

  lemma OnePass(s: Stmt, h: set<Name>, f: Flow, x: Name, first: seq<bool>, m: nat, w: World, fuel: nat)
    requires BodyIsReady(s, h, f) && BackHas(s, f, x) && fuel >= m && Matched(f.env, w) && Follows(w, first)
    requires RunsBack(s.body, first, m)
    ensures var r := Exec(s.body, {}, w, fuel);
            && (r.out.Normal? || r.out.Continued?) && Tossed(w, r.w, |first|)
            && x in Again(r).live && w.live <= Again(r).live && Exactly(Again(r))
  {
    NoFailure(s.body, h, Entering(f), w, fuel);
    BackHolds(s, h, f, w, fuel, x);
  }

  lemma SecondPass(s: Stmt, h: set<Name>, f: Flow, x: Name, first: seq<bool>, m: nat, w: World, fuel: nat)
    requires BodyIsReady(s, h, f) && BackHas(s, f, x) && fuel >= m + 2 && Matched(f.env, w) && Follows(w, first + first)
    requires RunsBack(s.body, first, m)
    ensures Lost(x, Exec(s, {}, w, fuel).w)
  {
    FollowsOn(w, first, first, w);
    OnePass(s, h, f, x, first, m, w, fuel - 1);
    var r := Exec(s.body, {}, w, fuel - 1);
    var v := Again(r);
    FollowsOn(w, first, first, v);
    var a := Replay(w, v);
    ReplayFollows(w, v, first);
    OnePass(s, h, f, x, first, m, a, fuel - 2);
    PassLoses(s, x, a, v, fuel - 2);
    LostOn(s, x, w, fuel);
  }

  /** What the first pass gives while it is not held, the second gives while it is. */
  lemma PassLoses(s: Stmt, x: Name, a: World, v: World, fuel: nat)
    requires s.Loop? && Ordinary(s) && Ahead(a, v) && Exactly(v) && x in v.live && x !in a.live
    requires var p := Exec(s.body, {}, a, fuel); (p.out.Normal? || p.out.Continued?) && x in Again(p).live
    ensures var q := Exec(s.body, {}, v, fuel); (q.out.Normal? || q.out.Continued?) && Lost(x, q.w)
  {
    assert Holding(v.trace, x) == Some(x in v.live);
    RunFollows(s.body, x, a, v, fuel);
  }

  lemma LostOn(s: Stmt, x: Name, w: World, fuel: nat)
    requires s.Loop? && Ordinary(s) && fuel >= 2
    requires var r := Exec(s.body, {}, w, fuel - 1);
             (r.out.Normal? || r.out.Continued?) && Lost(x, Exec(s.body, {}, Again(r), fuel - 2).w)
    requires var q := Exec(s.body, {}, Again(Exec(s.body, {}, w, fuel - 1)), fuel - 2); q.out.Normal? || q.out.Continued?
    ensures Lost(x, Exec(s, {}, w, fuel).w)
  {
    var v := Again(Exec(s.body, {}, w, fuel - 1));
    var q := Exec(s.body, {}, v, fuel - 2);
    LostStays(s, x, Again(q), fuel - 2);
    assert Exec(s, {}, w, fuel) == Exec(s, {}, v, fuel - 1);
    assert Exec(s, {}, v, fuel - 1) == Exec(s, {}, Again(q), fuel - 2);
  }

  lemma NoFailure(s: Stmt, g: set<Name>, f: Flow, w: World, fuel: nat)
    requires Check(s, f).Some? && Given(s, g, {}) && g <= f.env.names && Matched(f.env, w)
    ensures !Exec(s, {}, w, fuel).out.NotHeld?
  {
    MatchedCovers(g, f.env, w);
    CheckExplainsRuns(s, g, {}, f, w, fuel);
  }

  // ----- functions -----

  /** At every moment each resource that was given and not taken is held by a binding
      in scope, and none is when the function is left. */
  ghost predicate HeldOrTaken(params: set<Name>, body: Stmt) {
    forall w: World, fuel: nat :: Begins(params, w) ==>
      var e := Exec(body, {}, w, fuel);
      !e.out.NotHeld? && Exactly(e.w) && (e.out.Normal? || e.out.Returned? ==> e.w.live == {})
  }

  /** On every run of an accepted function, loops included, each resource is held until
      it is taken, once, and taken before the function is left, exactly if each use is
      of a name that is certainly given and its loops are tight. */
  lemma HeldOrTakenExactly(params: set<Name>, body: Stmt)
    requires body.Block? && Ordinary(body) && CheckFunction(params, body)
    ensures HeldOrTaken(params, body) <==>
              Given(body, params, {}) && Tight(body, params, Flow(Env(params, {}), []), {})
  {
    var f := Flow(Env(params, {}), []);
    CheckRecords(body, f);
    if !Given(body, params, {}) {
      var trace := GivesAll(params);
      var w, fuel := SomeRunFails(params, body, trace);
      assert Begins(params, w);
    } else if !Tight(body, params, f, {}) {
      var trace := GivesAll(params);
      var x, answers, m := UntightLoses(body, params, f, {});
      var w := Beginning(params, trace, answers);
      assert Begins(params, w) && Matched(f.env, w);
      MatchedCovers(params, f.env, w);
      CheckExplainsRuns(body, params, {}, f, w, m);
      assert Losing(x, {}, params, Exec(body, {}, w, m));
    } else {
      forall w: World, fuel: nat | Begins(params, w)
        ensures var e := Exec(body, {}, w, fuel);
                !e.out.NotHeld? && Exactly(e.w) && (e.out.Normal? || e.out.Returned? ==> e.w.live == {})
      {
        RunMatches(body, params, f, {}, w, fuel);
      }
    }
  }

  /** The same for a source body with `for` loops, run as it is written. */
  lemma SourceHeldOrTaken(params: set<Name>, body: Stmt)
    requires body.Block? && OrdinarySource(body) && PlainContinues(body) && CheckFunction(params, Lower(body))
    ensures HeldOrTaken(params, body) <==>
              Given(Lower(body), params, {}) && Tight(Lower(body), params, Flow(Env(params, {}), []), {})
  {
    LoweredIsOrdinary(body);
    forall w: World, fuel: nat ensures Exec(Lower(body), {}, w, fuel) == Exec(body, {}, w, fuel) {
      LowerPreservesRuns(body, {}, w, fuel);
    }
    HeldOrTakenExactly(params, Lower(body));
    if HeldOrTaken(params, body) { assert HeldOrTaken(params, Lower(body)); }
  }
}
