/** Where the ownership checker loses a resource: a join that forgets one leaves it
    held, or overwritten, to the end of the function. */
module OwnershipLeaks {
  import opened Wrappers
  import opened Boson
  import opened Ownership
  import opened OwnershipGiven
  import opened OwnershipSoundness
  import opened OwnershipExact
  import opened Lowering

  /** x was lost: overwritten while it was held, or held where the checker, as long as
      x is not given anew, takes it to be moved. */
  ghost predicate Stray(x: Name, g: set<Name>, env: Env, w: World) {
    || Holding(w.trace, x) == None
    || (Holding(w.trace, x) == Some(true) && (x in g ==> x in env.moved))
  }

  ghost predicate Strays(x: Name, s: Stmt, a: Ways, r: Flow, e: Result) {
    match e.out
    case Normal => FallsThrough(s) && a.normal.Some? && Stray(x, a.normal.value, r.env, e.w)
    case Returned => Holding(e.w.trace, x) != Some(false)
    case _ => false
  }

  lemma SourceStray(x: Name, src: Source, g: set<Name>, env: Env, w: World)
    requires Stray(x, g, env, w) && CheckSource(src, env).Some? && SourceNames(Some(src)) <= g
    requires TakeSource(src, w).out.Normal?
    ensures Stray(x, g, CheckSource(src, env).value, TakeSource(src, w).w)
  {
    if src.From? { HoldingSnoc(w.trace, Took(src.name), x); }
  }

  lemma DeclareStray(s: Stmt, x: Name, g: set<Name>, n: set<Name>, f: Flow, w: World)
    requires s.Declare? && Check(s, f).Some? && Given(s, g, n) && g <= f.env.names && Stray(x, g, f.env, w)
    requires Exec(s, {}, w, 0).out.Normal?
    ensures Stray(x, After(s, g, n).normal.value, Check(s, f).value.env, Exec(s, {}, w, 0).w)
  {
    if s.init.Some? {
      var bound := Drop({s.x}, w);
      SourceStray(x, s.init.value, g, f.env.Bind(s.x), bound);
      HoldingSnoc(TakeSource(s.init.value, bound).w.trace, Gave(s.x), x);
    }
  }

  /** Once lost, always lost. */
  lemma {:induction false} StrayStays(s: Stmt, x: Name, g: set<Name>, n: set<Name>, f: Flow, w: World, fuel: nat)
    requires LoopFree(s) && Check(s, f).Some? && Given(s, g, n) && g <= f.env.names && Covers(g, n, f.env, w.live)
    requires Stray(x, g, f.env, w)
    ensures Strays(x, s, After(s, g, n), Check(s, f).value, Exec(s, {}, w, fuel))
    decreases s, 1
  {
    CheckExplainsRuns(s, g, n, f, w, fuel);
    match s
    case Use(y) => HoldingSnoc(w.trace, Read(y), x);
    case Consume(y) => HoldingSnoc(w.trace, Took(y), x);
    case Dispose(y) => HoldingSnoc(w.trace, Took(y), x);
    case Declare(_, _) => DeclareStray(s, x, g, n, f, w);
    case Assign(y, src) =>
      SourceStray(x, src, g, f.env, w);
      HoldingSnoc(TakeSource(src, w).w.trace, Gave(y), x);
    case Return(val) => if val.Some? { SourceStray(x, val.value, g, f.env, w); }
    case If(_, _, _) => IfStrays(s, x, g, n, f, w, fuel);
    case Block(stmts) =>
      AllStray(stmts, x, g, n, f, w, fuel);
      BlockStrays(stmts, x, g, n, f, ExecAll(stmts, {}, w, fuel));
  }

  lemma BlockStrays(ss: seq<Stmt>, x: Name, g: set<Name>, n: set<Name>, f: Flow, e: Result)
    requires Check(Block(ss), f).Some? && g <= f.env.names
    requires Strays(x, Block(ss), AllAfter(ss, g, n), CheckAll(ss, f).value, e)
    ensures Strays(x, Block(ss), After(Block(ss), g, n), Check(Block(ss), f).value, Leave(AllBinds(ss, {}), e))
  {
    CheckAllRecords(ss, f);
    AllGivenInScope(ss, g, n, f);
  }

  lemma {:induction false} AllStray(ss: seq<Stmt>, x: Name, g: set<Name>, n: set<Name>, f: Flow, w: World, fuel: nat)
    requires forall i :: 0 <= i < |ss| ==> LoopFree(ss[i])
    requires CheckAll(ss, f).Some? && AllGiven(ss, g, n) && g <= f.env.names && Covers(g, n, f.env, w.live)
    requires Stray(x, g, f.env, w)
    ensures Strays(x, Block(ss), AllAfter(ss, g, n), CheckAll(ss, f).value, ExecAll(ss, {}, w, fuel))
    decreases ss, 0
  {
    if ss != [] {
      StrayStays(ss[0], x, g, n, f, w, fuel);
      CheckExplainsRuns(ss[0], g, n, f, w, fuel);
      RestStrays(ss, x, g, n, f, w, fuel);
    }
  }

  /** The rest of a list after a statement that lost x. */
  lemma {:induction false} RestStrays(ss: seq<Stmt>, x: Name, g: set<Name>, n: set<Name>, f: Flow, w: World, fuel: nat)
    requires ss != [] && forall i :: 0 <= i < |ss| ==> LoopFree(ss[i])
    requires CheckAll(ss, f).Some? && AllGiven(ss, g, n) && g <= f.env.names && Covers(g, n, f.env, w.live)
    requires Strays(x, ss[0], After(ss[0], g, n), Check(ss[0], f).value, Exec(ss[0], {}, w, fuel))
    ensures Strays(x, Block(ss), AllAfter(ss, g, n), CheckAll(ss, f).value, ExecAll(ss, {}, w, fuel))
    decreases ss, -1
  {
    CheckExplainsRuns(ss[0], g, n, f, w, fuel);
    GivenInScope(ss[0], g, n, f);
    AllFall(ss);
    var a, e := After(ss[0], g, n), Exec(ss[0], {}, w, fuel);
    if e.out.Normal? { AllStray(ss[1..], x, a.normal.value, n, Check(ss[0], f).value, e.w, fuel); }
  }

  lemma {:induction false} IfStrays(s: Stmt, x: Name, g: set<Name>, n: set<Name>, f: Flow, w: World, fuel: nat)
    requires s.If? && LoopFree(s) && Check(s, f).Some? && Given(s, g, n) && g <= f.env.names && Covers(g, n, f.env, w.live)
    requires Stray(x, g, f.env, w)
    ensures Strays(x, s, After(s, g, n), Check(s, f).value, Exec(s, {}, w, fuel))
    decreases s, 0
  {
    TestCovered(s.cond, g, n, f.env, w);
    var (c, b) := Test(s.cond, w);
    TestHolds(s.cond, w, x);
    CheckRecords(s.thn, f);
    if b {
      StrayStays(s.thn, x, g, n, f, c.w, fuel);
      ThenStrays(s, x, g, n, f, Exec(s.thn, {}, c.w, fuel));
    } else if s.els.Some? {
      var t := Check(s.thn, f).value;
      var start := t.(env := Restore(t.env, f.env));
      assert Covers(g, n + Binds(s.thn, {}), start.env, c.w.live);
      StrayStays(s.els.value, x, g, n + Binds(s.thn, {}), start, c.w, fuel);
      ElseStrays(s, x, g, n, f, Exec(s.els.value, {}, c.w, fuel));
    }
  }

  lemma ThenStrays(s: Stmt, x: Name, g: set<Name>, n: set<Name>, f: Flow, e: Result)
    requires s.If? && Check(s, f).Some? && g <= f.env.names
    requires Strays(x, s.thn, After(s.thn, g, n), Check(s.thn, f).value, e)
    ensures Strays(x, s, After(s, g, n), Check(s, f).value, e)
  {
    CheckRecords(s.thn, f);
    GivenInScope(s.thn, g, n, f);
    var t := Check(s.thn, f).value;
    if s.els.Some? { CheckRecords(s.els.value, t.(env := Restore(t.env, f.env))); }
  }

  lemma ElseStrays(s: Stmt, x: Name, g: set<Name>, n: set<Name>, f: Flow, e: Result)
    requires s.If? && s.els.Some? && Check(s, f).Some? && Given(s, g, n) && g <= f.env.names
    requires var t := Check(s.thn, f).value;
             var start := t.(env := Restore(t.env, f.env));
             Strays(x, s.els.value, After(s.els.value, g, n + Binds(s.thn, {})), Check(s.els.value, start).value, e)
    ensures Strays(x, s, After(s, g, n), Check(s, f).value, e)
  {
    if e.out.Normal? {
      var inner := n + Binds(s.thn, {});
      var t := Check(s.thn, f).value;
      CheckRecords(s.thn, f);
      IfMeets(s, g, n);
      GivenInScope(s, g, n, f);
      JoinFlags(s, f);
      hide Check, After;
      if x in Binds(s.thn, {}) && x !in t.env.moved { Untouched(s.els.value, x, g, inner, t.(env := Restore(t.env, f.env))); }
    }
  }

  // ----- a join that forgets -----

  /** A state that lost nothing. */
  ghost predicate LostNothing(g: set<Name>, n: set<Name>, env: Env, w: World) {
    Covers(g, n, env, w.live) && Exactly(w) && Known(env, w)
  }

  /** With these answers every run from a state that lost nothing loses x. */
  ghost predicate Loses(s: Stmt, x: Name, g: set<Name>, n: set<Name>, f: Flow, answers: seq<bool>, m: nat)
    requires Check(s, f).Some?
  {
    forall w: World, fuel: nat ::
      fuel >= m && LostNothing(g, n, f.env, w) && Follows(w, answers) ==>
        Strays(x, s, After(s, g, n), Check(s, f).value, Exec(s, {}, w, fuel))
  }

  lemma {:induction false} ForgottenIsLost(s: Stmt, g: set<Name>, n: set<Name>, f: Flow)
    returns (x: Name, answers: seq<bool>, m: nat)
    requires LoopFree(s) && Check(s, f).Some? && Given(s, g, n) && !Keeps(s, g, n) && g <= f.env.names
    ensures Loses(s, x, g, n, f, answers, m)
    decreases s, 1
  {
    match s
    case If(_, _, _) => x, answers, m := IfForgets(s, g, n, f);
    case Block(stmts) =>
      x, answers, m := AllForget(stmts, g, n, f);
      forall w: World, fuel: nat | fuel >= m && LostNothing(g, n, f.env, w) && Follows(w, answers)
        ensures Strays(x, s, After(s, g, n), Check(s, f).value, Exec(s, {}, w, fuel))
      {
        BlockStrays(stmts, x, g, n, f, ExecAll(stmts, {}, w, fuel));
      }
  }

  lemma {:induction false} AllForget(ss: seq<Stmt>, g: set<Name>, n: set<Name>, f: Flow)
    returns (x: Name, answers: seq<bool>, m: nat)
    requires (forall i :: 0 <= i < |ss| ==> LoopFree(ss[i])) && CheckAll(ss, f).Some? && AllGiven(ss, g, n)
    requires !AllKeep(ss, g, n) && g <= f.env.names
    ensures forall w: World, fuel: nat ::
              fuel >= m && LostNothing(g, n, f.env, w) && Follows(w, answers) ==>
                Strays(x, Block(ss), AllAfter(ss, g, n), CheckAll(ss, f).value, ExecAll(ss, {}, w, fuel))
    decreases ss, 0
  {
    if !Keeps(ss[0], g, n) {
      x, answers, m := ForgottenIsLost(ss[0], g, n, f);
      forall w: World, fuel: nat | fuel >= m && LostNothing(g, n, f.env, w) && Follows(w, answers)
        ensures Strays(x, Block(ss), AllAfter(ss, g, n), CheckAll(ss, f).value, ExecAll(ss, {}, w, fuel))
      {
        RestStrays(ss, x, g, n, f, w, fuel);
      }
    } else {
      var h := After(ss[0], g, n).normal.value;
      if !FallsThrough(ss[0]) { NoEnd(ss[0], g, n); }
      GivenInScope(ss[0], g, n, f);
      var more, m2;
      x, more, m2 := AllForget(ss[1..], h, n, Check(ss[0], f).value);
      var first, m1 := WayOn(ss[0], g, n);
      answers, m := first + more, m1 + m2;
      forall w: World, fuel: nat | fuel >= m && LostNothing(g, n, f.env, w) && Follows(w, answers)
        ensures Strays(x, Block(ss), AllAfter(ss, g, n), CheckAll(ss, f).value, ExecAll(ss, {}, w, fuel))
      {
        hide Check, After, Given, Keeps, Holding, Follows, Covers, Exactly, Known;
        var e := Exec(ss[0], {}, w, fuel);
        FollowsOn(w, first, more, e.w);
        CheckExplainsRuns(ss[0], g, n, f, w, fuel);
        CheckSettlesRuns(ss[0], g, n, f, w, fuel);
        LaterStrays(ss, x, g, n, f, ExecAll(ss[1..], {}, e.w, fuel));
      }
    }
  }

  lemma LaterStrays(ss: seq<Stmt>, x: Name, g: set<Name>, n: set<Name>, f: Flow, e: Result)
    requires ss != [] && CheckAll(ss, f).Some? && FallsThrough(ss[0]) && After(ss[0], g, n).normal.Some?
    requires var h := After(ss[0], g, n).normal.value;
             Strays(x, Block(ss[1..]), AllAfter(ss[1..], h, n), CheckAll(ss[1..], Check(ss[0], f).value).value, e)
    ensures Strays(x, Block(ss), AllAfter(ss, g, n), CheckAll(ss, f).value, e)
  {
    AllFall(ss);
  }

  /** To the end of a statement that has one. */
  lemma WayOn(s: Stmt, g: set<Name>, n: set<Name>) returns (answers: seq<bool>, m: nat)
    requires After(s, g, n).normal.Some?
    ensures forall w: World, fuel: nat :: fuel >= m && Follows(w, answers) ==>
              var r := Exec(s, {}, w, fuel); r.out.NotHeld? || (r.out.Normal? && Tossed(w, r.w, |answers|))
  {
    EachByItself(s, "a", g, g + {""}, n);
    answers, m := Way(s, "", g + {""}, n, ToEnd);
    forall w: World, fuel: nat | fuel >= m && Follows(w, answers)
      ensures var r := Exec(s, {}, w, fuel); r.out.NotHeld? || (r.out.Normal? && Tossed(w, r.w, |answers|))
    {
      assert Missing("", g + {""}, w);
    }
  }

  lemma {:induction false} IfForgets(s: Stmt, g: set<Name>, n: set<Name>, f: Flow)
    returns (x: Name, answers: seq<bool>, m: nat)
    requires s.If? && LoopFree(s) && Check(s, f).Some? && Given(s, g, n) && !Keeps(s, g, n) && g <= f.env.names
    ensures Loses(s, x, g, n, f, answers, m)
    decreases s, 0
  {
    CheckRecords(s.thn, f);
    var t := Check(s.thn, f).value;
    var start := t.(env := Restore(t.env, f.env));
    var inner := n + Binds(s.thn, {});
    var b := !Keeps(s.thn, g, n);
    var rest;
    if b {
      x, rest, m := ForgottenIsLost(s.thn, g, n, f);
    } else if !Keeps(s.els.value, g, inner) {
      x, rest, m := ForgottenIsLost(s.els.value, g, inner, start);
    } else {
      x :| x in After(s.els.value, g, inner).normal.value && x in Binds(s.thn, {});
      rest, m := ElseForgets(s, x, g, n, f);
    }
    var a := TossFor(s.cond, b);
    answers := [a] + rest;
    forall w: World, fuel: nat | fuel >= m && LostNothing(g, n, f.env, w) && Follows(w, answers)
      ensures Strays(x, s, After(s, g, n), Check(s, f).value, Exec(s, {}, w, fuel))
    {
      var c := Test(s.cond, w).0;
      ArmReached(s, g, n, f, w, a, rest, b);
      if b {
        assert Exec(s, {}, w, fuel) == Exec(s.thn, {}, c.w, fuel);
        ThenStrays(s, x, g, n, f, Exec(s.thn, {}, c.w, fuel));
      } else {
        assert Exec(s, {}, w, fuel) == Exec(s.els.value, {}, c.w, fuel);
        if !Keeps(s.els.value, g, inner) { ElseStrays(s, x, g, n, f, Exec(s.els.value, {}, c.w, fuel)); }
      }
    }
  }

  lemma ArmReached(s: Stmt, g: set<Name>, n: set<Name>, f: Flow, w: World, a: bool, rest: seq<bool>, b: bool)
    requires s.If? && Check(s, f).Some? && Given(s, g, n) && g <= f.env.names
    requires LostNothing(g, n, f.env, w) && Follows(w, [a] + rest)
    requires forall v: World :: v.coins(v.tossed) == a ==>
               var (r, d) := Test(s.cond, v);
               r.out.NotHeld? || (r.out.Normal? && d == b && Tossed(v, r.w, 1) && r.w.live == v.live)
    ensures var (c, d) := Test(s.cond, w);
            var t := Check(s.thn, f).value;
            var start := t.(env := Restore(t.env, f.env));
            && c.out.Normal? && d == b && Follows(c.w, rest) && Exactly(c.w) && Known(f.env, c.w) && Known(start.env, c.w)
            && Covers(g, n, f.env, c.w.live) && Covers(g, n + Binds(s.thn, {}), start.env, c.w.live)
  {
    TestCovered(s.cond, g, n, f.env, w);
    assert w.coins(w.tossed + 0) == ([a] + rest)[0];
    var c := Test(s.cond, w).0;
    FollowsOn(w, [a], rest, c.w);
    forall y ensures Holding(c.w.trace, y) == Holding(w.trace, y) { TestHolds(s.cond, w, y); }
    CheckRecords(s.thn, f);
  }

  /** The name that the `else` arm leaves given is held, and the checker goes on as if
      it were moved. */
  lemma {:induction false} ElseForgets(s: Stmt, x: Name, g: set<Name>, n: set<Name>, f: Flow)
    returns (answers: seq<bool>, m: nat)
    requires s.If? && s.els.Some? && LoopFree(s) && Check(s, f).Some? && Given(s, g, n) && g <= f.env.names
    requires Keeps(s.els.value, g, n + Binds(s.thn, {})) && Forgets(s, g, n)
    requires x in After(s.els.value, g, n + Binds(s.thn, {})).normal.value && x in Binds(s.thn, {})
    ensures var t := Check(s.thn, f).value;
            var start := t.(env := Restore(t.env, f.env));
            forall w: World, fuel: nat ::
              fuel >= m && LostNothing(g, n + Binds(s.thn, {}), start.env, w) && Follows(w, answers)
              ==> Strays(x, s, After(s, g, n), Check(s, f).value, Exec(s.els.value, {}, w, fuel))
  {
    CheckRecords(s.thn, f);
    var t := Check(s.thn, f).value;
    var start := t.(env := Restore(t.env, f.env));
    var inner := n + Binds(s.thn, {});
    var els := s.els.value;
    if !FallsThrough(els) { NoEnd(els, g, inner); }
    CheckRecords(els, start);
    answers, m := Way(els, x, g, inner, ToEnd);
    if x !in t.env.moved { Untouched(els, x, g, inner, start); }
    assert x in Check(s, f).value.env.moved;
    forall w: World, fuel: nat |
      fuel >= m && LostNothing(g, inner, start.env, w) && Follows(w, answers)
      ensures Strays(x, s, After(s, g, n), Check(s, f).value, Exec(els, {}, w, fuel))
    {
      var e := Exec(els, {}, w, fuel);
      assert x in start.env.moved && x !in w.live;
      assert Arrives(x, ToEnd, After(els, g, inner).normal.value, w, |answers|, e);
      CheckExplainsRuns(els, g, inner, start, w, fuel);
      CheckSettlesRuns(els, g, inner, start, w, fuel);
      assert Holding(e.w.trace, x) == Some(x in e.w.live);
    }
  }

  // ----- the function -----

  /** The parameters hold a resource each, and nothing else does. */
  ghost predicate Begins(params: set<Name>, w: World) { w.live == params && Exactly(w) }

  /** Whichever way the function is left, every resource has been taken, once. */
  ghost predicate AlwaysSettles(params: set<Name>, body: Stmt) {
    forall w: World, fuel: nat :: Begins(params, w) ==>
      var e := Exec(body, {}, w, fuel); (e.out.Normal? || e.out.Returned?) && Settled(e.w)
  }

  lemma {:induction false} GivesAll(params: set<Name>) returns (trace: seq<Event>)
    ensures forall x :: Holding(trace, x) == Some(x in params)
  {
    if params == {} {
      trace := [];
    } else {
      var y :| y in params;
      var rest := GivesAll(params - {y});
      trace := rest + [Gave(y)];
      forall x ensures Holding(trace, x) == Some(x in params) { HoldingSnoc(rest, Gave(y), x); }
    }
  }

  /** Every resource given to a parameter or binding of an accepted loop-free function
      is taken exactly once, whichever way the function is left, exactly if each use
      is of a name that is certainly given and no join forgets one. */
  lemma TakenExactlyOnce(params: set<Name>, body: Stmt)
    requires body.Block? && LoopFree(body) && CheckFunction(params, body)
    ensures AlwaysSettles(params, body) <==> Given(body, params, {}) && Keeps(body, params, {})
  {
    var f := Flow(Env(params, {}), []);
    if !Given(body, params, {}) {
      var trace := GivesAll(params);
      var w, fuel := SomeRunFails(params, body, trace);
      assert Begins(params, w);
    } else if !Keeps(body, params, {}) {
      var trace := GivesAll(params);
      var x, answers, m := ForgottenIsLost(body, params, {}, f);
      var w := Beginning(params, trace, answers);
      assert Begins(params, w) && Known(f.env, w);
      assert Strays(x, body, After(body, params, {}), Check(body, f).value, Exec(body, {}, w, m));
    } else {
      forall w: World, fuel: nat | Begins(params, w)
        ensures var e := Exec(body, {}, w, fuel); (e.out.Normal? || e.out.Returned?) && Settled(e.w)
      {
        CheckSettlesRuns(body, params, {}, f, w, fuel);
      }
    }
  }
}
