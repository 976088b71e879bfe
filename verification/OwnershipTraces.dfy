/** What the absence of faults means for the effects of a run, loops included:
    every read, move or disposal of a binding comes after a resource was given to
    it and before that one is taken. */
module OwnershipTraces {
  import opened Wrappers
  import opened Boson
  import opened Ownership
  import opened OwnershipGiven
  import opened OwnershipSoundness
  import opened Lowering

  /** Whether x was given a resource that has not been taken since. */
  predicate Held(trace: seq<Event>, x: Name) {
    trace != [] &&
    var last := trace[|trace| - 1];
    last == Gave(x) || (last != Took(x) && Held(trace[..|trace| - 1], x))
  }

  predicate Uses(e: Event, x: Name) { e == Took(x) || e == Read(x) }

  /** Every use is of something held at that moment. */
  ghost predicate Safe(trace: seq<Event>) {
    forall i, x :: 0 <= i < |trace| && Uses(trace[i], x) ==> Held(trace[..i], x)
  }

  /** What is live has been given, and all was well so far. */
  ghost predicate Sound(w: World) { Safe(w.trace) && forall x <- w.live :: Held(w.trace, x) }

  lemma OneMore(w: World, e: Event, live: set<Name>)
    requires Sound(w) && (forall x :: Uses(e, x) ==> x in w.live)
    requires forall x <- live :: e != Took(x) && (e == Gave(x) || x in w.live)
    ensures Sound(w.(trace := w.trace + [e], live := live))
  {
    var t := w.trace + [e];
    assert t[..|t| - 1] == w.trace;
    forall i, x | 0 <= i < |t| && Uses(t[i], x) ensures Held(t[..i], x) {
      if i < |w.trace| { assert t[..i] == w.trace[..i] && t[i] == w.trace[i]; }
    }
  }

  lemma TakeIsSound(x: Name, w: World)
    requires Sound(w)
    ensures Sound(TakeName(x, w).w)
  {
    if x in w.live { OneMore(w, Took(x), w.live - {x}); }
  }

  lemma ReadIsSound(x: Name, w: World)
    requires Sound(w)
    ensures Sound(ReadName(x, w).w)
  {
    if x in w.live { OneMore(w, Read(x), w.live); }
  }

  lemma SourceIsSound(src: Source, w: World)
    requires Sound(w)
    ensures Sound(TakeSource(src, w).w)
  {
    if src.From? { TakeIsSound(src.name, w); }
  }

  lemma {:induction false} ReadAllIsSound(xs: seq<Name>, w: World)
    requires Sound(w)
    ensures Sound(ReadAll(xs, w).w)
  {
    hide Sound;
    if xs != [] {
      ReadIsSound(xs[0], w);
      if ReadName(xs[0], w).out.Normal? { ReadAllIsSound(xs[1..], ReadName(xs[0], w).w); }
    }
  }

  lemma {:induction false} TestIsSound(c: Cond, w: World)
    requires Sound(w)
    ensures Sound(Test(c, w).0.w)
  {
    match c
    case Reads(xs) =>
      ReadAllIsSound(xs, w);
      var r := ReadAll(xs, w);
      if r.out.Normal? { OneMore(r.w, Tested(w.coins(r.w.tossed)), r.w.live); }
    case Not(a) => TestIsSound(a, w);
  }

  lemma DropIsSound(names: set<Name>, w: World)
    requires Sound(w)
    ensures Sound(Drop(names, w))
  {
  }

  lemma LeaveIsSound(names: set<Name>, r: Result)
    requires Sound(r.w)
    ensures Sound(Leave(names, r).w)
  {
    DropIsSound(names, r.w);
  }

  /** Every run, of any program, keeps it so: a use of what is not held ends the run
      before it shows. */
  lemma {:induction false} RunIsSound(s: Stmt, k: set<Name>, w: World, fuel: nat)
    requires Sound(w)
    ensures Sound(Exec(s, k, w, fuel).w)
    decreases fuel, s, 1
  {
    hide Held, Safe;
    match s
    case Use(x) => ReadIsSound(x, w);
    case Consume(x) => TakeIsSound(x, w);
    case Dispose(x) => TakeIsSound(x, w);
    case Declare(x, init) =>
      DropIsSound({x}, w);
      if init.Some? { GivenIsSound(x, init.value, Drop({x}, w)); }
    case Assign(x, src) => GivenIsSound(x, src, w);
    case If(cond, thn, els) =>
      TestIsSound(cond, w);
      var v := Test(cond, w).0.w;
      RunIsSound(thn, k, v, fuel);
      if els.Some? { RunIsSound(els.value, k, v, fuel); }
    case Loop(body) => LoopIsSound(s, w, fuel);
    case Block(stmts) =>
      AllIsSound(stmts, k, w, fuel);
      LeaveIsSound(AllBinds(stmts, k), ExecAll(stmts, k, w, fuel));
    case Continue(step) => if step.Some? { RunIsSound(step.value, {}, w, fuel); }
    case Return(val) => if val.Some? { SourceIsSound(val.value, w); }
    case For(start, guard, iter, body) =>
      var r := if start.Some? then Exec(start.value, k, w, fuel) else Result(Normal, w);
      if start.Some? { RunIsSound(start.value, k, w, fuel); }
      if r.out.Normal? { IterationIsSound(guard, iter, body, r.w, fuel); }
      var e := if r.out.Normal? then Iterate(guard, iter, body, r.w, fuel) else r;
      LeaveIsSound(if start.Some? then Binds(start.value, k) else {}, e);
    case Break =>
  }

  lemma {:induction false} LoopIsSound(s: Stmt, w: World, fuel: nat)
    requires s.Loop? && Sound(w)
    ensures Sound(Exec(s, {}, w, fuel).w)
    decreases fuel, s, 0
  {
    hide Sound;
    if fuel > 0 {
      RunIsSound(s.body, {}, w, fuel - 1);
      var r := Exec(s.body, {}, w, fuel - 1);
      if r.out.Normal? { LoopIsSound(s, r.w, fuel - 1); }
      if r.out.Continued? {
        DropIsSound(r.out.left, r.w);
        LoopIsSound(s, Drop(r.out.left, r.w), fuel - 1);
      }
    }
  }

  lemma GivenIsSound(x: Name, src: Source, w: World)
    requires Sound(w)
    ensures Sound(TakeSource(src, w).w) && Sound(GiveName(x, TakeSource(src, w).w))
  {
    SourceIsSound(src, w);
    var v := TakeSource(src, w).w;
    OneMore(v, Gave(x), v.live + {x});
  }

  lemma {:induction false} AllIsSound(ss: seq<Stmt>, k: set<Name>, w: World, fuel: nat)
    requires Sound(w)
    ensures Sound(ExecAll(ss, k, w, fuel).w)
    decreases fuel, ss, 0
  {
    hide Sound;
    if ss != [] {
      RunIsSound(ss[0], k, w, fuel);
      AllIsSound(ss[1..], k, Exec(ss[0], k, w, fuel).w, fuel);
    }
  }

  lemma {:induction false} IterationIsSound(guard: Option<Cond>, iter: Option<Stmt>, body: Stmt, w: World, fuel: nat)
    requires Sound(w)
    ensures Sound(Iterate(guard, iter, body, w, fuel).w)
    decreases fuel, body, iter, 0
  {
    hide Sound;
    if fuel > 0 {
      if guard.Some? { TestIsSound(guard.value, w); }
      var t := if guard.Some? then Test(guard.value, w).0 else Result(Normal, w);
      RunIsSound(body, StepBinds(iter), t.w, fuel - 1);
      var b := Exec(body, StepBinds(iter), t.w, fuel - 1);
      DropIsSound(PassBinds(iter, body), b.w);
      StepIsSound(guard, iter, body, if b.out.Continued? then b.out.left else {}, b.w, fuel - 1);
    }
  }

  lemma {:induction false} StepIsSound(guard: Option<Cond>, iter: Option<Stmt>, body: Stmt, left: set<Name>, w: World, fuel: nat)
    requires Sound(w)
    ensures Sound(AfterBody(guard, iter, body, left, w, fuel).w)
    decreases fuel
  {
    hide Sound;
    var r := if iter.Some? then Exec(iter.value, {}, w, fuel) else Result(Normal, w);
    if iter.Some? { RunIsSound(iter.value, {}, w, fuel); }
    var gone := left + PassBinds(iter, body);
    var all := if r.out.Continued? then r.out.left + gone else gone;
    DropIsSound(all, r.w);
    IterationIsSound(guard, iter, body, Drop(all, r.w), fuel);
  }

  /** Every run that begins like this goes on as the program says, and each use in it
      is of a resource that was given before and has not been taken since. */
  ghost predicate AlwaysHeld(params: set<Name>, body: Stmt, trace: seq<Event>) {
    forall w: World, fuel: nat :: w.live == params && w.trace == trace ==>
      var e := Exec(body, {}, w, fuel); !e.out.NotHeld? && Safe(e.w.trace)
  }

  /** That is so of an accepted source function, with any number of iterations, exactly
      if each use in it is of a name that is certainly given. */
  lemma EveryUseIsHeld(params: set<Name>, body: Stmt, trace: seq<Event>)
    requires PlainContinues(body) && CheckFunction(params, Lower(body))
    requires Safe(trace) && forall x <- params :: Held(trace, x)
    ensures AlwaysHeld(params, body, trace) <==> Given(Lower(body), params, {})
  {
    if Given(Lower(body), params, {}) {
      AcceptedSourceIsSafe(params, body);
      forall w: World, fuel: nat | w.live == params && w.trace == trace
        ensures var e := Exec(body, {}, w, fuel); !e.out.NotHeld? && Safe(e.w.trace)
      {
        RunIsSound(body, {}, w, fuel);
      }
    } else {
      var w, fuel := SomeRunFails(params, Lower(body), trace);
      LowerPreservesRuns(body, {}, w, fuel);
    }
  }
}
