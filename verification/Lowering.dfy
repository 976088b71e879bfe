/** Lowering of `for` to `loop` (cmd/bosc/ast.go): the loop body runs inside an
    `if`/`break`, the step is appended to it, and every `continue` that belongs
    to the loop is rewritten to carry the step with it. */
module Lowering {
  import opened Wrappers
  import opened Boson

  function RewriteContinuesForStep(a: Stmt, step: Option<Stmt>): Stmt
    decreases a, 1
  {
    if step.None? then a
    else
      match a
      case Continue(_) => Continue(step)
      case Block(stmts) => Block(RewriteAll(stmts, step))
      case If(cond, thn, els) =>
        If(cond, RewriteContinuesForStep(thn, step),
           if els.Some? then Some(RewriteContinuesForStep(els.value, step)) else None)
      case Loop(_) => a
      case _ => a
  }

  function RewriteAll(ss: seq<Stmt>, step: Option<Stmt>): seq<Stmt>
    decreases ss, 0
  {
    if ss == [] then [] else [RewriteContinuesForStep(ss[0], step)] + RewriteAll(ss[1..], step)
  }

  function LoopBody(guard: Option<Cond>, iter: Option<Stmt>, body: Stmt): Stmt {
    var stmts := [RewriteContinuesForStep(body, iter)] + (if iter.Some? then [iter.value] else []);
    if guard.Some? then If(Not(guard.value), Block([Break]), Some(Block(stmts)))
    else Block(stmts)
  }

  function LowerForToLoop(start: Option<Stmt>, guard: Option<Cond>, iter: Option<Stmt>, body: Stmt): Stmt {
    var loop := Loop(LoopBody(guard, iter, body));
    if start.None? then loop else Block([start.value, loop])
  }

  /** The whole program with every `for` lowered, innermost first. */
  function Lower(s: Stmt): Stmt
    decreases s, 1
  {
    match s
    case If(cond, thn, els) => If(cond, Lower(thn), if els.Some? then Some(Lower(els.value)) else None)
    case Loop(body) => Loop(Lower(body))
    case Block(stmts) => Block(LowerAll(stmts))
    case For(start, guard, iter, body) =>
      LowerForToLoop(if start.Some? then Some(Lower(start.value)) else None, guard,
                     if iter.Some? then Some(Lower(iter.value)) else None, Lower(body))
    case _ => s
  }

  function LowerAll(ss: seq<Stmt>): seq<Stmt>
    decreases ss, 0
  {
    if ss == [] then [] else [Lower(ss[0])] + LowerAll(ss[1..])
  }

  /** What the parser builds: a `continue` never carries a step of its own. */
  predicate PlainContinues(s: Stmt) {
    match s
    case Continue(step) => step.None?
    case If(_, thn, els) => PlainContinues(thn) && (els.Some? ==> PlainContinues(els.value))
    case Loop(body) => PlainContinues(body)
    case Block(stmts) => forall i :: 0 <= i < |stmts| ==> PlainContinues(stmts[i])
    case For(start, _, iter, body) =>
      && (start.Some? ==> PlainContinues(start.value))
      && (iter.Some? ==> PlainContinues(iter.value))
      && PlainContinues(body)
    case _ => true
  }

  /** No `for` and no step-carrying `continue` outside the inner loops of s: the
      statements that the rewriting of s is applied to. */
  predicate OwnContinuesPlain(s: Stmt) {
    match s
    case Continue(step) => step.None?
    case If(_, thn, els) => OwnContinuesPlain(thn) && (els.Some? ==> OwnContinuesPlain(els.value))
    case Block(stmts) => forall i :: 0 <= i < |stmts| ==> OwnContinuesPlain(stmts[i])
    case For(_, _, _, _) => false
    case _ => true
  }

  lemma {:induction false} LowerAllAt(ss: seq<Stmt>, i: nat)
    requires i < |ss|
    ensures |LowerAll(ss)| == |ss| && LowerAll(ss)[i] == Lower(ss[i])
  {
    if i > 0 {
      LowerAllAt(ss[1..], i - 1);
    } else if |ss| > 1 {
      LowerAllAt(ss[1..], 0);
    }
  }

  /** So the rewriting is only ever applied to continues without a step: it would
      drop one that is there (`RewriteDropsOldStep`). */
  lemma {:induction false} LowerIsPlain(s: Stmt)
    requires PlainContinues(s)
    ensures OwnContinuesPlain(Lower(s))
  {
    match s
    case If(_, thn, els) =>
      LowerIsPlain(thn);
      if els.Some? { LowerIsPlain(els.value); }
    case Block(stmts) =>
      if stmts != [] { LowerAllAt(stmts, 0); }
      forall i | 0 <= i < |LowerAll(stmts)| ensures OwnContinuesPlain(LowerAll(stmts)[i]) {
        LowerAllAt(stmts, i);
        LowerIsPlain(stmts[i]);
      }
    case For(start, _, _, _) =>
      if start.Some? { LowerIsPlain(start.value); }
    case _ =>
  }

  // ----- scopes -----

  lemma {:induction false} RewriteFalls(a: Stmt, step: Option<Stmt>)
    ensures FallsThrough(RewriteContinuesForStep(a, step)) == FallsThrough(a)
    decreases a, 1
  {
    if step.Some? {
      match a
      case Block(stmts) => RewriteAllFalls(stmts, step);
      case If(_, thn, els) =>
        RewriteFalls(thn, step);
        if els.Some? { RewriteFalls(els.value, step); }
      case _ =>
    }
  }

  lemma {:induction false} RewriteAllFalls(ss: seq<Stmt>, step: Option<Stmt>)
    ensures FallsThrough(Block(RewriteAll(ss, step))) == FallsThrough(Block(ss))
    decreases ss, 0
  {
    if ss != [] {
      RewriteFalls(ss[0], step);
      RewriteAllFalls(ss[1..], step);
      AllFall(ss);
      AllFall(RewriteAll(ss, step));
    }
  }

  lemma AllFall(ss: seq<Stmt>)
    requires ss != []
    ensures FallsThrough(Block(ss)) <==> FallsThrough(ss[0]) && FallsThrough(Block(ss[1..]))
  {
    if FallsThrough(ss[0]) && FallsThrough(Block(ss[1..])) {
      forall i | 0 <= i < |ss| ensures FallsThrough(ss[i]) { if i > 0 { assert ss[i] == ss[1..][i - 1]; } }
    }
  }

  /** What the rewritten continues bind is what the others bind in a loop with that step. */
  lemma {:induction false} RewriteBinds(a: Stmt, step: Stmt)
    requires OwnContinuesPlain(a)
    ensures Binds(RewriteContinuesForStep(a, Some(step)), {}) == Binds(a, Binds(step, {}))
    decreases a, 1
  {
    match a
    case If(_, thn, els) =>
      RewriteBinds(thn, step);
      if els.Some? { RewriteBinds(els.value, step); }
    case _ =>
  }

  lemma {:induction false} RewriteAllBinds(ss: seq<Stmt>, step: Stmt)
    requires forall i :: 0 <= i < |ss| ==> OwnContinuesPlain(ss[i])
    ensures AllBinds(RewriteAll(ss, Some(step)), {}) == AllBinds(ss, Binds(step, {}))
  {
    if ss != [] {
      RewriteBinds(ss[0], step);
      RewriteFalls(ss[0], Some(step));
      RewriteAllBinds(ss[1..], step);
    }
  }

  lemma {:induction false} LowerFalls(s: Stmt)
    ensures FallsThrough(Lower(s)) == FallsThrough(s)
    decreases s, 1
  {
    match s
    case Block(stmts) => LowerAllFalls(stmts);
    case If(_, thn, els) =>
      LowerFalls(thn);
      if els.Some? { LowerFalls(els.value); }
    case For(start, guard, iter, body) =>
      if start.Some? {
        LowerFalls(start.value);
        var loop := Loop(LoopBody(guard, LowerOption(iter), Lower(body)));
        AllFall([Lower(start.value), loop]);
        assert [Lower(start.value), loop][1..] == [loop];
      }
    case _ =>
  }

  lemma {:induction false} LowerAllFalls(ss: seq<Stmt>)
    ensures FallsThrough(Block(LowerAll(ss))) == FallsThrough(Block(ss))
    decreases ss, 0
  {
    if ss != [] {
      LowerFalls(ss[0]);
      LowerAllFalls(ss[1..]);
      AllFall(ss);
      AllFall(LowerAll(ss));
    }
  }

  /** Lowering changes no scope. */
  lemma {:induction false} LowerBinds(s: Stmt, k: set<Name>)
    requires PlainContinues(s)
    ensures Binds(Lower(s), k) == Binds(s, k)
    decreases s, 1
  {
    match s
    case If(_, thn, els) =>
      LowerBinds(thn, k);
      if els.Some? { LowerBinds(els.value, k); }
    case Loop(body) => LowerBinds(body, {});
    case For(start, guard, iter, body) => assert Binds(LoopBody(guard, LowerOption(iter), Lower(body)), {}) == {};
    case _ =>
  }

  lemma {:induction false} LowerAllBinds(ss: seq<Stmt>, k: set<Name>)
    requires forall i :: 0 <= i < |ss| ==> PlainContinues(ss[i])
    ensures AllBinds(LowerAll(ss), k) == AllBinds(ss, k)
  {
    if ss != [] {
      LowerBinds(ss[0], k);
      LowerFalls(ss[0]);
      LowerAllBinds(ss[1..], k);
    }
  }

  // ----- runs -----

  /** Runs the step after a `continue`, and nothing after any other outcome. */
  function StepAfterContinue(r: Result, step: Stmt, fuel: nat): Result {
    if r.out.Continued? then
      var t := Exec(step, {}, r.w, fuel);
      match t.out {
        case Normal => t.(out := r.out)
        case Continued(more) => t.(out := Continued(more + r.out.left))
        case Broke => t.(w := Drop(r.out.left, t.w))
        case _ => t
      }
    else r
  }

  lemma LeaveAfterStep(own: set<Name>, r: Result, step: Stmt, fuel: nat)
    ensures Leave(own, StepAfterContinue(r, step, fuel)) == StepAfterContinue(Leave(own, r), step, fuel)
  {
    if r.out.Continued? {
      var t := Exec(step, {}, r.w, fuel);
      match t.out
      case Continued(more) => assert more + r.out.left + own == more + (r.out.left + own);
      case Broke => assert t.w.live - r.out.left - own == t.w.live - (r.out.left + own);
      case _ =>
    }
  }

  lemma {:induction false} LoopNeverContinues(body: Stmt, k: set<Name>, w: World, fuel: nat)
    ensures !Exec(Loop(body), k, w, fuel).out.Continued?
    ensures !Exec(Loop(body), k, w, fuel).out.Broke?
    decreases fuel
  {
    if fuel > 0 {
      var r := Exec(body, {}, w, fuel - 1);
      if r.out.Normal? { LoopNeverContinues(body, {}, r.w, fuel - 1); }
      if r.out.Continued? { LoopNeverContinues(body, {}, Drop(r.out.left, r.w), fuel - 1); }
    }
  }

  /** Rewriting changes a run exactly by the step after each own `continue`;
      the inner loops of `a`, already lowered, run as before. */
  lemma {:induction false} RewriteMeaning(a: Stmt, step: Stmt, w: World, fuel: nat)
    requires OwnContinuesPlain(a)
    ensures Exec(RewriteContinuesForStep(a, Some(step)), {}, w, fuel) ==
            StepAfterContinue(Exec(a, Binds(step, {}), w, fuel), step, fuel)
    decreases a, 1
  {
    match a
    case If(cond, thn, els) =>
      var (r, b) := Test(cond, w);
      TestNeverJumps(cond, w);
      if r.out.Normal? {
        if b { RewriteMeaning(thn, step, r.w, fuel); }
        else if els.Some? { RewriteMeaning(els.value, step, r.w, fuel); }
      }
    case Block(stmts) =>
      RewriteAllMeaning(stmts, step, w, fuel);
      RewriteAllBinds(stmts, step);
      var k := Binds(step, {});
      LeaveAfterStep(AllBinds(stmts, k), ExecAll(stmts, k, w, fuel), step, fuel);
    case Loop(body) => LoopNeverContinues(body, Binds(step, {}), w, fuel);
    case Continue(_) =>
      var t := Exec(step, {}, w, fuel);
      if t.out.Continued? { assert t.out.left + {} == t.out.left; }
      if t.out.Broke? { assert t.w.live - {} == t.w.live; }
    case _ =>
  }

  lemma {:induction false} RewriteAllMeaning(ss: seq<Stmt>, step: Stmt, w: World, fuel: nat)
    requires forall i :: 0 <= i < |ss| ==> OwnContinuesPlain(ss[i])
    ensures ExecAll(RewriteAll(ss, Some(step)), {}, w, fuel) ==
            StepAfterContinue(ExecAll(ss, Binds(step, {}), w, fuel), step, fuel)
    decreases ss, 0
  {
    if ss != [] {
      RewriteMeaning(ss[0], step, w, fuel);
      var r := Exec(ss[0], Binds(step, {}), w, fuel);
      if r.out.Normal? { RewriteAllMeaning(ss[1..], step, r.w, fuel); }
    }
  }

  lemma {:induction false} TestNeverJumps(c: Cond, w: World)
    ensures Test(c, w).0.out.Normal? || Test(c, w).0.out.NotHeld?
  {
    match c
    case Reads(xs) => ReadAllNeverJumps(xs, w);
    case Not(a) => TestNeverJumps(a, w);
  }

  lemma {:induction false} ReadAllNeverJumps(xs: seq<Name>, w: World)
    ensures ReadAll(xs, w).out.Normal? || ReadAll(xs, w).out.NotHeld?
  {
    if xs != [] && ReadName(xs[0], w).out.Normal? {
      ReadAllNeverJumps(xs[1..], ReadName(xs[0], w).w);
    }
  }

  function TestGuard(guard: Option<Cond>, w: World): (Result, bool) {
    if guard.Some? then Test(guard.value, w) else (Result(Normal, w), true)
  }

  /** The body followed by its step, as the lowered loop runs them. */
  function Pass(iter: Option<Stmt>, body: Stmt, w: World, fuel: nat): Result {
    var b := Exec(body, StepBinds(iter), w, fuel);
    if iter.None? then b
    else if b.out.Normal? then Exec(iter.value, {}, b.w, fuel)
    else StepAfterContinue(b, iter.value, fuel)
  }

  lemma {:induction false} PassRuns(iter: Option<Stmt>, body: Stmt, k: set<Name>, w: World, fuel: nat)
    requires OwnContinuesPlain(body) && k == {}
    ensures var stmts := [RewriteContinuesForStep(body, iter)] + (if iter.Some? then [iter.value] else []);
            Exec(Block(stmts), k, w, fuel) == Leave(PassBinds(iter, body), Pass(iter, body, w, fuel))
  {
    var body' := RewriteContinuesForStep(body, iter);
    if iter.Some? {
      RewriteMeaning(body, iter.value, w, fuel);
      RewriteBinds(body, iter.value);
      RewriteFalls(body, iter);
      var r := Exec(body', {}, w, fuel);
      assert ([body'] + [iter.value])[1..] == [iter.value];
      SingletonBinds(iter.value);
      if r.out.Normal? { SingletonRuns(iter.value, {}, r.w, fuel); }
    } else {
      assert [body] + [] == [body];
      SingletonRuns(body, {}, w, fuel);
      SingletonBinds(body);
    }
  }

  lemma SingletonBinds(s: Stmt)
    ensures AllBinds([s], {}) == Binds(s, {})
  {
    assert [s][1..] == [];
  }

  lemma {:induction false} LoopBodyRuns(guard: Option<Cond>, iter: Option<Stmt>, body: Stmt, w: World, fuel: nat)
    requires OwnContinuesPlain(body)
    ensures var (t, go) := TestGuard(guard, w);
            Exec(LoopBody(guard, iter, body), {}, w, fuel) ==
              if !t.out.Normal? then t
              else if !go then Result(Broke, t.w)
              else Leave(PassBinds(iter, body), Pass(iter, body, t.w, fuel))
  {
    var (t, go) := TestGuard(guard, w);
    PassRuns(iter, body, {}, t.w, fuel);
    SingletonRuns(Break, {}, t.w, fuel);
    SingletonBinds(Break);
    assert t.w.live - {} == t.w.live;
    assert Exec(Block([Break]), {}, t.w, fuel) == Result(Broke, t.w);
  }

  function LowerOption(s: Option<Stmt>): Option<Stmt> {
    if s.Some? then Some(Lower(s.value)) else None
  }

  /** The loop built for a `for` runs exactly as the direct iteration does. */
  lemma {:induction false} LoopIterates(guard: Option<Cond>, iter: Option<Stmt>, body: Stmt, k: set<Name>, w: World, fuel: nat)
    requires PlainContinues(body) && (iter.Some? ==> PlainContinues(iter.value))
    ensures Exec(Loop(LoopBody(guard, LowerOption(iter), Lower(body))), k, w, fuel) == Iterate(guard, iter, body, w, fuel)
    decreases fuel, body, 0
  {
    if fuel > 0 {
      var iter', body' := LowerOption(iter), Lower(body);
      LowerIsPlain(body);
      LoopBodyRuns(guard, iter', body', w, fuel - 1);
      if guard.Some? { TestNeverJumps(guard.value, w); }
      var (t, go) := TestGuard(guard, w);
      if t.out.Normal? && go {
        LoweredPass(iter, body, t.w, fuel - 1);
        PassScope(iter, body);
        var own, next := PassBinds(iter, body), SourcePass(iter, body, t.w, fuel - 1);
        if next.out.Normal? {
          LoopIterates(guard, iter, body, {}, Drop(own, next.w), fuel - 1);
        } else if next.out.Continued? {
          LoopIterates(guard, iter, body, {}, Drop(next.out.left + own, next.w), fuel - 1);
        }
      }
      ItersByPass(guard, iter, body, w, fuel);
    }
  }

  lemma PassScope(iter: Option<Stmt>, body: Stmt)
    requires PlainContinues(body) && (iter.Some? ==> PlainContinues(iter.value))
    ensures StepBinds(LowerOption(iter)) == StepBinds(iter) && PassBinds(LowerOption(iter), Lower(body)) == PassBinds(iter, body)
  {
    if iter.Some? { LowerBinds(iter.value, {}); }
    LowerBinds(body, StepBinds(iter));
    LowerFalls(body);
  }

  /** One pass of the direct semantics: the body and, after it or after its
      `continue`, the step. */
  function SourcePass(iter: Option<Stmt>, body: Stmt, w: World, fuel: nat): Result {
    var b := Exec(body, StepBinds(iter), w, fuel);
    if b.out.Normal? && iter.Some? then Exec(iter.value, {}, b.w, fuel)
    else if iter.Some? then StepAfterContinue(b, iter.value, fuel)
    else b
  }

  lemma ItersByPass(guard: Option<Cond>, iter: Option<Stmt>, body: Stmt, w: World, fuel: nat)
    requires fuel > 0
    ensures var (t, go) := TestGuard(guard, w);
            Iterate(guard, iter, body, w, fuel) ==
              if !t.out.Normal? then t
              else if !go then Result(Normal, t.w)
              else
                var own, p := PassBinds(iter, body), SourcePass(iter, body, t.w, fuel - 1);
                match p.out {
                  case Normal => Iterate(guard, iter, body, Drop(own, p.w), fuel - 1)
                  case Continued(left) => Iterate(guard, iter, body, Drop(left + own, p.w), fuel - 1)
                  case Broke => Result(Normal, Drop(own, p.w))
                  case _ => p
                }
  {
    var (t, go) := TestGuard(guard, w);
    if t.out.Normal? && go {
      var b := Exec(body, StepBinds(iter), t.w, fuel - 1);
      var own := PassBinds(iter, body);
      if b.out.Normal? {
        assert Iterate(guard, iter, body, w, fuel) == AfterBody(guard, iter, body, {}, b.w, fuel - 1);
        assert {} + own == own;
      } else if b.out.Continued? {
        var left := b.out.left;
        assert Iterate(guard, iter, body, w, fuel) == AfterBody(guard, iter, body, left, b.w, fuel - 1);
        var r := if iter.Some? then Exec(iter.value, {}, b.w, fuel - 1) else Result(Normal, b.w);
        assert r.w.live - left - own == r.w.live - (left + own);
        if r.out.Continued? { assert r.out.left + left + own == r.out.left + (left + own); }
      }
    }
  }

  lemma {:induction false} LoweredPass(iter: Option<Stmt>, body: Stmt, w: World, fuel: nat)
    requires PlainContinues(body) && (iter.Some? ==> PlainContinues(iter.value))
    ensures SourcePass(iter, body, w, fuel) == Pass(LowerOption(iter), Lower(body), w, fuel)
    decreases fuel
  {
    PassScope(iter, body);
    LowerPreservesRuns(body, StepBinds(iter), w, fuel);
    var b := Exec(body, StepBinds(iter), w, fuel);
    if iter.Some? { LowerPreservesRuns(iter.value, {}, b.w, fuel); }
  }

  lemma {:induction false} SingletonRuns(s: Stmt, k: set<Name>, w: World, fuel: nat)
    ensures ExecAll([s], k, w, fuel) == Exec(s, k, w, fuel)
  {
    assert [s][1..] == [];
  }

  /** Lowering preserves every run, for any nesting of loops: the same trace,
      the same live bindings and the same way of ending. */
  lemma {:induction false} LowerPreservesRuns(s: Stmt, k: set<Name>, w: World, fuel: nat)
    requires PlainContinues(s)
    ensures Exec(Lower(s), k, w, fuel) == Exec(s, k, w, fuel)
    decreases fuel, s, 1
  {
    match s
    case If(cond, thn, els) =>
      var (r, b) := Test(cond, w);
      if r.out.Normal? {
        if b { LowerPreservesRuns(thn, k, r.w, fuel); }
        else if els.Some? { LowerPreservesRuns(els.value, k, r.w, fuel); }
      }
    case Loop(body) =>
      if fuel > 0 {
        LowerPreservesRuns(body, {}, w, fuel - 1);
        var r := Exec(body, {}, w, fuel - 1);
        if r.out.Normal? { LowerPreservesRuns(s, {}, r.w, fuel - 1); }
        if r.out.Continued? { LowerPreservesRuns(s, {}, Drop(r.out.left, r.w), fuel - 1); }
      }
    case Block(stmts) =>
      LowerAllPreservesRuns(stmts, k, w, fuel);
      LowerAllBinds(stmts, k);
    case For(_, _, _, _) => ForPreservesRuns(s, k, w, fuel);
    case _ =>
  }

  lemma {:induction false} ForPreservesRuns(s: Stmt, k: set<Name>, w: World, fuel: nat)
    requires s.For? && PlainContinues(s)
    ensures Exec(Lower(s), k, w, fuel) == Exec(s, k, w, fuel)
    decreases fuel, s, 0
  {
    var loop := Loop(LoopBody(s.guard, LowerOption(s.iter), Lower(s.forBody)));
    if s.start.None? {
      LoopIterates(s.guard, s.iter, s.forBody, k, w, fuel);
      LoopNeverContinues(loop.body, k, w, fuel);
      var r := Iterate(s.guard, s.iter, s.forBody, w, fuel);
      assert r.w.live - {} == r.w.live;
    } else {
      var start := s.start.value;
      LowerPreservesRuns(start, k, w, fuel);
      LowerBinds(start, k);
      var r := Exec(start, k, w, fuel);
      assert [Lower(start), loop][1..] == [loop] && [loop][1..] == [];
      assert Binds(loop.body, {}) == {};
      assert AllBinds([loop], k) == {};
      assert AllBinds([Lower(start), loop], k) == Binds(start, k);
      if r.out.Normal? {
        LoopIterates(s.guard, s.iter, s.forBody, k, r.w, fuel);
        SingletonRuns(loop, k, r.w, fuel);
      }
    }
  }

  lemma {:induction false} LowerAllPreservesRuns(ss: seq<Stmt>, k: set<Name>, w: World, fuel: nat)
    requires forall i :: 0 <= i < |ss| ==> PlainContinues(ss[i])
    ensures ExecAll(LowerAll(ss), k, w, fuel) == ExecAll(ss, k, w, fuel)
    decreases fuel, ss, 0
  {
    if ss != [] {
      LowerPreservesRuns(ss[0], k, w, fuel);
      var r := Exec(ss[0], k, w, fuel);
      if r.out.Normal? { LowerAllPreservesRuns(ss[1..], k, r.w, fuel); }
    }
  }

  /** A `continue` that already carried a step would lose it: the rewriting
      replaces the step, so the inner one no longer runs. */
  lemma RewriteDropsOldStep()
    ensures exists body: Stmt, step: Stmt, w: World ::
              Exec(RewriteContinuesForStep(body, Some(step)), {}, w, 0) != StepAfterContinue(Exec(body, {}, w, 0), step, 0)
  {
    var w := World({"a", "b"}, [], i => true, 0);
    var body, step := Continue(Some(Use("a"))), Use("b");
    assert Exec(RewriteContinuesForStep(body, Some(step)), {}, w, 0).w.trace == [Read("b")];
    assert Exec(body, {}, w, 0).w.trace == [Read("a")];
    assert StepAfterContinue(Exec(body, {}, w, 0), step, 0).w.trace == [Read("a"), Read("b")];
  }
}
