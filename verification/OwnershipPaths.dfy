/** Which bodies the ownership checker accepts, in terms of the paths through their
    text: each loop body is entered once, and what paths that meet must agree on is
    compared where they meet. */
module OwnershipPaths {
  import opened Wrappers
  import opened Boson
  import opened Ownership
  import opened OwnershipSoundness

  // ----- paths -----

  /** A place in the text, as the way to it from the root. */
  type Place = seq<nat>

  /** A path: which way to go at each place. */
  type Course = Place -> bool

  /** How a path leaves a statement: to the next one, to the end of the innermost loop
      or its head, out of the function, or not at all: at the head of a loop it has
      been through, `Past` an `if` whose arms both leave, or refused. */
  datatype End = Onward | AtBreak | AtBack | Left | Round | Past | Refused

  /** What is moved where paths meet, and for which names that matters. */
  datatype Mark = Mark(at: Place, names: set<Name>, moved: set<Name>)

  datatype Walk = Walk(end: End, env: Env, marks: set<Mark>)

  function Step(ok: bool, env: Env): Walk { Walk(if ok then Onward else Refused, env, {}) }

  predicate Held(x: Name, env: Env) { x in env.names && x !in env.moved }

  predicate SourceHeld(src: Source, env: Env) { src.From? ==> Held(src.name, env) }

  /** The source has been moved. */
  function Moved(src: Source, env: Env): Env { if src.From? then Env(env.names, env.moved + {src.name}) else env }

  /** The name is declared and holds something. */
  function Filled(x: Name, env: Env): Env { Env(env.names + {x}, env.moved - {x}) }

  predicate CondHeld(c: Cond, env: Env) {
    match c
    case Reads(xs) => forall x <- xs :: Held(x, env)
    case Not(a) => CondHeld(a, env)
  }

  /** Whether a loop with this body has a `break` in the text that is compiled. */
  predicate MayBreak(s: Stmt)
    decreases s, 1
  {
    match s
    case Break => true
    case If(_, thn, els) => MayBreak(thn) || (els.Some? && MayBreak(els.value))
    case Block(stmts) => AnyBreaks(stmts)
    case Continue(step) => step.Some? && MayBreak(step.value)
    case _ => false
  }

  predicate AnyBreaks(ss: seq<Stmt>)
    decreases ss, 0
  {
    ss != [] && (MayBreak(ss[0]) || (FallsThrough(ss[0]) && AnyBreaks(ss[1..])))
  }

  /** Out of a scope. */
  function Outside(names: set<Name>, env: Env): Env { Env(names, env.moved * names) }

  /** The walk along a path, from a state at a place.  Two ways are not taken by any
      run but are read by the compiler: over a loop without `break`, and past an `if`
      whose arms both leave. */
  function Go(s: Stmt, at: Place, env: Env, inLoop: bool, c: Course): Walk
    decreases s, 1
  {
    match s
    case Use(x) => Step(Held(x, env), env)
    case Consume(x) => Step(Held(x, env), Moved(From(x), env))
    case Dispose(x) => Step(Held(x, env), Moved(From(x), env))
    case Declare(x, init) =>
      if x in env.names then Step(false, env)
      else if init.None? then Step(true, Moved(From(x), Filled(x, env)))
      else Step(SourceHeld(init.value, Filled(x, env)), Moved(init.value, Filled(x, env)))
    case Assign(x, src) =>
      Step(x in env.names && x in env.moved && SourceHeld(src, env), Filled(x, Moved(src, env)))
    case If(cond, thn, els) =>
      if !CondHeld(cond, env) then Step(false, env)
      else if !FallsThrough(s) && c(at + [3]) then Walk(Past, env, {})
      else
        Joined(at, env,
               if c(at) then Go(thn, at + [0], env, inLoop, c)
               else if els.Some? then Go(els.value, at + [1], env, inLoop, c)
               else Step(true, env))
    case Loop(body) =>
      if !MayBreak(body) && c(at) then Step(true, env) else Looped(at, env, Go(body, at + [0], env, true, c))
    case Block(stmts) => Closed(env, GoAll(stmts, at, 0, env, inLoop, c))
    case Break => Walk(if inLoop then AtBreak else Refused, env, {})
    case Continue(step) =>
      Back(inLoop, if step.Some? then Go(step.value, at + [0], env, inLoop, c) else Step(true, env))
    case Return(val) =>
      var after := if val.Some? then Moved(val.value, env) else env;
      Walk(if (val.Some? ==> SourceHeld(val.value, env)) && after.names <= after.moved then Left else Refused, after, {})
    case For(_, _, _, _) => Step(false, env)
  }

  function GoAll(ss: seq<Stmt>, at: Place, k: nat, env: Env, inLoop: bool, c: Course): Walk
    decreases ss, 0
  {
    if ss == [] then Step(true, env)
    else
      var first := Go(ss[0], at + [k], env, inLoop, c);
      if !first.end.Onward? then first
      else
        var rest := GoAll(ss[1..], at, k + 1, first.env, inLoop, c);
        rest.(marks := first.marks + rest.marks)
  }

  /** At the end of an `if`, paths from both arms meet. */
  function Joined(at: Place, env: Env, arm: Walk): Walk {
    match arm.end
    case Onward => arm.(marks := arm.marks + {Mark(at + [2], env.names, arm.env.moved)})
    case Past => arm.(end := Round)
    case _ => arm
  }

  /** The end of a loop body: at the head nothing that was held may be gone, and what
      leads back to it meets, as does what leaves the loop. */
  function Looped(at: Place, env: Env, body: Walk): Walk {
    match body.end
    case Onward => AtHead(at, env, body)
    case AtBack => AtHead(at, env, body)
    case AtBreak =>
      Walk(Onward, Outside(env.names, body.env), body.marks + {Mark(at + [2], env.names, body.env.moved)})
    case Past => body.(end := Round)
    case _ => body
  }

  function AtHead(at: Place, env: Env, body: Walk): Walk {
    Walk(if env.names * body.env.moved <= env.moved then Round else Refused, body.env,
         body.marks + {Mark(at + [1], env.names, body.env.moved)})
  }

  /** The end of a block that is reached: all that was declared in it is moved. */
  function Closed(env: Env, body: Walk): Walk {
    match body.end
    case Onward =>
      Walk(if body.env.names - env.names <= body.env.moved then Onward else Refused, Outside(env.names, body.env), body.marks)
    case Past => body.(env := Outside(env.names, body.env))
    case _ => body
  }

  function Back(inLoop: bool, step: Walk): Walk {
    if step.end.Onward? then step.(end := if inLoop then AtBack else Refused) else step
  }

  // ----- what is asked of paths -----

  predicate Alike(m: Mark, n: Mark) { forall x <- m.names :: x in m.moved <==> x in n.moved }

  /** No path is refused. */
  ghost predicate AllPass(s: Stmt, at: Place, env: Env, inLoop: bool) {
    forall c: Course :: !Go(s, at, env, inLoop, c).end.Refused?
  }

  predicate Marked(s: Stmt, at: Place, env: Env, inLoop: bool, c: Course, m: Mark) {
    m in Go(s, at, env, inLoop, c).marks
  }

  /** Paths that meet agree. */
  ghost predicate AllMeet(s: Stmt, at: Place, env: Env, inLoop: bool) {
    forall c: Course, d: Course, m, n ::
      Marked(s, at, env, inLoop, c, m) && Marked(s, at, env, inLoop, d, n) && m.at == n.at ==> Alike(m, n)
  }

  ghost predicate Fine(s: Stmt, at: Place, env: Env, inLoop: bool) {
    AllPass(s, at, env, inLoop) && AllMeet(s, at, env, inLoop)
  }

  /** Declarations stand in blocks only: no arm, loop body or step binds a name for what
      comes after it, and control gets past each step.  Every `for` has been lowered. */
  predicate Ordinary(s: Stmt) {
    match s
    case If(_, thn, els) =>
      Ordinary(thn) && Binds(thn, {}) == {} && (els.Some? ==> Ordinary(els.value) && Binds(els.value, {}) == {})
    case Loop(body) => Ordinary(body) && Binds(body, {}) == {}
    case Block(stmts) => forall i :: 0 <= i < |stmts| ==> Ordinary(stmts[i])
    case Continue(step) => step.Some? ==> Ordinary(step.value) && Binds(step.value, {}) == {} && FallsThrough(step.value)
    case For(_, _, _, _) => false
    case _ => true
  }

  // ----- a path is what it does at the places of the text -----

  predicate Under(p: Place, at: Place) { at <= p }

  ghost predicate SameFrom(at: Place, c: Course, d: Course) { forall p: Place :: Under(p, at) ==> c(p) == d(p) }

  lemma SameBelow(at: Place, k: nat, c: Course, d: Course)
    requires SameFrom(at, c, d)
    ensures SameFrom(at + [k], c, d) && c(at) == d(at) && c(at + [k]) == d(at + [k])
  {
    forall p: Place | Under(p, at + [k]) ensures c(p) == d(p) {
      assert at <= at + [k] <= p;
      assert Under(p, at);
    }
    assert Under(at, at) && Under(at + [k], at);
  }

  lemma {:induction false} GoLocal(s: Stmt, at: Place, env: Env, inLoop: bool, c: Course, d: Course)
    requires SameFrom(at, c, d)
    ensures Go(s, at, env, inLoop, c) == Go(s, at, env, inLoop, d)
    decreases s, 1
  {
    SameBelow(at, 0, c, d);
    match s
    case If(_, thn, els) =>
      SameBelow(at, 1, c, d);
      SameBelow(at, 3, c, d);
      GoLocal(thn, at + [0], env, inLoop, c, d);
      if els.Some? { GoLocal(els.value, at + [1], env, inLoop, c, d); }
    case Loop(body) => GoLocal(body, at + [0], env, true, c, d);
    case Block(stmts) =>
      forall j: nat ensures SameFrom(at + [j], c, d) { SameBelow(at, j, c, d); }
      GoAllLocal(stmts, at, 0, env, inLoop, c, d);
    case Continue(step) => if step.Some? { GoLocal(step.value, at + [0], env, inLoop, c, d); }
    case _ =>
  }

  lemma {:induction false} GoAllLocal(ss: seq<Stmt>, at: Place, k: nat, env: Env, inLoop: bool, c: Course, d: Course)
    requires forall j: nat :: j >= k ==> SameFrom(at + [j], c, d)
    ensures GoAll(ss, at, k, env, inLoop, c) == GoAll(ss, at, k, env, inLoop, d)
    decreases ss, 0
  {
    if ss != [] {
      GoLocal(ss[0], at + [k], env, inLoop, c, d);
      GoAllLocal(ss[1..], at, k + 1, Go(ss[0], at + [k], env, inLoop, c).env, inLoop, c, d);
    }
  }

  lemma {:induction false} GoMarks(s: Stmt, at: Place, env: Env, inLoop: bool, c: Course)
    ensures forall m <- Go(s, at, env, inLoop, c).marks :: at < m.at
    decreases s, 1
  {
    match s
    case If(_, thn, els) =>
      GoMarks(thn, at + [0], env, inLoop, c);
      if els.Some? { GoMarks(els.value, at + [1], env, inLoop, c); }
    case Loop(body) => GoMarks(body, at + [0], env, true, c);
    case Block(stmts) => GoAllMarks(stmts, at, 0, env, inLoop, c);
    case Continue(step) => if step.Some? { GoMarks(step.value, at + [0], env, inLoop, c); }
    case _ =>
  }

  lemma {:induction false} GoAllMarks(ss: seq<Stmt>, at: Place, k: nat, env: Env, inLoop: bool, c: Course)
    ensures forall m <- GoAll(ss, at, k, env, inLoop, c).marks :: at < m.at && m.at[|at|] >= k
    decreases ss, 0
  {
    if ss != [] {
      GoMarks(ss[0], at + [k], env, inLoop, c);
      GoAllMarks(ss[1..], at, k + 1, Go(ss[0], at + [k], env, inLoop, c).env, inLoop, c);
    }
  }

  /** The same path but for the way at one place. */
  function Turn(c: Course, at: Place, way: bool): Course {
    (p: Place) => if p == at then way else if p == at + [3] then false else c(p)
  }

  lemma TurnSame(c: Course, at: Place, way: bool, k: nat)
    requires k < 3
    ensures SameFrom(at + [k], Turn(c, at, way), c) && Turn(c, at, way)(at) == way && !Turn(c, at, way)(at + [3])
  {
    forall p: Place | Under(p, at + [k]) ensures p != at && p != at + [3] { assert p[|at|] == k; }
  }

  /** One path in a statement of a block, another after it. */
  function Then(at: Place, k: nat, c: Course, d: Course): Course { (p: Place) => if Under(p, at + [k]) then c(p) else d(p) }

  lemma ThenSame(at: Place, k: nat, c: Course, d: Course)
    ensures SameFrom(at + [k], Then(at, k, c, d), c)
    ensures forall j: nat :: j > k ==> SameFrom(at + [j], Then(at, k, c, d), d)
  {
    forall j: nat, p: Place | j > k && Under(p, at + [j]) ensures !Under(p, at + [k]) { assert p[|at|] == j; }
  }

  // ----- the checker's state and the paths -----

  predicate InLoop(f: Flow) { f.frames != [] }

  function GoFrom(s: Stmt, at: Place, f: Flow, c: Course): Walk { Go(s, at, f.env, InLoop(f), c) }

  function GoAllFrom(ss: seq<Stmt>, at: Place, k: nat, f: Flow, c: Course): Walk { GoAll(ss, at, k, f.env, InLoop(f), c) }

  predicate Recorded(env: Env, before: seq<Env>, after: seq<Env>) { exists k :: |before| <= k < |after| && after[k] == env }

  /** A walk ends as the checker's result says. */
  predicate Mirrored(falls: bool, f: Flow, r: Flow, w: Walk) {
    match w.end
    case Onward => falls && w.env == r.env
    case Past => !falls && w.env == r.env
    case AtBreak => Recorded(w.env, Breaks(f), Breaks(r))
    case AtBack => Recorded(w.env, Conts(f), Conts(r))
    case Refused => false
    case _ => true
  }

  predicate EndsAt(w: Walk, e: End, env: Env) { w.end == e && w.env == env }

  /** The snapshots of the innermost loop, for its end or its head. */
  function Snaps(e: End, f: Flow): seq<Env> { if e == AtBreak then Breaks(f) else Conts(f) }

  ghost predicate SomeEnds(s: Stmt, at: Place, f: Flow, e: End, env: Env) {
    exists c: Course :: EndsAt(GoFrom(s, at, f, c), e, env)
  }

  /** What was recorded is the end of a walk. */
  ghost predicate Seen(s: Stmt, at: Place, f: Flow, r: Flow, e: End) {
    forall k :: |Snaps(e, f)| <= k < |Snaps(e, r)| ==> SomeEnds(s, at, f, e, Snaps(e, r)[k])
  }

  /** Every walk ends so, and every end that the checker sees is one of a walk. */
  ghost predicate Mirrors(s: Stmt, at: Place, f: Flow, r: Flow) {
    && (forall c: Course :: Mirrored(FallsThrough(s), f, r, GoFrom(s, at, f, c)))
    && (FallsThrough(s) ==> SomeEnds(s, at, f, Onward, r.env))
    && (!FallsThrough(s) && f.frames == [] ==>
          r.env.names <= r.env.moved || SomeEnds(s, at, f, Past, r.env))
    && Seen(s, at, f, r, AtBreak) && Seen(s, at, f, r, AtBack)
    && (MayBreak(s) <==> |Breaks(f)| < |Breaks(r)|)
  }

  ghost predicate SomeEndAll(ss: seq<Stmt>, at: Place, i: nat, f: Flow, e: End, env: Env) {
    exists c: Course :: EndsAt(GoAllFrom(ss, at, i, f, c), e, env)
  }

  ghost predicate AllSeen(ss: seq<Stmt>, at: Place, i: nat, f: Flow, r: Flow, e: End) {
    forall k :: |Snaps(e, f)| <= k < |Snaps(e, r)| ==> SomeEndAll(ss, at, i, f, e, Snaps(e, r)[k])
  }

  ghost predicate AllMirror(ss: seq<Stmt>, at: Place, i: nat, f: Flow, r: Flow) {
    && (forall c: Course :: Mirrored(FallsThrough(Block(ss)), f, r, GoAllFrom(ss, at, i, f, c)))
    && (FallsThrough(Block(ss)) ==> SomeEndAll(ss, at, i, f, Onward, r.env))
    && (!FallsThrough(Block(ss)) && f.frames == [] ==>
          r.env.names <= r.env.moved || SomeEndAll(ss, at, i, f, Past, r.env))
    && AllSeen(ss, at, i, f, r, AtBreak) && AllSeen(ss, at, i, f, r, AtBack)
    && (AnyBreaks(ss) <==> |Breaks(f)| < |Breaks(r)|)
  }

  predicate AllMarked(ss: seq<Stmt>, at: Place, k: nat, env: Env, inLoop: bool, c: Course, m: Mark) {
    m in GoAll(ss, at, k, env, inLoop, c).marks
  }

  ghost predicate AllMeetFrom(ss: seq<Stmt>, at: Place, k: nat, env: Env, inLoop: bool) {
    forall c: Course, d: Course, m, n ::
      AllMarked(ss, at, k, env, inLoop, c, m) && AllMarked(ss, at, k, env, inLoop, d, n) && m.at == n.at ==> Alike(m, n)
  }

  predicate Clean(env: Env) { env.moved <= env.names }

  lemma {:induction false} CondsHeld(c: Cond, env: Env)
    ensures CheckCond(c, env) <==> CondHeld(c, env)
  {
    match c
    case Reads(xs) => assert forall x <- xs :: Available(x, env) == Held(x, env);
    case Not(a) => CondsHeld(a, env);
  }

  lemma {:induction false} CheckClean(s: Stmt, f: Flow)
    requires Check(s, f).Some? && Clean(f.env)
    ensures Clean(Check(s, f).value.env)
    decreases s, 1
  {
    match s
    case If(_, thn, els) =>
      CheckClean(thn, f);
      var t := Check(thn, f).value;
      if els.Some? { CheckClean(els.value, t.(env := Restore(t.env, f.env))); }
    case Loop(body) => CheckClean(body, f.(frames := f.frames + [Frame([], [])]));
    case Block(stmts) =>
    case Continue(step) => if step.Some? { CheckClean(step.value, f); }
    case _ =>
  }

  lemma Restored(env: Env, snap: Env)
    requires env.names <= snap.names && Clean(snap)
    ensures Restore(env, snap) == Outside(env.names, snap)
    ensures env.names == snap.names ==> Restore(env, snap) == snap
  {
    assert Restore(env, snap).moved == snap.moved * env.names;
    if env.names == snap.names { assert snap.moved * env.names == snap.moved; }
  }
}
