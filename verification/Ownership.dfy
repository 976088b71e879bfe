/** The ownership checker of the Boson compiler (cmd/bosc/compile.go and
    cmd/bosc/checker.go) as a function on flow states.  Each loop body is
    analysed once.  `None` is a compile error. */
module Ownership {
  import opened Wrappers
  import opened Boson

  /** The visible owned bindings, and those of them marked moved.  This is at
      once the flow state and what a snapshot of it records. */
  datatype Env = Env(names: set<Name>, moved: set<Name>) {
    function Mark(x: Name): Env { Env(names, moved + {x}) }

    function Bind(x: Name): Env { Env(names + {x}, moved - {x}) }
  }

  /** The snapshots recorded for the innermost loop. */
  datatype Frame = Frame(breaks: seq<Env>, conts: seq<Env>)

  datatype Flow = Flow(env: Env, frames: seq<Frame>)

  predicate Available(x: Name, env: Env) { x in env.names && x !in env.moved }

  /** Puts back the flags of a snapshot for the bindings that still exist. */
  function Restore(env: Env, snap: Env): Env {
    Env(env.names, set x <- env.names | if x in snap.names then x in snap.moved else x in env.moved)
  }

  /** Whether the obligations of some names are live in both or in neither; a
      name that a snapshot does not hold has an unset moved flag. */
  predicate Agree(names: set<Name>, a: Env, b: Env) {
    forall x <- names :: x in a.moved <==> x in b.moved
  }

  predicate AllAgree(names: set<Name>, snaps: seq<Env>) {
    forall i :: 0 <= i < |snaps| ==> Agree(names, snaps[0], snaps[i])
  }

  function CheckSource(src: Source, env: Env): Option<Env> {
    match src
    case Fresh => Some(env)
    case From(y) => if Available(y, env) then Some(env.Mark(y)) else None
  }

  function CondNames(c: Cond): seq<Name> {
    match c
    case Reads(xs) => xs
    case Not(a) => CondNames(a)
  }

  predicate CheckCond(c: Cond, env: Env) {
    forall x <- CondNames(c) :: Available(x, env)
  }

  function RecordBreak(f: Flow): Flow
    requires f.frames != []
  {
    var top := f.frames[|f.frames| - 1];
    f.(frames := f.frames[|f.frames| - 1 := top.(breaks := top.breaks + [f.env])])
  }

  function RecordContinue(f: Flow): Flow
    requires f.frames != []
  {
    var top := f.frames[|f.frames| - 1];
    f.(frames := f.frames[|f.frames| - 1 := top.(conts := top.conts + [f.env])])
  }

  function Check(s: Stmt, f: Flow): (r: Option<Flow>)
    ensures r.Some? ==> |r.value.frames| == |f.frames| && f.env.names <= r.value.env.names
    decreases s, 1
  {
    match s
    case Use(x) => if Available(x, f.env) then Some(f) else None
    case Consume(x) => if Available(x, f.env) then Some(f.(env := f.env.Mark(x))) else None
    case Dispose(x) => if Available(x, f.env) then Some(f.(env := f.env.Mark(x))) else None
    case Declare(x, init) =>
      if x in f.env.names then None
      else if init.None? then Some(f.(env := f.env.Bind(x).Mark(x)))
      else
        var e := CheckSource(init.value, f.env.Bind(x));
        if e.None? then None else Some(f.(env := e.value))
    case Assign(x, src) =>
      if x !in f.env.names || x !in f.env.moved then None
      else
        var e := CheckSource(src, f.env);
        if e.None? then None else Some(f.(env := e.value.Bind(x)))
    case If(cond, thn, els) =>
      if !CheckCond(cond, f.env) then None
      else
        var t := Check(thn, f);
        if t.None? then None
        else
          var g := t.value.(env := Restore(t.value.env, f.env));
          var e := if els.Some? then Check(els.value, g) else Some(g);
          if e.None? then None else CheckJoin(s, f.env, t.value.env, e.value)
    case Loop(body) =>
      var b := Check(body, f.(frames := f.frames + [Frame([], [])]));
      if b.None? then None else CheckLoopEnd(body, f, b.value)
    case Block(stmts) =>
      var b := CheckAll(stmts, f);
      if b.None? then None
      else if FallsThrough(s) && exists x <- b.value.env.names - f.env.names :: x !in b.value.env.moved then None
      else Some(b.value.(env := Env(f.env.names, b.value.env.moved * f.env.names)))
    case Break => if f.frames == [] then None else Some(RecordBreak(f))
    case Continue(step) =>
      var t := if step.Some? then Check(step.value, f) else Some(f);
      if t.None? || f.frames == [] then None else Some(RecordContinue(t.value))
    case Return(val) =>
      var e := if val.Some? then CheckSource(val.value, f.env) else Some(f.env);
      if e.None? || !(e.value.names <= e.value.moved) then None else Some(f.(env := e.value))
    case For(_, _, _, _) => None  // lowered before checking
  }

  /** Statements after one that does not fall through are not checked. */
  function CheckAll(ss: seq<Stmt>, f: Flow): (r: Option<Flow>)
    ensures r.Some? ==> |r.value.frames| == |f.frames| && f.env.names <= r.value.env.names
    decreases ss, 0
  {
    if ss == [] then Some(f)
    else
      var r := Check(ss[0], f);
      if r.None? || !FallsThrough(ss[0]) then r else CheckAll(ss[1..], r.value)
  }

  /** The end of an `if`, given the snapshots before it and after its first
      branch, and the state after its second. */
  function CheckJoin(s: Stmt, before: Env, afterThen: Env, e: Flow): (r: Option<Flow>)
    requires s.If?
    ensures r.Some? ==> r.value.frames == e.frames && r.value.env.names == e.env.names
  {
    var thenFalls := FallsThrough(s.thn);
    var elseFalls := s.els.None? || FallsThrough(s.els.value);
    if thenFalls && elseFalls then
      if Agree(afterThen.names * before.names, afterThen, e.env)
      then Some(e.(env := Restore(e.env, afterThen))) else None
    else if thenFalls then Some(e.(env := Restore(e.env, afterThen)))
    else if elseFalls then Some(e)
    else Some(e.(env := Restore(e.env, before)))
  }

  /** The end of a loop, given the state before it and after its body. */
  function CheckLoopEnd(body: Stmt, f: Flow, b: Flow): (r: Option<Flow>)
    requires |b.frames| == |f.frames| + 1
    ensures r.Some? ==> |r.value.frames| == |f.frames| && r.value.env.names == b.env.names
  {
    var top := b.frames[|f.frames|];
    var backedges := (if FallsThrough(body) then [b.env] else []) + top.conts;
    if !AllAgree(f.env.names, backedges) || !AllAgree(f.env.names, top.breaks) then None
    else if |backedges| > 0 && exists x <- f.env.names :: x !in f.env.moved && x in backedges[0].moved then None
    else
      var env := if |backedges| > 0 then Restore(b.env, backedges[0]) else b.env;
      Some(Flow(Restore(env, if |top.breaks| > 0 then top.breaks[0] else f.env), b.frames[..|f.frames|]))
  }

  /** A function body: the parameters are live on entry and must be moved at
      its end. */
  predicate CheckFunction(params: set<Name>, body: Stmt) {
    var r := Check(body, Flow(Env(params, {}), []));
    r.Some? && params <= r.value.env.moved
  }
}
