/** The control-flow core of the Boson language: statements over non-nullable
    owned bindings, with a big-step semantics in which conditions are answered
    by an arbitrary oracle and loops may run any number of times.

    A run is a value of `Exec`.  The fuel bounds the number of loop iterations
    of one run; since every statement about runs is made for all fuels, it
    covers every finite run and every finite prefix of an infinite one. */
module Boson {
  import opened Wrappers

  type Name = string

  /** What an owned destination is filled from: a freshly built value, or
      another owned binding, which is thereby moved. */
  datatype Source = Fresh | From(name: Name)

  /** A condition reads some bindings and is then answered by the oracle. */
  datatype Cond = Reads(names: seq<Name>) | Not(arg: Cond)

  datatype Stmt =
    | Use(x: Name)
    | Consume(x: Name)
    | Dispose(x: Name)
    | Declare(x: Name, init: Option<Source>)
    | Assign(x: Name, src: Source)
    | If(cond: Cond, thn: Stmt, els: Option<Stmt>)
    | Loop(body: Stmt)
    | Block(stmts: seq<Stmt>)
    | Break
    | Continue(step: Option<Stmt>)
    | Return(val: Option<Source>)
    | For(start: Option<Stmt>, guard: Option<Cond>, iter: Option<Stmt>, forBody: Stmt)

  // ----- scopes -----

  /** Whether control may get past a statement, as the compiler sees it. */
  predicate FallsThrough(s: Stmt) {
    match s
    case Break => false
    case Continue(_) => false
    case Return(_) => false
    case Block(stmts) => forall i :: 0 <= i < |stmts| ==> FallsThrough(stmts[i])
    case If(_, thn, els) => els.None? || FallsThrough(thn) || FallsThrough(els.value)
    case For(start, _, _, _) => start.None? || FallsThrough(start.value)
    case _ => true
  }

  /** The names that a statement leaves in the scope around it.  The step of a loop
      is compiled where a `continue` stands: k are the names that this binds. */
  function Binds(s: Stmt, k: set<Name>): set<Name>
    decreases s, 1
  {
    match s
    case Declare(x, _) => {x}
    case If(_, thn, els) => Binds(thn, k) + if els.Some? then Binds(els.value, k) else {}
    case Loop(body) => Binds(body, {})
    case Continue(step) => if step.Some? then Binds(step.value, {}) else k
    case _ => {}
  }

  /** The bindings of a block; what control never gets to is not compiled. */
  function AllBinds(ss: seq<Stmt>, k: set<Name>): set<Name>
    decreases ss, 0
  {
    if ss == [] then {} else Binds(ss[0], k) + if FallsThrough(ss[0]) then AllBinds(ss[1..], k) else {}
  }

  // ----- runs -----

  /** Observable effects on owned bindings.  `Gave(x)`: x received a resource;
      `Took(x)`: x's resource was moved out or disposed of. */
  datatype Event = Gave(x: Name) | Took(x: Name) | Read(x: Name) | Tested(answer: bool)

  /** `live` are the bindings that hold a resource: those declared on the way here
      and given one that was not taken since. */
  datatype World = World(live: set<Name>, trace: seq<Event>, coins: nat -> bool, tossed: nat)

  /** `NotHeld(x)`: x was used while it held nothing.  `Continued(left)`: on the way
      to the next iteration, out of the scopes of those names. */
  datatype Outcome = Normal | Broke | Continued(left: set<Name>) | Returned | NotHeld(x: Name) | OutOfFuel

  datatype Result = Result(out: Outcome, w: World)

  function ReadName(x: Name, w: World): Result {
    if x !in w.live then Result(NotHeld(x), w)
    else Result(Normal, w.(trace := w.trace + [Read(x)]))
  }

  function TakeName(x: Name, w: World): Result {
    if x !in w.live then Result(NotHeld(x), w)
    else Result(Normal, w.(live := w.live - {x}, trace := w.trace + [Took(x)]))
  }

  function GiveName(x: Name, w: World): World {
    w.(live := w.live + {x}, trace := w.trace + [Gave(x)])
  }

  function TakeSource(src: Source, w: World): Result {
    match src
    case Fresh => Result(Normal, w)
    case From(y) => TakeName(y, w)
  }

  function ReadAll(xs: seq<Name>, w: World): Result {
    if xs == [] then Result(Normal, w)
    else
      var r := ReadName(xs[0], w);
      if r.out.Normal? then ReadAll(xs[1..], r.w) else r
  }

  /** Evaluates a condition; the boolean is its value when the outcome is `Normal`. */
  function Test(c: Cond, w: World): (Result, bool) {
    match c
    case Reads(xs) =>
      var r := ReadAll(xs, w);
      if r.out.Normal? then
        var answer := w.coins(r.w.tossed);
        (Result(Normal, r.w.(trace := r.w.trace + [Tested(answer)], tossed := r.w.tossed + 1)), answer)
      else (r, false)
    case Not(a) =>
      var (r, b) := Test(a, w);
      (r, !b)
  }

  function Drop(names: set<Name>, w: World): World { w.(live := w.live - names) }

  /** The end of a scope: its bindings are gone, after a `continue` once the step has run. */
  function Leave(names: set<Name>, r: Result): Result {
    match r.out
    case Normal => r.(w := Drop(names, r.w))
    case Broke => r.(w := Drop(names, r.w))
    case Continued(left) => r.(out := Continued(left + names))
    case _ => r
  }

  function Exec(s: Stmt, k: set<Name>, w: World, fuel: nat): Result
    decreases fuel, s, 1
  {
    match s
    case Use(x) => ReadName(x, w)
    case Consume(x) => TakeName(x, w)
    case Dispose(x) => TakeName(x, w)
    case Declare(x, init) =>
      // The binding exists, holding nothing, before its initialiser is evaluated.
      var bound := Drop({x}, w);
      if init.None? then Result(Normal, bound)
      else
        var r := TakeSource(init.value, bound);
        if r.out.Normal? then Result(Normal, GiveName(x, r.w)) else r
    case Assign(x, src) =>
      var r := TakeSource(src, w);
      if r.out.Normal? then Result(Normal, GiveName(x, r.w)) else r
    case If(cond, thn, els) =>
      var (r, b) := Test(cond, w);
      if !r.out.Normal? then r
      else if b then Exec(thn, k, r.w, fuel)
      else if els.Some? then Exec(els.value, k, r.w, fuel)
      else r
    case Loop(body) =>
      if fuel == 0 then Result(OutOfFuel, w)
      else
        var r := Exec(body, {}, w, fuel - 1);
        match r.out {
          case Normal => Exec(s, {}, r.w, fuel - 1)
          case Continued(left) => Exec(s, {}, Drop(left, r.w), fuel - 1)
          case Broke => Result(Normal, r.w)
          case _ => r
        }
    case Block(stmts) => Leave(AllBinds(stmts, k), ExecAll(stmts, k, w, fuel))
    case Break => Result(Broke, w)
    case Continue(step) =>
      if step.None? then Result(Continued({}), w)
      else
        var r := Exec(step.value, {}, w, fuel);
        if r.out.Normal? then Result(Continued({}), r.w) else r
    case Return(val) =>
      var r := if val.Some? then TakeSource(val.value, w) else Result(Normal, w);
      if r.out.Normal? then Result(Returned, r.w) else r
    case For(start, guard, iter, body) =>
      var r := if start.Some? then Exec(start.value, k, w, fuel) else Result(Normal, w);
      Leave(if start.Some? then Binds(start.value, k) else {},
            if r.out.Normal? then Iterate(guard, iter, body, r.w, fuel) else r)
  }

  function ExecAll(ss: seq<Stmt>, k: set<Name>, w: World, fuel: nat): Result
    decreases fuel, ss, 0
  {
    if ss == [] then Result(Normal, w)
    else
      var r := Exec(ss[0], k, w, fuel);
      if r.out.Normal? then ExecAll(ss[1..], k, r.w, fuel) else r
  }

  function StepBinds(iter: Option<Stmt>): set<Name> { if iter.Some? then Binds(iter.value, {}) else {} }

  /** The bindings of one iteration of a `for`. */
  function PassBinds(iter: Option<Stmt>, body: Stmt): set<Name> {
    Binds(body, StepBinds(iter)) + if FallsThrough(body) then StepBinds(iter) else {}
  }

  /** The direct meaning of `for`, from the test of the guard on: a `continue`
      of the body runs the step, a `break` of the body or the step leaves. */
  function Iterate(guard: Option<Cond>, iter: Option<Stmt>, body: Stmt, w: World, fuel: nat): Result
    decreases fuel, body, iter, 0
  {
    if fuel == 0 then Result(OutOfFuel, w)
    else
      var (t, go) := if guard.Some? then Test(guard.value, w) else (Result(Normal, w), true);
      if !t.out.Normal? then t
      else if !go then Result(Normal, t.w)
      else
        var b := Exec(body, StepBinds(iter), t.w, fuel - 1);
        match b.out {
          case Normal => AfterBody(guard, iter, body, {}, b.w, fuel - 1)
          case Continued(left) => AfterBody(guard, iter, body, left, b.w, fuel - 1)
          case Broke => Result(Normal, Drop(PassBinds(iter, body), b.w))
          case _ => b
        }
  }

  /** The rest of an iteration whose body left the scopes of some names. */
  function AfterBody(guard: Option<Cond>, iter: Option<Stmt>, body: Stmt, left: set<Name>, w: World, fuel: nat): Result
    decreases fuel
  {
    var r := if iter.Some? then Exec(iter.value, {}, w, fuel) else Result(Normal, w);
    var gone := left + PassBinds(iter, body);
    match r.out
    case Normal => Iterate(guard, iter, body, Drop(gone, r.w), fuel)
    case Continued(more) => Iterate(guard, iter, body, Drop(more + gone, r.w), fuel)
    case Broke => Result(Normal, Drop(gone, r.w))
    case _ => r
  }
}
