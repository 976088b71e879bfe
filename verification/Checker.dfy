/** The ownership checker as the compiler runs it: a chain of contexts whose
    moved flags are updated, snapshotted and restored in place, and stacks of
    the snapshots recorded for `break` and `continue`.  Every operation is
    proved to act on the visible bindings as `Ownership` says. */
module Checker {
  import opened Wrappers
  import opened Boson
  import opened Ownership

  /** The per-loop snapshot stacks, held by the root of a context chain. */
  class LoopStacks {
    var breakStates: seq<seq<Env>>
    var continueStates: seq<seq<Env>>

    constructor ()
      ensures breakStates == [] && continueStates == []
    {
      breakStates, continueStates := [], [];
    }

    ghost predicate Valid()
      reads this
    {
      |breakStates| == |continueStates|
    }

    ghost function Frames(): seq<Frame>
      requires Valid()
      reads this
    {
      seq(|breakStates|, i requires 0 <= i < |breakStates| && Valid() reads this => Frame(breakStates[i], continueStates[i]))
    }

    method Push()
      requires Valid()
      modifies this
      ensures Valid() && Frames() == old(Frames()) + [Frame([], [])]
    {
      breakStates := breakStates + [[]];
      continueStates := continueStates + [[]];
    }

    method RecordBreak(snap: Env)
      requires Valid() && breakStates != []
      modifies this
      ensures Valid() && Frames() == Ownership.RecordBreak(Flow(snap, old(Frames()))).frames
    {
      var top := |breakStates| - 1;
      breakStates := breakStates[top := breakStates[top] + [snap]];
    }

    method RecordContinue(snap: Env)
      requires Valid() && continueStates != []
      modifies this
      ensures Valid() && Frames() == Ownership.RecordContinue(Flow(snap, old(Frames()))).frames
    {
      var top := |continueStates| - 1;
      continueStates := continueStates[top := continueStates[top] + [snap]];
    }

    method Pop()
      requires Valid() && breakStates != []
      modifies this
      ensures Valid() && Frames() == old(Frames())[..|old(Frames())| - 1]
    {
      breakStates := breakStates[..|breakStates| - 1];
      continueStates := continueStates[..|continueStates| - 1];
    }
  }

  class Context {
    const parent: Context?
    const loops: LoopStacks
    ghost const chain: seq<Context>
    var bindings: set<Name>
    var movedBindings: set<Name>

    /** The context of a function, binding its parameters. */
    constructor Function(params: set<Name>)
      ensures Valid() && fresh(loops) && chain == [this]
      ensures State() == Flow(Env(params, {}), [])
    {
      parent := null;
      loops := new LoopStacks();
      chain := [this];
      bindings, movedBindings := params, {};
      new;
      assert loops.Frames() == [];
      assert chain[1..] == [];
      assert NamesOf(chain[1..]) == {} && MovedOf(chain[1..]) == {};
      assert NamesOf(chain) == bindings + {} && MovedOf(chain) == movedBindings + {};
      assert Linked(chain, 0);
    }

    constructor SubContext(outer: Context)
      requires outer.Valid()
      ensures Valid() && parent == outer && chain == [this] + outer.chain && loops == outer.loops
      ensures bindings == {} && State() == outer.State()
    {
      parent := outer;
      loops := outer.loops;
      chain := [this] + outer.chain;
      bindings, movedBindings := {}, {};
      new;
      assert chain[1..] == outer.chain;
      forall i | 0 <= i < |chain| ensures Linked(chain, i) {
        if i > 0 {
          assert outer.Linked(outer.chain, i - 1);
          assert chain[i..] == outer.chain[i - 1..];
        }
      }
    }

    /** The context chain up to the root; it never changes. */
    ghost predicate Shape() {
      && chain != [] && chain[0] == this
      && (forall i, j :: 0 <= i < j < |chain| ==> chain[i] != chain[j])
      && (forall i :: 0 <= i < |chain| ==> Linked(chain, i))
    }

    ghost predicate Linked(cs: seq<Context>, i: int)
      requires 0 <= i < |cs|
    {
      && cs[i].chain == cs[i..] && cs[i].loops == loops
      && cs[i].parent == (if i + 1 < |cs| then cs[i + 1] else null)
    }

    static ghost function NamesOf(cs: seq<Context>): set<Name>
      reads cs
    {
      if cs == [] then {} else cs[0].bindings + NamesOf(cs[1..])
    }

    static ghost function MovedOf(cs: seq<Context>): set<Name>
      reads cs
    {
      if cs == [] then {} else cs[0].movedBindings + MovedOf(cs[1..])
    }

    /** No name is bound twice, and only bound names are marked moved. */
    static ghost predicate Flags(cs: seq<Context>)
      reads cs
    {
      cs == [] || (cs[0].movedBindings <= cs[0].bindings && cs[0].bindings !! NamesOf(cs[1..]) && Flags(cs[1..]))
    }

    ghost predicate Valid()
      reads this, chain, loops
    {
      Shape() && Flags(chain) && loops.Valid()
    }

    ghost function Visible(): Env
      reads chain
    {
      Env(NamesOf(chain), MovedOf(chain))
    }

    ghost function State(): Flow
      requires loops.Valid()
      reads chain, loops
    {
      Flow(Visible(), loops.Frames())
    }

    lemma ChainShape()
      requires Shape()
      ensures chain != [] && chain[0] == this && this !in chain[1..]
      ensures parent == null <==> chain[1..] == []
      ensures parent != null ==> parent.Shape() && parent.chain == chain[1..] && parent.loops == loops
    {
      assert Linked(chain, 0);
      if parent != null {
        assert Linked(chain, 1);
        forall i | 0 <= i < |parent.chain| ensures parent.Linked(parent.chain, i) {
          assert Linked(chain, i + 1);
          assert chain[1..][i..] == chain[i + 1..];
        }
      }
    }

    static lemma {:induction false} MovedAreBound(cs: seq<Context>)
      requires Flags(cs)
      ensures MovedOf(cs) <= NamesOf(cs)
    {
      if cs != [] { MovedAreBound(cs[1..]); }
    }

    method IsDeclared(name: Name) returns (b: bool)
      requires Valid()
      ensures b == (name in Visible().names)
      decreases |chain|
    {
      hide Shape, Flags;
      ChainShape();
      InnerValid();
      if name in bindings {
        b := true;
      } else if parent == null {
        assert NamesOf(chain[1..]) == {};
        b := false;
      } else {
        b := parent.IsDeclared(name);
      }
    }

    lemma InnerValid()
      requires Valid()
      ensures parent != null ==> parent.Valid() && parent.chain == chain[1..] && parent.loops == loops
      ensures bindings !! NamesOf(chain[1..]) && movedBindings <= bindings
      ensures MovedOf(chain[1..]) <= NamesOf(chain[1..])
    {
      hide Shape;
      ChainShape();
      MovedAreBound(chain[1..]);
    }

    method IsMoved(name: Name) returns (b: bool)
      requires Valid()
      ensures b == (name in Visible().moved)
      decreases |chain|
    {
      hide Shape, Flags;
      ChainShape();
      InnerValid();
      if name in bindings {
        b := name in movedBindings;
      } else if parent == null {
        b := false;
      } else {
        b := parent.IsMoved(name);
      }
    }

    /** Marks a binding moved (MoveConsume and MoveTransfer). */
    method Move(name: Name)
      requires Valid()
      modifies chain
      ensures Valid() && forall c <- chain :: c.bindings == old(c.bindings)
      ensures Visible() == if name in old(Visible().names) then old(Visible()).Mark(name) else old(Visible())
      decreases |chain|
    {
      hide Shape;
      ChainShape();
      InnerValid();
      if name in bindings {
        movedBindings := movedBindings + {name};
      } else if parent != null {
        parent.Move(name);
      }
    }

    method Unmove(name: Name)
      requires Valid() && name in Visible().names
      modifies chain
      ensures Valid() && forall c <- chain :: c.bindings == old(c.bindings)
      ensures Visible() == old(Visible()).Bind(name)
      decreases |chain|
    {
      hide Shape;
      ChainShape();
      InnerValid();
      if name in bindings {
        movedBindings := movedBindings - {name};
      } else {
        parent.Unmove(name);
      }
    }

    /** Fails on a name that is already declared in this scope or would shadow
        one of an enclosing scope. */
    method BindVar(name: Name) returns (ok: bool)
      requires Valid()
      modifies this
      ensures ok == (name !in old(Visible()).names)
      ensures ok ==> Valid() && Visible() == old(Visible()).Bind(name)
      ensures !ok ==> unchanged(this)
    {
      hide Shape;
      var declared := IsDeclared(name);
      if declared { return false; }
      ChainShape();
      InnerValid();
      bindings := bindings + {name};
      return true;
    }

    method OwnedBindingsSnapshot() returns (snap: Env)
      requires Valid()
      ensures snap == Visible()
    {
      hide Shape;
      snap := Env({}, {});
      var ctx: Context? := this;
      ghost var rest := chain;
      while ctx != null
        invariant if ctx == null then rest == [] else ctx.Valid() && rest == ctx.chain
        invariant snap.names + NamesOf(rest) == NamesOf(chain) && snap.names !! NamesOf(rest)
        invariant snap.moved + MovedOf(rest) == MovedOf(chain)
        decreases |rest|
      {
        ctx.ChainShape();
        ctx.InnerValid();
        var unseen := ctx.bindings - snap.names;
        assert unseen == ctx.bindings;
        snap := Env(snap.names + unseen, snap.moved + ctx.movedBindings * unseen);
        rest := rest[1..];
        ctx := ctx.parent;
      }
    }

    static lemma RestoreSplits(a: Env, b: Env, snap: Env)
      requires a.names !! b.names && a.moved <= a.names && b.moved <= b.names
      ensures Restore(Env(a.names + b.names, a.moved + b.moved), snap) ==
              Env(a.names + b.names, Restore(a, snap).moved + Restore(b, snap).moved)
    {
    }

    method RestoreOwnedBindings(snap: Env)
      requires Valid()
      modifies chain
      ensures Valid() && forall c <- chain :: c.bindings == old(c.bindings)
      ensures Visible() == Restore(old(Visible()), snap)
      decreases |chain|
    {
      hide Shape;
      ChainShape();
      InnerValid();
      ghost var own, rest := Env(bindings, movedBindings), Env(NamesOf(chain[1..]), MovedOf(chain[1..]));
      RestoreSplits(own, rest, snap);
      movedBindings := set x <- bindings | if x in snap.names then x in snap.moved else x in movedBindings;
      assert movedBindings == Restore(own, snap).moved;
      if parent != null {
        parent.RestoreOwnedBindings(snap);
      } else {
        assert Restore(rest, snap).moved == {};
      }
    }

    /** Reading a name, or checking that it is there to be moved. */
    method Symbol(name: Name) returns (ok: bool)
      requires Valid()
      ensures ok == Available(name, Visible())
    {
      var declared := IsDeclared(name);
      var moved := IsMoved(name);
      ok := declared && !moved;
    }

    method Condition(c: Cond) returns (ok: bool)
      requires Valid()
      ensures ok == CheckCond(c, Visible())
    {
      var names := CondNames(c);
      for i := 0 to |names|
        invariant forall j :: 0 <= j < i ==> Available(names[j], Visible())
      {
        ok := Symbol(names[i]);
        if !ok { return; }
      }
      ok := true;
    }

    /** Takes the value of an owned destination from its source. */
    method MoveOwnedSource(src: Source) returns (ok: bool)
      requires Valid()
      modifies chain
      ensures ok == CheckSource(src, old(Visible())).Some?
      ensures ok ==> Valid() && Visible() == CheckSource(src, old(Visible())).value
      ensures ok ==> forall c <- chain :: c.bindings == old(c.bindings)
    {
      if src.Fresh? { return true; }
      ok := Symbol(src.name);
      if ok { Move(src.name); }
    }

    method SameAcross(names: set<Name>, snaps: seq<Env>) returns (ok: bool)
      ensures ok == AllAgree(names, snaps)
    {
      for i := 0 to |snaps|
        invariant forall j :: 0 <= j < i ==> Agree(names, snaps[0], snaps[j])
      {
        if !Agree(names, snaps[0], snaps[i]) { return false; }
      }
      return true;
    }

    /** Compiling a statement changes the flow state as `Check` says, and fails
        exactly where it does. */
    method Compile(s: Stmt) returns (ok: bool)
      requires Valid()
      modifies chain, loops
      ensures ok == Check(s, old(State())).Some?
      ensures ok ==> Valid() && State() == Check(s, old(State())).value
      ensures ok ==> forall i :: 1 <= i < |chain| ==> chain[i].bindings == old(chain[i].bindings)
      decreases s, 1
    {
      match s
      case Use(x) => ok := Symbol(x);
      case Consume(x) =>
        ok := Symbol(x);
        if ok { Move(x); }
      case Dispose(x) =>
        ok := Symbol(x);
        if ok { Move(x); }
      case Declare(_, _) => ok := CompileDeclare(s);
      case Assign(_, _) => ok := CompileAssign(s);
      case If(_, _, _) => ok := CompileIf(s);
      case Loop(_) => ok := CompileLoop(s);
      case Block(_) => ok := CompileBlock(s);
      case Break =>
        if loops.breakStates == [] { return false; }
        var snap := OwnedBindingsSnapshot();
        loops.RecordBreak(snap);
        ok := true;
      case Continue(_) => ok := CompileContinue(s);
      case Return(_) => ok := CompileReturn(s);
      case For(_, _, _, _) => ok := false;
    }

    method CompileDeclare(s: Stmt) returns (ok: bool)
      requires Valid() && s.Declare?
      modifies chain
      ensures ok == Check(s, old(State())).Some?
      ensures ok ==> Valid() && State() == Check(s, old(State())).value
      ensures ok ==> forall i :: 1 <= i < |chain| ==> chain[i].bindings == old(chain[i].bindings)
    {
      ok := BindVar(s.x);
      if !ok { return; }
      if s.init.None? { Move(s.x); } else { ok := MoveOwnedSource(s.init.value); }
    }

    method CompileAssign(s: Stmt) returns (ok: bool)
      requires Valid() && s.Assign?
      modifies chain
      ensures ok == Check(s, old(State())).Some?
      ensures ok ==> Valid() && State() == Check(s, old(State())).value
      ensures ok ==> forall i :: 1 <= i < |chain| ==> chain[i].bindings == old(chain[i].bindings)
    {
      var declared := IsDeclared(s.x);
      var moved := IsMoved(s.x);
      if !declared || !moved { return false; }
      SameNames(chain);
      ok := MoveOwnedSource(s.src);
      if ok { Unmove(s.x); }
    }

    method CompileContinue(s: Stmt) returns (ok: bool)
      requires Valid() && s.Continue?
      modifies chain, loops
      ensures ok == Check(s, old(State())).Some?
      ensures ok ==> Valid() && State() == Check(s, old(State())).value
      ensures ok ==> forall i :: 1 <= i < |chain| ==> chain[i].bindings == old(chain[i].bindings)
      decreases s, 0
    {
      if s.step.Some? {
        ok := Compile(s.step.value);
        if !ok { return; }
      }
      if loops.continueStates == [] { return false; }
      var snap := OwnedBindingsSnapshot();
      loops.RecordContinue(snap);
      ok := true;
    }

    method CompileReturn(s: Stmt) returns (ok: bool)
      requires Valid() && s.Return?
      modifies chain
      ensures ok == Check(s, old(State())).Some?
      ensures ok ==> Valid() && State() == Check(s, old(State())).value
      ensures ok ==> forall i :: 1 <= i < |chain| ==> chain[i].bindings == old(chain[i].bindings)
    {
      if s.val.Some? {
        ok := MoveOwnedSource(s.val.value);
        if !ok { return; }
      }
      var snap := OwnedBindingsSnapshot();
      ok := snap.names <= snap.moved;
    }

    method CompileBlock(s: Stmt) returns (ok: bool)
      requires Valid() && s.Block?
      modifies chain, loops
      ensures ok == Check(s, old(State())).Some?
      ensures ok ==> Valid() && State() == Check(s, old(State())).value
      ensures ok ==> forall i :: 1 <= i < |chain| ==> chain[i].bindings == old(chain[i].bindings)
      decreases s, 0
    {
      var sc := new Context.SubContext(this);
      assert sc.chain[1..] == chain;
      ok := sc.CompileAll(s.stmts);
      if !ok { return; }
      assert forall i :: 0 <= i < |chain| ==> chain[i] == sc.chain[i + 1];
      SameNames(chain);
      sc.InnermostApart();
      ok := !FallsThrough(s) || sc.bindings <= sc.movedBindings;
    }

    /** The visible bindings of a sub-context are its own and its parent's. */
    lemma InnermostApart()
      requires Valid() && parent != null
      ensures parent.Valid() && parent.chain == chain[1..]
      ensures Visible().names - parent.Visible().names == bindings
      ensures Visible().moved * parent.Visible().names == parent.Visible().moved
      ensures bindings <= movedBindings <==> !exists x <- bindings :: x !in Visible().moved
    {
      hide Shape;
      ChainShape();
      InnerValid();
    }

    static twostate lemma SameNames(cs: seq<Context>)
      requires forall c <- cs :: c.bindings == old(c.bindings)
      ensures NamesOf(cs) == old(NamesOf(cs))
    {
      if cs != [] { SameNames(cs[1..]); }
    }

    method CompileIf(s: Stmt) returns (ok: bool)
      requires Valid() && s.If?
      modifies chain, loops
      ensures ok == Check(s, old(State())).Some?
      ensures ok ==> Valid() && State() == Check(s, old(State())).value
      ensures ok ==> forall i :: 1 <= i < |chain| ==> chain[i].bindings == old(chain[i].bindings)
      decreases s, 0
    {
      ok := Condition(s.cond);
      if !ok { return; }
      var before := OwnedBindingsSnapshot();
      ok := Compile(s.thn);
      if !ok { return; }
      var afterThen := OwnedBindingsSnapshot();
      RestoreOwnedBindings(before);
      if s.els.Some? {
        ok := Compile(s.els.value);
        if !ok { return; }
      }
      ok := Join(s, before, afterThen);
    }

    method Join(s: Stmt, before: Env, afterThen: Env) returns (ok: bool)
      requires Valid() && s.If?
      modifies chain
      ensures ok == CheckJoin(s, before, afterThen, old(State())).Some?
      ensures ok ==> Valid() && State() == CheckJoin(s, before, afterThen, old(State())).value
      ensures ok ==> forall c <- chain :: c.bindings == old(c.bindings)
    {
      var afterElse := OwnedBindingsSnapshot();
      var thenFalls := FallsThrough(s.thn);
      var elseFalls := s.els.None? || FallsThrough(s.els.value);
      if thenFalls && elseFalls {
        if !Agree(afterThen.names * before.names, afterThen, afterElse) { return false; }
        RestoreOwnedBindings(afterThen);
      } else if thenFalls {
        RestoreOwnedBindings(afterThen);
      } else if !elseFalls {
        RestoreOwnedBindings(before);
      }
      ok := true;
    }

    method CompileLoop(s: Stmt) returns (ok: bool)
      requires Valid() && s.Loop?
      modifies chain, loops
      ensures ok == Check(s, old(State())).Some?
      ensures ok ==> Valid() && State() == Check(s, old(State())).value
      ensures ok ==> forall i :: 1 <= i < |chain| ==> chain[i].bindings == old(chain[i].bindings)
      decreases s, 0
    {
      var before := OwnedBindingsSnapshot();
      loops.Push();
      ok := Compile(s.body);
      if ok { ok := LoopEnd(s.body, before, old(State())); }
    }

    method LoopEnd(body: Stmt, before: Env, ghost f: Flow) returns (ok: bool)
      requires Valid() && before == f.env && |loops.breakStates| == |f.frames| + 1
      modifies chain, loops
      ensures ok == CheckLoopEnd(body, f, old(State())).Some?
      ensures ok ==> Valid() && State() == CheckLoopEnd(body, f, old(State())).value
      ensures ok ==> forall c <- chain :: c.bindings == old(c.bindings)
    {
      hide Restore, AllAgree, NamesOf, MovedOf;
      ghost var b := State();
      var afterBody := OwnedBindingsSnapshot();
      var top := |loops.breakStates| - 1;
      var breakStates, continueStates := loops.breakStates[top], loops.continueStates[top];
      assert b.frames[|f.frames|] == Frame(breakStates, continueStates);
      var backedges := (if FallsThrough(body) then [afterBody] else []) + continueStates;
      ok := BackedgesAgree(before, backedges);
      if !ok { return; }
      ok := SameAcross(before.names, breakStates);
      if !ok { return; }
      RestoreTwice(backedges, if |breakStates| > 0 then breakStates[0] else before);
      loops.Pop();
    }

    method RestoreTwice(backedges: seq<Env>, exit: Env)
      requires Valid()
      modifies chain
      ensures Valid() && loops.Frames() == old(loops.Frames())
      ensures Visible() == Restore(if |backedges| > 0 then Restore(old(Visible()), backedges[0]) else old(Visible()), exit)
      ensures forall c <- chain :: c.bindings == old(c.bindings)
    {
      if |backedges| > 0 { RestoreOwnedBindings(backedges[0]); }
      RestoreOwnedBindings(exit);
    }

    /** Every back edge agrees with the first, which keeps what was live. */
    method BackedgesAgree(before: Env, backedges: seq<Env>) returns (ok: bool)
      ensures ok == (AllAgree(before.names, backedges) &&
                     !(|backedges| > 0 && exists x <- before.names :: x !in before.moved && x in backedges[0].moved))
    {
      ok := SameAcross(before.names, backedges);
      if ok && |backedges| > 0 && exists x <- before.names :: x !in before.moved && x in backedges[0].moved {
        ok := false;
      }
    }

    method CompileAll(ss: seq<Stmt>) returns (ok: bool)
      requires Valid()
      modifies chain, loops
      ensures ok == CheckAll(ss, old(State())).Some?
      ensures ok ==> Valid() && State() == CheckAll(ss, old(State())).value
      ensures ok ==> forall i :: 1 <= i < |chain| ==> chain[i].bindings == old(chain[i].bindings)
      decreases ss, 0
    {
      ok := true;
      for i := 0 to |ss|
        invariant ok && Valid()
        invariant CheckAll(ss, old(State())) == CheckAll(ss[i..], State())
        invariant forall j :: 1 <= j < |chain| ==> chain[j].bindings == old(chain[j].bindings)
      {
        assert ss[i..][1..] == ss[i + 1..];
        ok := Compile(ss[i]);
        if !ok || !FallsThrough(ss[i]) { return; }
      }
    }
  }

  /** Accepts a function body exactly when `CheckFunction` does. */
  method CompileFunctionBody(params: set<Name>, body: Stmt) returns (ok: bool)
    requires body.Block?
    ensures ok == CheckFunction(params, body)
  {
    var c := new Context.Function(params);
    ok := c.Compile(body);
    if ok {
      assert c.chain[1..] == [];
      assert Context.NamesOf(c.chain) == c.bindings && Context.MovedOf(c.chain) == c.movedBindings;
      assert c.bindings == params;
      ok := c.bindings <= c.movedBindings;
    }
  }
}
