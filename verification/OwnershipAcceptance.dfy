/** The ownership checker accepts a body exactly if no path through its text is
    refused and paths that meet agree. */
module OwnershipAcceptance {
  import opened Wrappers
  import opened Boson
  import opened Ownership
  import opened OwnershipSoundness
  import opened OwnershipPaths
  import opened Lowering

  // ----- what is accepted -----

  const ANY: Course := (p: Place) => false

  ghost predicate Accepts(s: Stmt, at: Place, f: Flow, r: Flow) {
    Mirrors(s, at, f, r) && AllMeet(s, at, f.env, InLoop(f))
  }

  ghost predicate AllAccept(ss: seq<Stmt>, at: Place, k: nat, f: Flow, r: Flow) {
    AllMirror(ss, at, k, f, r) && AllMeetFrom(ss, at, k, f.env, InLoop(f))
  }

  lemma {:induction false} Accepted(s: Stmt, at: Place, f: Flow)
    requires Ordinary(s) && Clean(f.env) && Check(s, f).Some?
    ensures Accepts(s, at, f, Check(s, f).value)
    decreases s, 1
  {
    match s
    case If(_, _, _) => IfAccepted(s, at, f);
    case Loop(_) => LoopAccepted(s, at, f);
    case Block(_) => BlockAccepted(s, at, f);
    case Continue(_) => ContinueAccepted(s, at, f);
    case _ => SimpleAccepted(s, at, f);
  }

  lemma SimpleAccepted(s: Stmt, at: Place, f: Flow)
    requires Ordinary(s) && !s.If? && !s.Loop? && !s.Block? && !s.Continue? && Clean(f.env) && Check(s, f).Some?
    ensures Accepts(s, at, f, Check(s, f).value)
  {
    var r, w := Check(s, f).value, GoFrom(s, at, f, ANY);
    assert forall c: Course :: GoFrom(s, at, f, c) == w;
    if s.Break? {
      assert Breaks(r) == Breaks(f) + [f.env] && Conts(r) == Conts(f);
      assert Breaks(r)[|Breaks(f)|] == f.env;
      assert EndsAt(GoFrom(s, at, f, ANY), AtBreak, f.env);
    } else {
      assert r.frames == f.frames;
      if FallsThrough(s) { assert EndsAt(GoFrom(s, at, f, ANY), Onward, r.env); }
    }
  }

  lemma {:induction false} ContinueAccepted(s: Stmt, at: Place, f: Flow)
    requires s.Continue? && Ordinary(s) && Clean(f.env) && Check(s, f).Some?
    ensures Accepts(s, at, f, Check(s, f).value)
    decreases s, 0
  {
    var r := Check(s, f).value;
    if s.step.None? {
      assert Breaks(r) == Breaks(f) && Conts(r) == Conts(f) + [f.env];
      assert Conts(r)[|Conts(f)|] == f.env;
      assert EndsAt(GoFrom(s, at, f, ANY), AtBack, f.env);
    } else {
      var t := Check(s.step.value, f).value;
      Accepted(s.step.value, at + [0], f);
      CheckRecords(s.step.value, f);
      assert Breaks(r) == Breaks(t) && Conts(r) == Conts(t) + [t.env];
      StepWalks(s, at, f, t, r);
      StepSeen(s, at, f, t, r, AtBreak);
      StepSeen(s, at, f, t, r, AtBack);
      SameMarks(s, s.step.value, at, at + [0], f);
    }
  }

  lemma StepWalks(s: Stmt, at: Place, f: Flow, t: Flow, r: Flow)
    requires s.Continue? && s.step.Some? && FallsThrough(s.step.value) && f.frames != []
    requires Mirrors(s.step.value, at + [0], f, t) && Breaks(r) == Breaks(t) && Conts(r) == Conts(t) + [t.env]
    requires Conts(f) <= Conts(t)
    ensures forall c: Course :: Mirrored(false, f, r, GoFrom(s, at, f, c))
  {
    forall c: Course ensures Mirrored(false, f, r, GoFrom(s, at, f, c)) {
      var w := GoFrom(s.step.value, at + [0], f, c);
      WalkMirrored(s.step.value, at + [0], f, t, c);
      if w.end.Onward? {
        assert Conts(r)[|Conts(t)|] == w.env;
      } else if w.end.AtBack? {
        RecordedLater(w.env, Conts(f), Conts(t), Conts(r));
      }
    }
  }

  lemma StepSeen(s: Stmt, at: Place, f: Flow, t: Flow, r: Flow, e: End)
    requires s.Continue? && s.step.Some? && FallsThrough(s.step.value) && f.frames != []
    requires Mirrors(s.step.value, at + [0], f, t) && Breaks(r) == Breaks(t) && Conts(r) == Conts(t) + [t.env]
    requires e == AtBreak || e == AtBack
    ensures Seen(s, at, f, r, e)
  {
    forall k | |Snaps(e, f)| <= k < |Snaps(e, r)| ensures SomeEnds(s, at, f, e, Snaps(e, r)[k]) {
      if k < |Snaps(e, t)| {
        assert Seen(s.step.value, at + [0], f, t, e);
        assert SomeEnds(s.step.value, at + [0], f, e, Snaps(e, t)[k]);
        var c: Course :| EndsAt(GoFrom(s.step.value, at + [0], f, c), e, Snaps(e, t)[k]);
        assert EndsAt(GoFrom(s, at, f, c), e, Snaps(e, r)[k]);
      } else {
        var c: Course :| EndsAt(GoFrom(s.step.value, at + [0], f, c), Onward, t.env);
        assert EndsAt(GoFrom(s, at, f, c), e, Snaps(e, r)[k]);
      }
    }
  }

  /** Statements whose walks have the same marks. */
  lemma SameMarks(s: Stmt, a: Stmt, at: Place, below: Place, f: Flow)
    requires AllMeet(a, below, f.env, InLoop(f))
    requires forall c: Course :: GoFrom(s, at, f, c).marks == GoFrom(a, below, f, c).marks
    ensures AllMeet(s, at, f.env, InLoop(f))
  {
    forall c: Course, d: Course, m, n |
      Marked(s, at, f.env, InLoop(f), c, m) && Marked(s, at, f.env, InLoop(f), d, n) && m.at == n.at
      ensures Alike(m, n)
    {
      assert GoFrom(s, at, f, c).marks == GoFrom(a, below, f, c).marks;
      assert GoFrom(s, at, f, d).marks == GoFrom(a, below, f, d).marks;
      assert Marked(a, below, f.env, InLoop(f), c, m) && Marked(a, below, f.env, InLoop(f), d, n);
    }
  }

  lemma RecordedLater(env: Env, before: seq<Env>, mid: seq<Env>, after: seq<Env>)
    requires Recorded(env, before, mid) && mid <= after
    ensures Recorded(env, before, after)
  {
    var k :| |before| <= k < |mid| && mid[k] == env;
    assert after[k] == env;
  }

  // ----- an if -----

  /** The flow state in which the second arm is checked is that of the first. */
  lemma SecondArm(s: Stmt, f: Flow)
    requires s.If? && Ordinary(s) && Clean(f.env) && Check(s.thn, f).Some?
    ensures var t := Check(s.thn, f).value;
            t.env.names == f.env.names && Clean(t.env) && t.(env := Restore(t.env, f.env)) == Flow(f.env, t.frames)
    ensures Records(f, Check(s.thn, f).value)
  {
    CheckRecords(s.thn, f);
    CheckClean(s.thn, f);
    Restored(Check(s.thn, f).value.env, f.env);
  }

  /** The results of both arms and of the whole. */
  ghost predicate Arms(s: Stmt, f: Flow, t: Flow, e: Flow, r: Flow) {
    && s.If? && Ordinary(s) && CheckCond(s.cond, f.env) && Check(s, f) == Some(r)
    && Check(s.thn, f) == Some(t) && |t.frames| == |f.frames| && t.env.names == f.env.names && Clean(t.env)
    && (if s.els.Some? then Check(s.els.value, Flow(f.env, t.frames)) == Some(e) else e == Flow(f.env, t.frames))
    && e.env.names == f.env.names && Clean(e.env) && |e.frames| == |f.frames|
    && r.frames == e.frames && Records(f, t) && Records(Flow(f.env, t.frames), e)
    && CheckJoin(s, f.env, t.env, e) == Some(r)
  }

  lemma ArmsOf(s: Stmt, f: Flow) returns (t: Flow, e: Flow)
    requires s.If? && Ordinary(s) && Clean(f.env) && Check(s, f).Some?
    ensures Arms(s, f, t, e, Check(s, f).value)
  {
    SecondArm(s, f);
    t := Check(s.thn, f).value;
    var g := Flow(f.env, t.frames);
    e := if s.els.Some? then Check(s.els.value, g).value else g;
    if s.els.Some? {
      CheckRecords(s.els.value, g);
      CheckClean(s.els.value, g);
    }
  }

  lemma JoinIs(s: Stmt, f: Flow, t: Flow, e: Flow, r: Flow)
    requires Arms(s, f, t, e, r) && Clean(f.env)
    ensures var (a, b) := (FallsThrough(s.thn), s.els.None? || FallsThrough(s.els.value));
            && (a ==> r.env == t.env) && (b ==> r.env == e.env) && (!a && !b ==> r.env == f.env)
  {
    Restored(e.env, t.env);
    Restored(e.env, f.env);
    if FallsThrough(s.thn) && (s.els.None? || FallsThrough(s.els.value)) {
      assert t.env.names * f.env.names == f.env.names;
      assert t.env.moved == e.env.moved;
    }
  }

  lemma {:induction false} IfAccepted(s: Stmt, at: Place, f: Flow)
    requires s.If? && Ordinary(s) && Clean(f.env) && Check(s, f).Some?
    ensures Accepts(s, at, f, Check(s, f).value)
    decreases s, 0
  {
    var r := Check(s, f).value;
    var t, e := ArmsOf(s, f);
    JoinIs(s, f, t, e, r);
    CondsHeld(s.cond, f.env);
    Accepted(s.thn, at + [0], f);
    if s.els.Some? { Accepted(s.els.value, at + [1], Flow(f.env, t.frames)); }
    IfWalks(s, at, f, t, e, r);
    IfReached(s, at, f, t, e, r);
    IfMeets(s, at, f, r);
  }

  ghost predicate ArmsMirror(s: Stmt, at: Place, f: Flow, t: Flow, e: Flow, r: Flow) {
    && Arms(s, f, t, e, r) && Clean(f.env) && CondHeld(s.cond, f.env)
    && Mirrors(s.thn, at + [0], f, t)
    && (s.els.Some? ==> Mirrors(s.els.value, at + [1], Flow(f.env, t.frames), e))
    && var (a, b) := (FallsThrough(s.thn), s.els.None? || FallsThrough(s.els.value));
       && (a ==> r.env == t.env) && (b ==> r.env == e.env) && (!a && !b ==> r.env == f.env)
  }

  lemma IfWalks(s: Stmt, at: Place, f: Flow, t: Flow, e: Flow, r: Flow)
    requires ArmsMirror(s, at, f, t, e, r)
    ensures forall c: Course :: Mirrored(FallsThrough(s), f, r, GoFrom(s, at, f, c))
  {
    forall c: Course ensures Mirrored(FallsThrough(s), f, r, GoFrom(s, at, f, c)) {
      hide Mirrors, Ordinary, Check, CheckJoin, Mirrored, ArmsMirror;
      FirstArmWalk(s, at, f, t, e, r, c);
      if s.els.Some? { SecondArmWalk(s, at, f, t, e, r, c); }
      IfWalk(s, at, f, t, e, r, c);
    }
  }

  /** A walk of an arm, as it is seen behind the `if`. */
  predicate ArmSeen(falls: bool, f: Flow, r: Flow, w: Walk) {
    match w.end
    case Onward => falls && w.env == r.env
    case AtBreak => Recorded(w.env, Breaks(f), Breaks(r))
    case AtBack => Recorded(w.env, Conts(f), Conts(r))
    case Refused => false
    case _ => true
  }

  lemma FirstArmWalk(s: Stmt, at: Place, f: Flow, t: Flow, e: Flow, r: Flow, c: Course)
    requires ArmsMirror(s, at, f, t, e, r)
    ensures ArmSeen(FallsThrough(s.thn), f, r, GoFrom(s.thn, at + [0], f, c))
  {
    hide Ordinary, Check, CheckJoin, Go;
    var w := GoFrom(s.thn, at + [0], f, c);
    WalkMirrored(s.thn, at + [0], f, t, c);
    hide Mirrors;
    if w.end.AtBreak? { RecordedLater(w.env, Breaks(f), Breaks(t), Breaks(r)); }
    if w.end.AtBack? { RecordedLater(w.env, Conts(f), Conts(t), Conts(r)); }
  }

  lemma SecondArmWalk(s: Stmt, at: Place, f: Flow, t: Flow, e: Flow, r: Flow, c: Course)
    requires ArmsMirror(s, at, f, t, e, r) && s.els.Some?
    ensures ArmSeen(FallsThrough(s.els.value), f, r, Go(s.els.value, at + [1], f.env, InLoop(f), c))
  {
    hide Ordinary, Check, CheckJoin, Go;
    var g := Flow(f.env, t.frames);
    assert Go(s.els.value, at + [1], f.env, InLoop(f), c) == GoFrom(s.els.value, at + [1], g, c);
    WalkMirrored(s.els.value, at + [1], g, e, c);
    hide Mirrors;
    assert |Breaks(f)| <= |Breaks(g)| && |Conts(f)| <= |Conts(g)|;
  }

  lemma IfWalk(s: Stmt, at: Place, f: Flow, t: Flow, e: Flow, r: Flow, c: Course)
    requires ArmsMirror(s, at, f, t, e, r)
    requires ArmSeen(FallsThrough(s.thn), f, r, GoFrom(s.thn, at + [0], f, c))
    requires s.els.Some? ==> ArmSeen(FallsThrough(s.els.value), f, r, Go(s.els.value, at + [1], f.env, InLoop(f), c))
    ensures Mirrored(FallsThrough(s), f, r, GoFrom(s, at, f, c))
  {
    hide Mirrors, Ordinary, Check, CheckJoin;
  }

  lemma WalkMirrored(s: Stmt, at: Place, f: Flow, r: Flow, c: Course)
    requires Mirrors(s, at, f, r)
    ensures Mirrored(FallsThrough(s), f, r, GoFrom(s, at, f, c))
  {
  }

  /** A walk of an arm, turned to at the `if`. */
  lemma ArmTaken(s: Stmt, at: Place, f: Flow, frames: seq<Frame>, c: Course, way: bool) returns (d: Course)
    requires s.If? && CondHeld(s.cond, f.env) && |frames| == |f.frames| && (way || s.els.Some?)
    ensures GoFrom(s, at, f, d) ==
            Joined(at, f.env, if way then GoFrom(s.thn, at + [0], f, c)
                              else GoFrom(s.els.value, at + [1], Flow(f.env, frames), c))
  {
    d := Turn(c, at, way);
    TurnSame(c, at, way, if way then 0 else 1);
    if way {
      GoLocal(s.thn, at + [0], f.env, InLoop(f), d, c);
    } else {
      GoLocal(s.els.value, at + [1], f.env, InLoop(f), d, c);
    }
  }

  lemma IfReached(s: Stmt, at: Place, f: Flow, t: Flow, e: Flow, r: Flow)
    requires ArmsMirror(s, at, f, t, e, r)
    requires forall c: Course :: Mirrored(FallsThrough(s), f, r, GoFrom(s, at, f, c))
    ensures Mirrors(s, at, f, r)
  {
    if FallsThrough(s) { IfEnds(s, at, f, t, e, r); } else {
      assert EndsAt(GoFrom(s, at, f, (p: Place) => true), Past, r.env);
    }
    IfSeen(s, at, f, t, e, r, AtBreak);
    IfSeen(s, at, f, t, e, r, AtBack);
  }

  lemma IfSeen(s: Stmt, at: Place, f: Flow, t: Flow, e: Flow, r: Flow, end: End)
    requires ArmsMirror(s, at, f, t, e, r) && (end == AtBreak || end == AtBack)
    ensures Seen(s, at, f, r, end)
  {
    hide Go;
    var g := Flow(f.env, t.frames);
    forall k | |Snaps(end, f)| <= k < |Snaps(end, r)| ensures SomeEnds(s, at, f, end, Snaps(end, r)[k]) {
      if k < |Snaps(end, t)| {
        assert Seen(s.thn, at + [0], f, t, end) && SomeEnds(s.thn, at + [0], f, end, Snaps(end, t)[k]);
        var c: Course :| EndsAt(GoFrom(s.thn, at + [0], f, c), end, Snaps(end, t)[k]);
        var d := ArmTaken(s, at, f, t.frames, c, true);
        assert EndsAt(GoFrom(s, at, f, d), end, Snaps(end, r)[k]);
      } else {
        assert Seen(s.els.value, at + [1], g, e, end) && SomeEnds(s.els.value, at + [1], g, end, Snaps(end, e)[k]);
        var c: Course :| EndsAt(GoFrom(s.els.value, at + [1], g, c), end, Snaps(end, e)[k]);
        var d := ArmTaken(s, at, f, t.frames, c, false);
        assert EndsAt(GoFrom(s, at, f, d), end, Snaps(end, r)[k]);
      }
    }
  }

  lemma IfEnds(s: Stmt, at: Place, f: Flow, t: Flow, e: Flow, r: Flow)
    requires ArmsMirror(s, at, f, t, e, r) && FallsThrough(s)
    ensures SomeEnds(s, at, f, Onward, r.env)
  {
    if s.els.None? {
      assert EndsAt(GoFrom(s, at, f, ANY), Onward, r.env);
    } else if FallsThrough(s.thn) {
      var c: Course :| EndsAt(GoFrom(s.thn, at + [0], f, c), Onward, t.env);
      var d := ArmTaken(s, at, f, t.frames, c, true);
      assert EndsAt(GoFrom(s, at, f, d), Onward, r.env);
    } else {
      var c: Course :| EndsAt(GoFrom(s.els.value, at + [1], Flow(f.env, t.frames), c), Onward, e.env);
      var d := ArmTaken(s, at, f, t.frames, c, false);
      assert EndsAt(GoFrom(s, at, f, d), Onward, r.env);
    }
  }

  /** Where a mark of an `if` is from. */
  lemma IfMarks(s: Stmt, at: Place, f: Flow, c: Course, r: Flow, m: Mark)
    requires s.If? && Mirrored(FallsThrough(s), f, r, GoFrom(s, at, f, c)) && m in GoFrom(s, at, f, c).marks
    ensures || m == Mark(at + [2], f.env.names, r.env.moved)
            || (at + [0] < m.at && Marked(s.thn, at + [0], f.env, InLoop(f), c, m))
            || (at + [1] < m.at && s.els.Some? && Marked(s.els.value, at + [1], f.env, InLoop(f), c, m))
  {
    GoMarks(s.thn, at + [0], f.env, InLoop(f), c);
    if s.els.Some? { GoMarks(s.els.value, at + [1], f.env, InLoop(f), c); }
  }

  lemma IfMeets(s: Stmt, at: Place, f: Flow, r: Flow)
    requires s.If? && AllMeet(s.thn, at + [0], f.env, InLoop(f))
    requires s.els.Some? ==> AllMeet(s.els.value, at + [1], f.env, InLoop(f))
    requires Mirrors(s, at, f, r)
    ensures AllMeet(s, at, f.env, InLoop(f))
  {
    hide Mirrors;
    forall c: Course, d: Course, m, n |
      Marked(s, at, f.env, InLoop(f), c, m) && Marked(s, at, f.env, InLoop(f), d, n) && m.at == n.at
      ensures Alike(m, n)
    {
      hide Go;
      WalkMirrored(s, at, f, r, c);
      WalkMirrored(s, at, f, r, d);
      IfMarks(s, at, f, c, r, m);
      IfMarks(s, at, f, d, r, n);
      assert m.at[|at|] == n.at[|at|];
    }
  }

  // ----- a loop -----

  function Entering(f: Flow): Flow { f.(frames := f.frames + [Frame([], [])]) }

  function BackEdges(body: Stmt, b: Flow): seq<Env> { (if FallsThrough(body) then [b.env] else []) + Conts(b) }

  predicate Loses(env: Env, back: Env) { exists x <- env.names :: x !in env.moved && x in back.moved }

  /** What the checker asks of the end of a loop. */
  ghost predicate LoopAgrees(body: Stmt, f: Flow, b: Flow) {
    && AllAgree(f.env.names, BackEdges(body, b)) && AllAgree(f.env.names, Breaks(b))
    && (BackEdges(body, b) != [] ==> !Loses(f.env, BackEdges(body, b)[0]))
  }

  function AfterLoop(f: Flow, b: Flow): Env { if Breaks(b) == [] then f.env else Outside(f.env.names, Breaks(b)[0]) }

  lemma LoopEndIs(body: Stmt, f: Flow)
    requires Ordinary(Loop(body)) && Clean(f.env) && Check(body, Entering(f)).Some?
    ensures var b := Check(body, Entering(f)).value;
            && b.env.names == f.env.names && b.frames != [] && Records(Entering(f), b)
            && (Check(Loop(body), f).Some? <==> LoopAgrees(body, f, b))
            && (Check(Loop(body), f).Some? ==> Check(Loop(body), f).value == Flow(AfterLoop(f, b), f.frames))
  {
    var fb := Entering(f);
    CheckRecords(body, fb);
    var b := Check(body, fb).value;
    assert fb.frames[..|f.frames|] == f.frames && b.frames[..|f.frames|] == f.frames;
    assert Breaks(b) == b.frames[|f.frames|].breaks && Conts(b) == b.frames[|f.frames|].conts;
    if Check(Loop(body), f).Some? && Breaks(b) != [] { assert f.env.names <= Breaks(b)[0].names; }
    LeavesLoop(body, f, b);
  }

  lemma LeavesLoop(body: Stmt, f: Flow, b: Flow)
    requires Clean(f.env) && b.env.names == f.env.names && |b.frames| == |f.frames| + 1
    requires Breaks(b) != [] ==> f.env.names <= Breaks(b)[0].names
    ensures forall env: Env :: env.names == f.env.names ==>
              Restore(env, if |Breaks(b)| > 0 then Breaks(b)[0] else f.env) == AfterLoop(f, b)
  {
    forall env: Env | env.names == f.env.names
      ensures Restore(env, if |Breaks(b)| > 0 then Breaks(b)[0] else f.env) == AfterLoop(f, b)
    {
      var snap := if |Breaks(b)| > 0 then Breaks(b)[0] else f.env;
      assert Restore(env, snap).moved == snap.moved * env.names;
    }
  }

  lemma {:induction false} LoopAccepted(s: Stmt, at: Place, f: Flow)
    requires s.Loop? && Ordinary(s) && Clean(f.env) && Check(s, f).Some?
    ensures Accepts(s, at, f, Check(s, f).value)
    decreases s, 0
  {
    var b := Check(s.body, Entering(f)).value;
    LoopEndIs(s.body, f);
    Accepted(s.body, at + [0], Entering(f));
    LoopMirrors(s, at, f, b);
    LoopMeets(s, at, f, b);
  }

  ghost predicate BodyMirrors(s: Stmt, at: Place, f: Flow, b: Flow) {
    && s.Loop? && Mirrors(s.body, at + [0], Entering(f), b) && LoopAgrees(s.body, f, b)
    && b.frames != [] && Records(Entering(f), b)
  }

  /** Whatever leads back to the head is as good as what the checker compares there. */
  lemma BackEdgeIs(s: Stmt, at: Place, f: Flow, b: Flow, c: Course)
    requires BodyMirrors(s, at, f, b)
    ensures var w := GoFrom(s.body, at + [0], Entering(f), c);
            && !w.end.Refused?
            && (w.end.Onward? || w.end.AtBack? ==>
                  w.env in BackEdges(s.body, b) && f.env.names * w.env.moved <= f.env.moved)
            && (w.end.AtBreak? ==> w.env in Breaks(b) && Outside(f.env.names, w.env) == AfterLoop(f, b))
  {
    hide LoopAgrees, Go;
    var w := GoFrom(s.body, at + [0], Entering(f), c);
    WalkMirrored(s.body, at + [0], Entering(f), b, c);
    hide Mirrors;
    EnteringIsEmpty(f);
    if w.end.Onward? { assert BackEdges(s.body, b)[0] == w.env; }
    if w.end.AtBack? {
      var k :| 0 <= k < |Conts(b)| && Conts(b)[k] == w.env;
      assert BackEdges(s.body, b)[(if FallsThrough(s.body) then 1 else 0) + k] == w.env;
    }
    if w.end.Onward? || w.end.AtBack? { NothingLost(s.body, f, b, w.env); }
    if w.end.AtBreak? { SameOutside(s.body, f, b, w.env); }
  }

  lemma NothingLost(body: Stmt, f: Flow, b: Flow, env: Env)
    requires LoopAgrees(body, f, b) && env in BackEdges(body, b)
    ensures f.env.names * env.moved <= f.env.moved
  {
    AgreePairs(f.env.names, BackEdges(body, b), BackEdges(body, b)[0], env);
  }

  lemma SameOutside(body: Stmt, f: Flow, b: Flow, env: Env)
    requires LoopAgrees(body, f, b) && env in Breaks(b)
    ensures Outside(f.env.names, env) == AfterLoop(f, b)
  {
    AgreePairs(f.env.names, Breaks(b), Breaks(b)[0], env);
    assert env.moved * f.env.names == Breaks(b)[0].moved * f.env.names;
  }

  lemma LoopMirrors(s: Stmt, at: Place, f: Flow, b: Flow)
    requires BodyMirrors(s, at, f, b)
    ensures Mirrors(s, at, f, Flow(AfterLoop(f, b), f.frames))
  {
    hide LoopAgrees, Mirrors;
    var r := Flow(AfterLoop(f, b), f.frames);
    BodyBreaks(s, at, f, b);
    forall c: Course ensures Mirrored(true, f, r, GoFrom(s, at, f, c)) { BackEdgeIs(s, at, f, b, c); }
    if MayBreak(s.body) {
      var c: Course :| GoFrom(s.body, at + [0], Entering(f), c).end.AtBreak?;
      BackEdgeIs(s, at, f, b, c);
      assert EndsAt(GoFrom(s, at, f, c), Onward, r.env);
    } else {
      assert EndsAt(GoFrom(s, at, f, (p: Place) => true), Onward, r.env);
    }
    MirrorsQuietly(s, at, f, r);
  }

  lemma EnteringIsEmpty(f: Flow)
    ensures Breaks(Entering(f)) == [] && Conts(Entering(f)) == [] && Entering(f).frames != [] && Entering(f).env == f.env
  {
  }

  lemma BodyBreaks(s: Stmt, at: Place, f: Flow, b: Flow)
    requires BodyMirrors(s, at, f, b)
    ensures MayBreak(s.body) <==> Breaks(b) != []
    ensures MayBreak(s.body) ==> exists c: Course :: GoFrom(s.body, at + [0], Entering(f), c).end.AtBreak?
  {
    EnteringIsEmpty(f);
    if Breaks(b) != [] {
      assert Seen(s.body, at + [0], Entering(f), b, AtBreak);
      assert SomeEnds(s.body, at + [0], Entering(f), AtBreak, Snaps(AtBreak, b)[0]);
      var c: Course :| EndsAt(GoFrom(s.body, at + [0], Entering(f), c), AtBreak, Breaks(b)[0]);
      assert GoFrom(s.body, at + [0], Entering(f), c).end.AtBreak?;
    }
  }

  /** Nothing is recorded by a loop for the one around it. */
  lemma MirrorsQuietly(s: Stmt, at: Place, f: Flow, r: Flow)
    requires FallsThrough(s) && !MayBreak(s) && r.frames == f.frames
    requires forall c: Course :: Mirrored(true, f, r, GoFrom(s, at, f, c))
    requires SomeEnds(s, at, f, Onward, r.env)
    ensures Mirrors(s, at, f, r)
  {
  }

  /** Where a mark of a loop is from. */
  lemma LoopMarks(s: Stmt, at: Place, f: Flow, b: Flow, c: Course, m: Mark)
    requires BodyMirrors(s, at, f, b) && m in GoFrom(s, at, f, c).marks
    ensures || (exists env <- BackEdges(s.body, b) :: m == Mark(at + [1], f.env.names, env.moved))
            || (exists env <- Breaks(b) :: m == Mark(at + [2], f.env.names, env.moved))
            || (at + [0] < m.at && Marked(s.body, at + [0], f.env, true, c, m))
  {
    hide LoopAgrees, Mirrors;
    GoMarks(s.body, at + [0], f.env, true, c);
    BackEdgeIs(s, at, f, b, c);
  }

  lemma AgreePairs(names: set<Name>, snaps: seq<Env>, a: Env, b: Env)
    requires AllAgree(names, snaps) && a in snaps && b in snaps
    ensures Agree(names, a, b)
  {
    var i :| 0 <= i < |snaps| && snaps[i] == a;
    var j :| 0 <= j < |snaps| && snaps[j] == b;
    assert Agree(names, snaps[0], snaps[i]) && Agree(names, snaps[0], snaps[j]);
  }

  lemma LoopMeets(s: Stmt, at: Place, f: Flow, b: Flow)
    requires BodyMirrors(s, at, f, b) && AllMeet(s.body, at + [0], f.env, true)
    ensures AllMeet(s, at, f.env, InLoop(f))
  {
    hide Mirrors, AllAgree;
    forall c: Course, d: Course, m, n |
      Marked(s, at, f.env, InLoop(f), c, m) && Marked(s, at, f.env, InLoop(f), d, n) && m.at == n.at
      ensures Alike(m, n)
    {
      hide Go;
      LoopMarks(s, at, f, b, c, m);
      LoopMarks(s, at, f, b, d, n);
      assert m.at[|at|] == n.at[|at|];
      if m.at[|at|] == 1 {
        var x :| x in BackEdges(s.body, b) && m == Mark(at + [1], f.env.names, x.moved);
        var y :| y in BackEdges(s.body, b) && n == Mark(at + [1], f.env.names, y.moved);
        AgreePairs(f.env.names, BackEdges(s.body, b), x, y);
      } else if m.at[|at|] == 2 {
        var x :| x in Breaks(b) && m == Mark(at + [2], f.env.names, x.moved);
        var y :| y in Breaks(b) && n == Mark(at + [2], f.env.names, y.moved);
        AgreePairs(f.env.names, Breaks(b), x, y);
      }
    }
  }

  // ----- a block -----

  lemma {:induction false} BlockAccepted(s: Stmt, at: Place, f: Flow)
    requires s.Block? && Ordinary(s) && Clean(f.env) && Check(s, f).Some?
    ensures Accepts(s, at, f, Check(s, f).value)
    decreases s, 0
  {
    var b, r := CheckAll(s.stmts, f).value, Check(s, f).value;
    AllAccepted(s.stmts, at, 0, f);
    CheckAllRecords(s.stmts, f);
    BlockMirrors(s, at, f, b, r);
    BlockMeets(s, at, f);
  }

  lemma BlockMeets(s: Stmt, at: Place, f: Flow)
    requires s.Block? && AllMeetFrom(s.stmts, at, 0, f.env, InLoop(f))
    ensures AllMeet(s, at, f.env, InLoop(f))
  {
    forall c: Course, d: Course, m, n |
      Marked(s, at, f.env, InLoop(f), c, m) && Marked(s, at, f.env, InLoop(f), d, n) && m.at == n.at
      ensures Alike(m, n)
    {
      assert AllMarked(s.stmts, at, 0, f.env, InLoop(f), c, m) && AllMarked(s.stmts, at, 0, f.env, InLoop(f), d, n);
    }
  }

  lemma BlockMirrors(s: Stmt, at: Place, f: Flow, b: Flow, r: Flow)
    requires s.Block? && AllMirror(s.stmts, at, 0, f, b) && f.env.names <= b.env.names
    requires r.frames == b.frames && r.env == Outside(f.env.names, b.env)
    requires FallsThrough(s) ==> b.env.names - f.env.names <= b.env.moved
    ensures Mirrors(s, at, f, r)
  {
    assert forall c: Course :: GoFrom(s, at, f, c) == Closed(f.env, GoAllFrom(s.stmts, at, 0, f, c));
    hide Go, GoAll;
    forall c: Course ensures Mirrored(FallsThrough(s), f, r, GoFrom(s, at, f, c)) {
      assert Mirrored(FallsThrough(s), f, b, GoAllFrom(s.stmts, at, 0, f, c));
    }
    if FallsThrough(s) {
      var c: Course :| EndsAt(GoAllFrom(s.stmts, at, 0, f, c), Onward, b.env);
      assert EndsAt(GoFrom(s, at, f, c), Onward, r.env);
    } else if f.frames == [] && !(b.env.names <= b.env.moved) {
      var c: Course :| EndsAt(GoAllFrom(s.stmts, at, 0, f, c), Past, b.env);
      assert EndsAt(GoFrom(s, at, f, c), Past, r.env);
    }
    BlockSeen(s, at, f, b, r, AtBreak);
    BlockSeen(s, at, f, b, r, AtBack);
  }

  lemma BlockSeen(s: Stmt, at: Place, f: Flow, b: Flow, r: Flow, e: End)
    requires s.Block? && AllSeen(s.stmts, at, 0, f, b, e) && r.frames == b.frames && (e == AtBreak || e == AtBack)
    ensures Seen(s, at, f, r, e)
  {
    forall k | |Snaps(e, f)| <= k < |Snaps(e, r)| ensures SomeEnds(s, at, f, e, Snaps(e, r)[k]) {
      assert SomeEndAll(s.stmts, at, 0, f, e, Snaps(e, b)[k]);
      var c: Course :| EndsAt(GoAllFrom(s.stmts, at, 0, f, c), e, Snaps(e, b)[k]);
      assert EndsAt(GoFrom(s, at, f, c), e, Snaps(e, r)[k]);
    }
  }

  lemma {:induction false} AllAccepted(ss: seq<Stmt>, at: Place, i: nat, f: Flow)
    requires (forall j :: 0 <= j < |ss| ==> Ordinary(ss[j])) && Clean(f.env) && CheckAll(ss, f).Some?
    ensures AllAccept(ss, at, i, f, CheckAll(ss, f).value)
    decreases ss, 0
  {
    if ss == [] {
      assert forall c: Course :: GoAllFrom(ss, at, i, f, c) == Step(true, f.env);
      assert EndsAt(GoAllFrom(ss, at, i, f, ANY), Onward, f.env);
    } else {
      var t := Check(ss[0], f).value;
      Accepted(ss[0], at + [i], f);
      CheckRecords(ss[0], f);
      CheckClean(ss[0], f);
      if FallsThrough(ss[0]) {
        AllAccepted(ss[1..], at, i + 1, t);
        CheckAllRecords(ss[1..], t);
      }
      AllMirrorNext(ss, at, i, f, t, CheckAll(ss, f).value);
      AllMeetNext(ss, at, i, f, t);
    }
  }

  ghost predicate FirstMirrors(ss: seq<Stmt>, at: Place, i: nat, f: Flow, t: Flow, r: Flow) {
    && ss != [] && Mirrors(ss[0], at + [i], f, t) && Records(f, t)
    && if FallsThrough(ss[0]) then AllMirror(ss[1..], at, i + 1, t, r) && Records(t, r) else r == t
  }

  lemma {:induction false} BlockFalls(ss: seq<Stmt>)
    requires ss != []
    ensures FallsThrough(Block(ss)) <==> FallsThrough(ss[0]) && FallsThrough(Block(ss[1..]))
  {
    if FallsThrough(ss[0]) && FallsThrough(Block(ss[1..])) {
      forall j | 0 <= j < |ss| ensures FallsThrough(ss[j]) { if j > 0 { assert ss[j] == ss[1..][j - 1]; } }
    }
  }

  /** A path through the rest of a block, behind one through its first statement. */
  lemma RestTaken(ss: seq<Stmt>, at: Place, i: nat, f: Flow, t: Flow, c: Course, d: Course) returns (e: Course)
    requires ss != [] && EndsAt(GoFrom(ss[0], at + [i], f, c), Onward, t.env) && |t.frames| == |f.frames|
    ensures GoAllFrom(ss, at, i, f, e).end == GoAllFrom(ss[1..], at, i + 1, t, d).end
    ensures GoAllFrom(ss, at, i, f, e).env == GoAllFrom(ss[1..], at, i + 1, t, d).env
    ensures GoAllFrom(ss, at, i, f, e).marks == GoFrom(ss[0], at + [i], f, c).marks + GoAllFrom(ss[1..], at, i + 1, t, d).marks
  {
    e := Then(at, i, c, d);
    ThenSame(at, i, c, d);
    GoLocal(ss[0], at + [i], f.env, InLoop(f), e, c);
    GoAllLocal(ss[1..], at, i + 1, t.env, InLoop(f), e, d);
  }

  lemma AllMirrorNext(ss: seq<Stmt>, at: Place, i: nat, f: Flow, t: Flow, r: Flow)
    requires FirstMirrors(ss, at, i, f, t, r)
    ensures AllMirror(ss, at, i, f, r)
  {
    BlockFalls(ss);
    if !FallsThrough(ss[0]) {
      OnlyFirst(ss, at, i, f, r);
    } else {
      forall c: Course ensures Mirrored(FallsThrough(Block(ss)), f, r, GoAllFrom(ss, at, i, f, c)) {
        NextWalk(ss, at, i, f, t, r, c);
      }
      NextReached(ss, at, i, f, t, r);
    }
  }

  lemma OnlyFirst(ss: seq<Stmt>, at: Place, i: nat, f: Flow, r: Flow)
    requires ss != [] && !FallsThrough(ss[0]) && Mirrors(ss[0], at + [i], f, r)
    ensures AllMirror(ss, at, i, f, r)
  {
    BlockFalls(ss);
    forall c: Course ensures GoAllFrom(ss, at, i, f, c) == GoFrom(ss[0], at + [i], f, c) {
      WalkMirrored(ss[0], at + [i], f, r, c);
    }
  }

  lemma NextWalk(ss: seq<Stmt>, at: Place, i: nat, f: Flow, t: Flow, r: Flow, c: Course)
    requires FirstMirrors(ss, at, i, f, t, r) && FallsThrough(ss[0])
    ensures Mirrored(FallsThrough(Block(ss)), f, r, GoAllFrom(ss, at, i, f, c))
  {
    BlockFalls(ss);
    WalkMirrored(ss[0], at + [i], f, t, c);
    var w := GoFrom(ss[0], at + [i], f, c);
    if w.end.Onward? {
      assert Mirrored(FallsThrough(Block(ss[1..])), t, r, GoAllFrom(ss[1..], at, i + 1, t, c));
    } else {
      if w.end.AtBreak? { RecordedLater(w.env, Breaks(f), Breaks(t), Breaks(r)); }
      if w.end.AtBack? { RecordedLater(w.env, Conts(f), Conts(t), Conts(r)); }
    }
  }

  lemma NextReached(ss: seq<Stmt>, at: Place, i: nat, f: Flow, t: Flow, r: Flow)
    requires FirstMirrors(ss, at, i, f, t, r) && FallsThrough(ss[0])
    requires forall c: Course :: Mirrored(FallsThrough(Block(ss)), f, r, GoAllFrom(ss, at, i, f, c))
    ensures AllMirror(ss, at, i, f, r)
  {
    BlockFalls(ss);
    hide GoAll, Go;
    var c: Course :| EndsAt(GoFrom(ss[0], at + [i], f, c), Onward, t.env);
    var rest := ss[1..];
    if FallsThrough(Block(ss)) {
      var d: Course :| EndsAt(GoAllFrom(rest, at, i + 1, t, d), Onward, r.env);
      var e := RestTaken(ss, at, i, f, t, c, d);
      assert EndsAt(GoAllFrom(ss, at, i, f, e), Onward, r.env);
    } else if f.frames == [] && !(r.env.names <= r.env.moved) {
      var d: Course :| EndsAt(GoAllFrom(rest, at, i + 1, t, d), Past, r.env);
      var e := RestTaken(ss, at, i, f, t, c, d);
      assert EndsAt(GoAllFrom(ss, at, i, f, e), Past, r.env);
    }
    NextSeen(ss, at, i, f, t, r, c, AtBreak);
    NextSeen(ss, at, i, f, t, r, c, AtBack);
  }

  lemma NextSeen(ss: seq<Stmt>, at: Place, i: nat, f: Flow, t: Flow, r: Flow, c: Course, end: End)
    requires FirstMirrors(ss, at, i, f, t, r) && FallsThrough(ss[0]) && (end == AtBreak || end == AtBack)
    requires EndsAt(GoFrom(ss[0], at + [i], f, c), Onward, t.env)
    ensures AllSeen(ss, at, i, f, r, end)
  {
    hide GoAll, Go;
    forall k | |Snaps(end, f)| <= k < |Snaps(end, r)|
      ensures SomeEndAll(ss, at, i, f, end, Snaps(end, r)[k])
    {
      if k < |Snaps(end, t)| {
        assert Seen(ss[0], at + [i], f, t, end) && SomeEnds(ss[0], at + [i], f, end, Snaps(end, t)[k]);
        var d: Course :| EndsAt(GoFrom(ss[0], at + [i], f, d), end, Snaps(end, t)[k]);
        FirstLeaves(ss, at, i, f, d);
        assert EndsAt(GoAllFrom(ss, at, i, f, d), end, Snaps(end, r)[k]);
      } else {
        assert AllSeen(ss[1..], at, i + 1, t, r, end) && SomeEndAll(ss[1..], at, i + 1, t, end, Snaps(end, r)[k]);
        var d: Course :| EndsAt(GoAllFrom(ss[1..], at, i + 1, t, d), end, Snaps(end, r)[k]);
        var e := RestTaken(ss, at, i, f, t, c, d);
        assert EndsAt(GoAllFrom(ss, at, i, f, e), end, Snaps(end, r)[k]);
      }
    }
  }

  lemma FirstLeaves(ss: seq<Stmt>, at: Place, i: nat, f: Flow, c: Course)
    requires ss != [] && !GoFrom(ss[0], at + [i], f, c).end.Onward?
    ensures GoAllFrom(ss, at, i, f, c) == GoFrom(ss[0], at + [i], f, c)
  {
  }

  lemma AllMeetNext(ss: seq<Stmt>, at: Place, i: nat, f: Flow, t: Flow)
    requires ss != [] && Mirrors(ss[0], at + [i], f, t) && AllMeet(ss[0], at + [i], f.env, InLoop(f))
    requires FallsThrough(ss[0]) ==> AllMeetFrom(ss[1..], at, i + 1, t.env, InLoop(f))
    ensures AllMeetFrom(ss, at, i, f.env, InLoop(f))
  {
    hide Mirrors;
    forall c: Course, d: Course, m, n |
      AllMarked(ss, at, i, f.env, InLoop(f), c, m) && AllMarked(ss, at, i, f.env, InLoop(f), d, n) &&
      m.at == n.at ensures Alike(m, n)
    {
      hide Go, GoAll;
      BlockMarks(ss, at, i, f, t, c, m);
      BlockMarks(ss, at, i, f, t, d, n);
      assert m.at[|at|] == n.at[|at|];
    }
  }

  /** Where a mark of a block is from. */
  lemma BlockMarks(ss: seq<Stmt>, at: Place, i: nat, f: Flow, t: Flow, c: Course, m: Mark)
    requires ss != [] && Mirrors(ss[0], at + [i], f, t) && m in GoAllFrom(ss, at, i, f, c).marks
    ensures || (at + [i] < m.at && Marked(ss[0], at + [i], f.env, InLoop(f), c, m))
            || (FallsThrough(ss[0]) && at < m.at && m.at[|at|] >= i + 1 &&
                AllMarked(ss[1..], at, i + 1, t.env, InLoop(f), c, m))
  {
    WalkMirrored(ss[0], at + [i], f, t, c);
    GoMarks(ss[0], at + [i], f.env, InLoop(f), c);
    GoAllMarks(ss[1..], at, i + 1, t.env, InLoop(f), c);
  }

  // ----- what is fine is accepted -----

  lemma {:induction false} FineIsAccepted(s: Stmt, at: Place, f: Flow)
    requires Ordinary(s) && Clean(f.env) && Fine(s, at, f.env, InLoop(f))
    ensures Check(s, f).Some?
    decreases s, 1
  {
    match s
    case If(_, _, _) => FineIf(s, at, f);
    case Loop(_) => FineLoop(s, at, f);
    case Block(stmts) => FineBlock(s, at, f);
    case Continue(_) => FineContinue(s, at, f);
    case For(_, _, _, _) =>
    case _ => assert !Go(s, at, f.env, InLoop(f), ANY).end.Refused?;
  }

  ghost predicate Shown(s: Stmt, at: Place, inLoop: bool, part: Stmt, below: Place, env: Env, inner: bool, c: Course) {
    exists d: Course :: Shows(s, at, env, inLoop, d, Go(part, below, env, inner, c))
  }

  /** The walk along d goes through that one. */
  predicate Shows(s: Stmt, at: Place, env: Env, inLoop: bool, d: Course, w: Walk) {
    var whole := Go(s, at, env, inLoop, d);
    (w.end.Refused? ==> whole.end.Refused?) && w.marks <= whole.marks
  }

  lemma MarkShown(s: Stmt, at: Place, inLoop: bool, part: Stmt, below: Place, env: Env, inner: bool, c: Course, m: Mark)
    returns (d: Course)
    requires Shown(s, at, inLoop, part, below, env, inner, c) && Marked(part, below, env, inner, c, m)
    ensures Marked(s, at, env, inLoop, d, m)
  {
    hide Go;
    d :| Shows(s, at, env, inLoop, d, Go(part, below, env, inner, c));
  }

  lemma PartPasses(s: Stmt, at: Place, inLoop: bool, part: Stmt, below: Place, env: Env, inner: bool, c: Course)
    requires Shown(s, at, inLoop, part, below, env, inner, c) && AllPass(s, at, env, inLoop)
    ensures !Go(part, below, env, inner, c).end.Refused?
  {
    hide Go;
    var d: Course :| Shows(s, at, env, inLoop, d, Go(part, below, env, inner, c));
    assert !Go(s, at, env, inLoop, d).end.Refused?;
  }

  /** A part of a statement whose walks are seen in those of the whole. */
  lemma PartIsFine(s: Stmt, at: Place, inLoop: bool, part: Stmt, below: Place, env: Env, inner: bool)
    requires Fine(s, at, env, inLoop)
    requires forall c: Course :: Shown(s, at, inLoop, part, below, env, inner, c)
    ensures Fine(part, below, env, inner)
  {
    hide Shown, Go;
    forall c: Course ensures !Go(part, below, env, inner, c).end.Refused? {
      assert Shown(s, at, inLoop, part, below, env, inner, c);
      PartPasses(s, at, inLoop, part, below, env, inner, c);
    }
    hide Marked;
    forall c: Course, d: Course, m, n |
      Marked(part, below, env, inner, c, m) && Marked(part, below, env, inner, d, n) && m.at == n.at ensures Alike(m, n)
    {
      assert Shown(s, at, inLoop, part, below, env, inner, c) && Shown(s, at, inLoop, part, below, env, inner, d);
      var x := MarkShown(s, at, inLoop, part, below, env, inner, c, m);
      var y := MarkShown(s, at, inLoop, part, below, env, inner, d, n);
    }
  }

  lemma {:induction false} FineContinue(s: Stmt, at: Place, f: Flow)
    requires s.Continue? && Ordinary(s) && Clean(f.env) && Fine(s, at, f.env, InLoop(f))
    ensures Check(s, f).Some?
    decreases s, 0
  {
    if s.step.None? {
      assert !Go(s, at, f.env, InLoop(f), ANY).end.Refused?;
    } else {
      var step := s.step.value;
      forall c: Course ensures Shown(s, at, InLoop(f), step, at + [0], f.env, InLoop(f), c) {
        assert Shows(s, at, f.env, InLoop(f), c, Go(step, at + [0], f.env, InLoop(f), c));
      }
      PartIsFine(s, at, InLoop(f), step, at + [0], f.env, InLoop(f));
      FineIsAccepted(step, at + [0], f);
      Accepted(step, at + [0], f);
      var t := Check(step, f).value;
      var c: Course :| EndsAt(GoFrom(step, at + [0], f, c), Onward, t.env);
      assert !Go(s, at, f.env, InLoop(f), c).end.Refused?;
    }
  }

  lemma {:induction false} FineIf(s: Stmt, at: Place, f: Flow)
    requires s.If? && Ordinary(s) && Clean(f.env) && Fine(s, at, f.env, InLoop(f))
    ensures Check(s, f).Some?
    decreases s, 0
  {
    assert !Go(s, at, f.env, InLoop(f), ANY).end.Refused?;
    CondsHeld(s.cond, f.env);
    ArmIsFine(s, at, f, f.frames, true);
    FineIsAccepted(s.thn, at + [0], f);
    SecondArm(s, f);
    var t := Check(s.thn, f).value;
    var g := Flow(f.env, t.frames);
    Accepted(s.thn, at + [0], f);
    if s.els.Some? {
      ArmIsFine(s, at, f, t.frames, false);
      FineIsAccepted(s.els.value, at + [1], g);
      Accepted(s.els.value, at + [1], g);
      CheckRecords(s.els.value, g);
      CheckClean(s.els.value, g);
    }
    var e := if s.els.Some? then Check(s.els.value, g).value else g;
    if FallsThrough(s.thn) && (s.els.None? || FallsThrough(s.els.value)) { JoinIsFine(s, at, f, t, e); }
  }

  lemma ArmIsFine(s: Stmt, at: Place, f: Flow, frames: seq<Frame>, way: bool)
    requires s.If? && CondHeld(s.cond, f.env) && Fine(s, at, f.env, InLoop(f)) && (way || s.els.Some?)
    requires |frames| == |f.frames|
    ensures if way then Fine(s.thn, at + [0], f.env, InLoop(f)) else Fine(s.els.value, at + [1], f.env, InLoop(f))
  {
    var (arm, below) := if way then (s.thn, at + [0]) else (s.els.value, at + [1]);
    forall c: Course ensures Shown(s, at, InLoop(f), arm, below, f.env, InLoop(f), c) {
      var d := ArmTaken(s, at, f, frames, c, way);
      assert Shows(s, at, f.env, InLoop(f), d, Go(arm, below, f.env, InLoop(f), c)) by { hide Go; }
    }
    PartIsFine(s, at, InLoop(f), arm, below, f.env, InLoop(f));
  }

  /** Paths from both arms meet, and so the checker finds that they agree. */
  lemma JoinIsFine(s: Stmt, at: Place, f: Flow, t: Flow, e: Flow)
    requires s.If? && CondHeld(s.cond, f.env) && AllMeet(s, at, f.env, InLoop(f)) && |t.frames| == |f.frames|
    requires FallsThrough(s.thn) && SomeEnds(s.thn, at + [0], f, Onward, t.env)
    requires if s.els.None? then e.env == f.env
             else FallsThrough(s.els.value) && SomeEnds(s.els.value, at + [1], Flow(f.env, t.frames), Onward, e.env)
    ensures Agree(f.env.names, t.env, e.env)
  {
    var c: Course :| EndsAt(GoFrom(s.thn, at + [0], f, c), Onward, t.env);
    var x := ArmTaken(s, at, f, t.frames, c, true);
    var y := ANY;
    if s.els.Some? {
      var d: Course :| EndsAt(GoFrom(s.els.value, at + [1], Flow(f.env, t.frames), d), Onward, e.env);
      y := ArmTaken(s, at, f, t.frames, d, false);
    }
    var m, n := Mark(at + [2], f.env.names, t.env.moved), Mark(at + [2], f.env.names, e.env.moved);
    assert Marked(s, at, f.env, InLoop(f), x, m) && Marked(s, at, f.env, InLoop(f), y, n);
    assert Alike(m, n);
  }

  lemma {:induction false} FineLoop(s: Stmt, at: Place, f: Flow)
    requires s.Loop? && Ordinary(s) && Clean(f.env) && Fine(s, at, f.env, InLoop(f))
    ensures Check(s, f).Some?
    decreases s, 0
  {
    forall c: Course ensures Shown(s, at, InLoop(f), s.body, at + [0], f.env, true, c) {
      var d := BodyTaken(s, at, f, c);
      assert Shows(s, at, f.env, InLoop(f), d, Go(s.body, at + [0], f.env, true, c)) by { hide Go; }
    }
    PartIsFine(s, at, InLoop(f), s.body, at + [0], f.env, true);
    EnteringIsEmpty(f);
    FineIsAccepted(s.body, at + [0], Entering(f));
    Accepted(s.body, at + [0], Entering(f));
    LoopEndIs(s.body, f);
    LoopEndIsFine(s, at, f, Check(s.body, Entering(f)).value);
  }

  lemma BodyTaken(s: Stmt, at: Place, f: Flow, c: Course) returns (d: Course)
    requires s.Loop?
    ensures Go(s, at, f.env, InLoop(f), d) == Looped(at, f.env, Go(s.body, at + [0], f.env, true, c))
  {
    d := Turn(c, at, false);
    TurnSame(c, at, false, 0);
    GoLocal(s.body, at + [0], f.env, true, d, c);
  }

  lemma LoopEndIsFine(s: Stmt, at: Place, f: Flow, b: Flow)
    requires s.Loop? && Fine(s, at, f.env, InLoop(f)) && Mirrors(s.body, at + [0], Entering(f), b)
    ensures LoopAgrees(s.body, f, b)
  {
    hide Mirrors, Go;
    var backs := BackEdges(s.body, b);
    forall i, j | 0 <= i < |backs| && 0 <= j < |backs| ensures Agree(f.env.names, backs[i], backs[j]) {
      var x := BackEdgeSeen(s, at, f, b, i);
      var y := BackEdgeSeen(s, at, f, b, j);
      assert Alike(Mark(at + [1], f.env.names, backs[i].moved), Mark(at + [1], f.env.names, backs[j].moved));
    }
    forall i, j | 0 <= i < |Breaks(b)| && 0 <= j < |Breaks(b)| ensures Agree(f.env.names, Breaks(b)[i], Breaks(b)[j]) {
      var x := BreakSeen(s, at, f, b, i);
      var y := BreakSeen(s, at, f, b, j);
      assert Alike(Mark(at + [2], f.env.names, Breaks(b)[i].moved), Mark(at + [2], f.env.names, Breaks(b)[j].moved));
    }
    if backs != [] { var x := BackEdgeSeen(s, at, f, b, 0); }
  }

  /** A walk that leads back to the head with this state. */
  lemma BackEdgeSeen(s: Stmt, at: Place, f: Flow, b: Flow, i: nat) returns (x: Course)
    requires s.Loop? && AllPass(s, at, f.env, InLoop(f)) && Mirrors(s.body, at + [0], Entering(f), b)
    requires i < |BackEdges(s.body, b)|
    ensures var back := BackEdges(s.body, b)[i];
            && Marked(s, at, f.env, InLoop(f), x, Mark(at + [1], f.env.names, back.moved))
            && f.env.names * back.moved <= f.env.moved
  {
    EnteringIsEmpty(f);
    var back := BackEdges(s.body, b)[i];
    var c: Course := ANY;
    if FallsThrough(s.body) && i == 0 {
      c :| EndsAt(GoFrom(s.body, at + [0], Entering(f), c), Onward, back);
    } else {
      var k := if FallsThrough(s.body) then i - 1 else i;
      assert back == Snaps(AtBack, b)[k];
      assert Seen(s.body, at + [0], Entering(f), b, AtBack);
      assert SomeEnds(s.body, at + [0], Entering(f), AtBack, Snaps(AtBack, b)[k]);
      c :| EndsAt(GoFrom(s.body, at + [0], Entering(f), c), AtBack, back);
    }
    x := BodyTaken(s, at, f, c);
    assert !Go(s, at, f.env, InLoop(f), x).end.Refused?;
  }

  lemma BreakSeen(s: Stmt, at: Place, f: Flow, b: Flow, i: nat) returns (x: Course)
    requires s.Loop? && Mirrors(s.body, at + [0], Entering(f), b) && i < |Breaks(b)|
    ensures Marked(s, at, f.env, InLoop(f), x, Mark(at + [2], f.env.names, Breaks(b)[i].moved))
  {
    EnteringIsEmpty(f);
    assert Seen(s.body, at + [0], Entering(f), b, AtBreak);
    assert SomeEnds(s.body, at + [0], Entering(f), AtBreak, Snaps(AtBreak, b)[i]);
    var c: Course :| EndsAt(GoFrom(s.body, at + [0], Entering(f), c), AtBreak, Breaks(b)[i]);
    x := BodyTaken(s, at, f, c);
  }

  ghost predicate AllFine(ss: seq<Stmt>, at: Place, i: nat, env: Env, inLoop: bool) {
    (forall c: Course :: !GoAll(ss, at, i, env, inLoop, c).end.Refused?) && AllMeetFrom(ss, at, i, env, inLoop)
  }

  lemma {:induction false} FineBlock(s: Stmt, at: Place, f: Flow)
    requires s.Block? && Ordinary(s) && Clean(f.env) && Fine(s, at, f.env, InLoop(f))
    ensures Check(s, f).Some?
    decreases s, 0
  {
    StatementsAreFine(s, at, f);
    AllFineAccepted(s.stmts, at, 0, f);
    AllAccepted(s.stmts, at, 0, f);
    CheckAllRecords(s.stmts, f);
    if FallsThrough(s) {
      var b := CheckAll(s.stmts, f).value;
      var c: Course :| EndsAt(GoAllFrom(s.stmts, at, 0, f, c), Onward, b.env);
      assert !Go(s, at, f.env, InLoop(f), c).end.Refused?;
    }
  }

  lemma StatementsAreFine(s: Stmt, at: Place, f: Flow)
    requires s.Block? && Fine(s, at, f.env, InLoop(f))
    ensures AllFine(s.stmts, at, 0, f.env, InLoop(f))
  {
    forall c: Course ensures !GoAll(s.stmts, at, 0, f.env, InLoop(f), c).end.Refused? {
      assert !Go(s, at, f.env, InLoop(f), c).end.Refused?;
    }
    forall c: Course, d: Course, m, n |
      AllMarked(s.stmts, at, 0, f.env, InLoop(f), c, m) && AllMarked(s.stmts, at, 0, f.env, InLoop(f), d, n) &&
      m.at == n.at ensures Alike(m, n)
    {
      assert Marked(s, at, f.env, InLoop(f), c, m) && Marked(s, at, f.env, InLoop(f), d, n);
    }
  }

  lemma {:induction false} AllFineAccepted(ss: seq<Stmt>, at: Place, i: nat, f: Flow)
    requires (forall j :: 0 <= j < |ss| ==> Ordinary(ss[j])) && Clean(f.env) && AllFine(ss, at, i, f.env, InLoop(f))
    ensures CheckAll(ss, f).Some?
    decreases ss, 0
  {
    if ss != [] {
      FirstIsFine(ss, at, i, f);
      FineIsAccepted(ss[0], at + [i], f);
      Accepted(ss[0], at + [i], f);
      var t := Check(ss[0], f).value;
      CheckClean(ss[0], f);
      if FallsThrough(ss[0]) {
        RestIsFine(ss, at, i, f, t, ss[1..], i + 1);
        AllFineAccepted(ss[1..], at, i + 1, t);
      }
    }
  }

  lemma FirstIsFine(ss: seq<Stmt>, at: Place, i: nat, f: Flow)
    requires ss != [] && AllFine(ss, at, i, f.env, InLoop(f))
    ensures Fine(ss[0], at + [i], f.env, InLoop(f))
  {
    forall c: Course ensures !Go(ss[0], at + [i], f.env, InLoop(f), c).end.Refused? {
      assert !GoAll(ss, at, i, f.env, InLoop(f), c).end.Refused?;
    }
    forall c: Course, d: Course, m, n |
      Marked(ss[0], at + [i], f.env, InLoop(f), c, m) && Marked(ss[0], at + [i], f.env, InLoop(f), d, n) && m.at == n.at
      ensures Alike(m, n)
    {
      assert AllMarked(ss, at, i, f.env, InLoop(f), c, m) && AllMarked(ss, at, i, f.env, InLoop(f), d, n);
    }
  }

  lemma RestIsFine(ss: seq<Stmt>, at: Place, i: nat, f: Flow, t: Flow, rest: seq<Stmt>, next: nat)
    requires ss != [] && AllFine(ss, at, i, f.env, InLoop(f)) && |t.frames| == |f.frames|
    requires SomeEnds(ss[0], at + [i], f, Onward, t.env) && rest == ss[1..] && next == i + 1
    ensures AllFine(rest, at, next, t.env, InLoop(t))
  {
    hide Go, GoAll;
    var first: Course :| EndsAt(GoFrom(ss[0], at + [i], f, first), Onward, t.env);
    forall c: Course ensures !GoAll(rest, at, next, t.env, InLoop(t), c).end.Refused? {
      var e := RestTaken(ss, at, i, f, t, first, c);
      assert !GoAll(ss, at, i, f.env, InLoop(f), e).end.Refused?;
    }
    forall c: Course, d: Course, m, n |
      AllMarked(rest, at, next, t.env, InLoop(t), c, m) && AllMarked(rest, at, next, t.env, InLoop(t), d, n) &&
      m.at == n.at ensures Alike(m, n)
    {
      var x := RestTaken(ss, at, i, f, t, first, c);
      var y := RestTaken(ss, at, i, f, t, first, d);
      assert AllMarked(ss, at, i, f.env, InLoop(f), x, m) && AllMarked(ss, at, i, f.env, InLoop(f), y, n);
    }
  }

  // ----- functions -----

  /** The parameters, as they are in at the beginning. */
  function Entry(params: set<Name>): Env { Env(params, {}) }

  /** Where the end of the text is reached, or passed over, the parameters are moved. */
  ghost predicate EndsWell(params: set<Name>, body: Stmt) {
    forall c: Course ::
      var w := Go(body, [], Entry(params), false, c);
      w.end.Onward? || w.end.Past? ==> params <= w.env.moved
  }

  /** The main result: a function is accepted exactly if no path through its body is
      refused, what meets agrees, and at the end the parameters are moved. */
  lemma AcceptedExactly(params: set<Name>, body: Stmt)
    requires Ordinary(body)
    ensures CheckFunction(params, body) <==> Fine(body, [], Entry(params), false) && EndsWell(params, body)
  {
    var f := Flow(Entry(params), []);
    if Fine(body, [], Entry(params), false) { FineIsAccepted(body, [], f); }
    if Check(body, f).Some? {
      var r := Check(body, f).value;
      Accepted(body, [], f);
      CheckRecords(body, f);
      forall c: Course ensures
        var w := Go(body, [], Entry(params), false, c);
        !w.end.Refused? && (w.end.Onward? || w.end.Past? ==> w.env == r.env)
      {
        WalkMirrored(body, [], f, r, c);
      }
      if !FallsThrough(body) && !(r.env.names <= r.env.moved) {
        var c: Course :| EndsAt(GoFrom(body, [], f, c), Past, r.env);
      }
      if FallsThrough(body) {
        var c: Course :| EndsAt(GoFrom(body, [], f, c), Onward, r.env);
      }
    }
  }

  // ----- sources -----

  /** The same of a source body, whose `for` loops have yet to be lowered. */
  predicate OrdinarySource(s: Stmt) {
    match s
    case If(_, thn, els) =>
      && OrdinarySource(thn) && Binds(thn, {}) == {}
      && (els.Some? ==> OrdinarySource(els.value) && Binds(els.value, {}) == {})
    case Loop(body) => OrdinarySource(body) && Binds(body, {}) == {}
    case Block(stmts) => forall i :: 0 <= i < |stmts| ==> OrdinarySource(stmts[i])
    case For(start, _, iter, body) =>
      && (start.Some? ==> OrdinarySource(start.value)) && OrdinarySource(body)
      && (iter.Some? ==> OrdinarySource(iter.value) && Binds(iter.value, {}) == {} && FallsThrough(iter.value))
    case _ => true
  }

  predicate IsStep(step: Stmt) { Ordinary(step) && Binds(step, {}) == {} && FallsThrough(step) }

  lemma {:induction false} RewrittenIsOrdinary(a: Stmt, step: Stmt)
    requires Ordinary(a) && OwnContinuesPlain(a) && IsStep(step)
    ensures Ordinary(RewriteContinuesForStep(a, Some(step)))
    decreases a, 1
  {
    match a
    case If(_, thn, els) =>
      RewrittenIsOrdinary(thn, step);
      RewriteBinds(thn, step);
      if els.Some? {
        RewrittenIsOrdinary(els.value, step);
        RewriteBinds(els.value, step);
      }
    case Block(stmts) => AllRewrittenOrdinary(stmts, step);
    case _ =>
  }

  lemma {:induction false} AllRewrittenOrdinary(ss: seq<Stmt>, step: Stmt)
    requires (forall i :: 0 <= i < |ss| ==> Ordinary(ss[i]) && OwnContinuesPlain(ss[i])) && IsStep(step)
    ensures forall i :: 0 <= i < |RewriteAll(ss, Some(step))| ==> Ordinary(RewriteAll(ss, Some(step))[i])
    decreases ss, 0
  {
    if ss != [] {
      RewrittenIsOrdinary(ss[0], step);
      AllRewrittenOrdinary(ss[1..], step);
    }
  }

  lemma {:induction false} LoweredIsOrdinary(s: Stmt)
    requires OrdinarySource(s) && PlainContinues(s)
    ensures Ordinary(Lower(s))
  {
    match s
    case If(_, thn, els) =>
      LoweredIsOrdinary(thn);
      LowerBinds(thn, {});
      if els.Some? {
        LoweredIsOrdinary(els.value);
        LowerBinds(els.value, {});
      }
    case Loop(body) =>
      LoweredIsOrdinary(body);
      LowerBinds(body, {});
    case Block(stmts) =>
      if stmts != [] { LowerAllAt(stmts, 0); }
      forall i | 0 <= i < |LowerAll(stmts)| ensures Ordinary(LowerAll(stmts)[i]) {
        LowerAllAt(stmts, i);
        LoweredIsOrdinary(stmts[i]);
      }
    case For(start, guard, iter, body) =>
      if start.Some? { LoweredIsOrdinary(start.value); }
      LoweredIsOrdinary(body);
      LowerIsPlain(body);
      if iter.Some? {
        LoweredIsOrdinary(iter.value);
        LowerBinds(iter.value, {});
        LowerFalls(iter.value);
        RewrittenIsOrdinary(Lower(body), Lower(iter.value));
      }
      ForIsOrdinary(if start.Some? then Some(Lower(start.value)) else None, guard,
                    if iter.Some? then Some(Lower(iter.value)) else None, Lower(body));
    case _ =>
  }

  lemma ForIsOrdinary(start: Option<Stmt>, guard: Option<Cond>, iter: Option<Stmt>, body: Stmt)
    requires (start.Some? ==> Ordinary(start.value)) && (iter.Some? ==> IsStep(iter.value))
    requires Ordinary(RewriteContinuesForStep(body, iter))
    ensures Ordinary(LowerForToLoop(start, guard, iter, body))
  {
    var stmts := [RewriteContinuesForStep(body, iter)] + (if iter.Some? then [iter.value] else []);
    assert Ordinary(Block(stmts)) && Binds(Block(stmts), {}) == {};
    assert Ordinary(Block([Break])) && Binds(Block([Break]), {}) == {};
    assert Ordinary(LoopBody(guard, iter, body)) && Binds(LoopBody(guard, iter, body), {}) == {};
  }

  /** So it is of the source: it is accepted exactly if the paths through its lowered
      form are as they should be. */
  lemma SourceAcceptedExactly(params: set<Name>, body: Stmt)
    requires OrdinarySource(body) && PlainContinues(body)
    ensures CheckFunction(params, Lower(body)) <==>
              Fine(Lower(body), [], Entry(params), false) && EndsWell(params, Lower(body))
  {
    LoweredIsOrdinary(body);
    AcceptedExactly(params, Lower(body));
  }
}
