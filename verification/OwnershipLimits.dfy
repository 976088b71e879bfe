/** Where the promise of the ownership checker ends: for each way in which a name
    can be in scope without having been given anything, a function that is accepted
    and uses a binding that holds nothing; and functions that do not look safe and are. */
module OwnershipLimits {
  import opened Wrappers
  import opened Boson
  import opened Ownership
  import opened OwnershipGiven
  import opened OwnershipSoundness
  import opened OwnershipExact
  import opened OwnershipLeaks

  const NEW_Y: Stmt := Declare("y", Some(Fresh))
  const TAKE_Y: Stmt := Consume("y")
  const COIN: Cond := Reads([])

  /** A function of no parameters that is accepted, with a run that uses y while it
      holds nothing. */
  ghost predicate FailsOn(body: Stmt, w: World, fuel: nat) {
    CheckFunction({}, body) && Exec(body, {}, w, fuel).out == NotHeld("y")
  }

  /** Nothing is held, and the next condition is answered like this. */
  predicate Says(w: World, answer: bool) { w.live == {} && w.coins(w.tossed) == answer }

  lemma Toss(w: World)
    ensures var (r, b) := Test(COIN, w);
            r.out.Normal? && b == w.coins(w.tossed) && r.w.live == w.live
  {
  }

  lemma CheckTwo(a: Stmt, b: Stmt, f: Flow)
    requires Check(a, f).Some? && FallsThrough(a)
    ensures CheckAll([a, b], f) == Check(b, Check(a, f).value)
  {
    assert [a, b][1..] == [b] && [b][1..] == [];
    var r := Check(b, Check(a, f).value);
    assert CheckAll([b], Check(a, f).value) == r;
  }

  lemma RunTwo(a: Stmt, b: Stmt, w: World, fuel: nat)
    ensures ExecAll([a, b], {}, w, fuel) ==
              var r := Exec(a, {}, w, fuel);
              if r.out.Normal? then Exec(b, {}, r.w, fuel) else r
  {
    assert [a, b][1..] == [b] && [b][1..] == [];
    var r := Exec(a, {}, w, fuel);
    if r.out.Normal? { assert ExecAll([b], {}, r.w, fuel) == Exec(b, {}, r.w, fuel); }
  }

  const START: Flow := Flow(Env({}, {}), [])

  /** y is in scope and counts as live after the first statement: the second one is
      then accepted. */
  lemma TakeAccepted(a: Stmt)
    requires Check(a, START).Some? && FallsThrough(a) && Check(a, START).value == Flow(Env({"y"}, {}), [])
    ensures CheckFunction({}, Block([a, TAKE_Y]))
  {
    CheckTwo(a, TAKE_Y, START);
    assert CheckAll([a, TAKE_Y], START).value.env == Env({"y"}, {"y"});
  }

  lemma TakeFails(a: Stmt, w: World, fuel: nat)
    requires var r := Exec(a, {}, w, fuel); r.out.Normal? && "y" !in r.w.live
    ensures Exec(Block([a, TAKE_Y]), {}, w, fuel).out == NotHeld("y")
  {
    RunTwo(a, TAKE_Y, w, fuel);
  }

  /** Inside a loop that has recorded nothing yet. */
  function Looping(env: Env): Flow { Flow(env, [Frame([], [])]) }

  lemma Recorded(env: Env)
    ensures RecordBreak(Looping(env)) == Flow(env, [Frame([env], [])])
    ensures RecordContinue(Looping(env)) == Flow(env, [Frame([], [env])])
  {
    assert [] + [env] == [env];
    assert [Frame([], [])][0 := Frame([env], [])] == [Frame([env], [])];
    assert [Frame([], [])][0 := Frame([], [env])] == [Frame([], [env])];
  }

  /** A block that declared y and took it. */
  lemma TakenInBlock(ss: seq<Stmt>, f: Flow, frames: seq<Frame>)
    requires f.env == Env({}, {}) && CheckAll(ss, f) == Some(Flow(Env({"y"}, {"y"}), frames))
    ensures Check(Block(ss), f) == Some(Flow(Env({}, {}), frames))
  {
    assert forall x <- {"y"} - {} :: x in {"y"};
    assert {"y"} * {} == {};
  }

  /** A loop alone in the block of a function. */
  lemma LoopAccepted(body: Stmt, b: Flow)
    requires Check(body, Looping(Env({}, {}))) == Some(b) && |b.frames| == 1 && b.env.names == {}
    ensures CheckFunction({}, Block([Loop(body)]))
  {
    var loop := Loop(body);
    assert START.frames + [Frame([], [])] == [Frame([], [])];
    assert Check(loop, START) == CheckLoopEnd(body, START, b);
    assert [loop][1..] == [];
    assert CheckAll([loop], START) == CheckAll([], Check(loop, START).value) == Check(loop, START);
  }

  /** `{ if (c) var y = new() else take(y)  take(y) }`: the join compares only the
      bindings that existed before the `if`. */
  const BARE_DECLARATION: Stmt := Block([If(COIN, NEW_Y, Some(TAKE_Y)), TAKE_Y])

  lemma BareDeclarationIsUnsound(w: World)
    requires Says(w, false)
    ensures FailsOn(BARE_DECLARATION, w, 0)
  {
    var s := If(COIN, NEW_Y, Some(TAKE_Y));
    var t := Check(NEW_Y, START).value;
    assert t.env == Env({"y"}, {});
    var g := t.(env := Restore(t.env, START.env));
    assert g.env == Env({"y"}, {});
    assert Check(s, START).value.env == Env({"y"}, {});
    TakeAccepted(s);
    RunTwo(s, TAKE_Y, w, 0);
  }

  /** `{ if (c) {} else var y = new()  take(y) }` */
  const ELSE_DECLARES: Stmt := Block([If(COIN, Block([]), Some(NEW_Y)), TAKE_Y])

  lemma ElseDeclarationIsUnsound(w: World)
    requires Says(w, true)
    ensures FailsOn(ELSE_DECLARES, w, 0)
  {
    var s := If(COIN, Block([]), Some(NEW_Y));
    assert Check(Block([]), START).value.env == Env({}, {});
    assert Restore(Env({}, {}), Env({}, {})) == Env({}, {});
    assert Check(NEW_Y, START).value.env == Env({"y"}, {});
    assert Check(s, START).value.env == Env({"y"}, {});
    TakeAccepted(s);
    Toss(w);
    TakeFails(s, w, 0);
  }

  /** `{ if (c) var y = new() else { take(y) return }  take(y) }` */
  const ELSE_SPEAKS: Stmt := Block([If(COIN, NEW_Y, Some(Block([TAKE_Y, Return(None)]))), TAKE_Y])

  lemma ElseThatSpeaksIsUnsound(w: World)
    requires Says(w, false)
    ensures FailsOn(ELSE_SPEAKS, w, 0)
  {
    var els := Block([TAKE_Y, Return(None)]);
    var s := If(COIN, NEW_Y, Some(els));
    var t := Check(NEW_Y, START).value;
    var g := t.(env := Restore(t.env, START.env));
    assert g == Flow(Env({"y"}, {}), []) == t;
    CheckTwo(TAKE_Y, Return(None), g);
    assert !FallsThrough(els) by { assert els.stmts[1] == Return(None); }
    assert Check(els, g).value.env == Env({"y"}, {"y"});
    assert Check(s, START).value.env == Env({"y"}, {});
    TakeAccepted(s);
    Toss(w);
    RunTwo(TAKE_Y, Return(None), Test(COIN, w).0.w, 0);
    assert Exec(s, {}, w, 0).out == NotHeld("y");
    RunTwo(s, TAKE_Y, w, 0);
  }

  /** `{ loop if (c) var y = new() else break  take(y) }` */
  const LOOP_DECLARES: Stmt := Block([Loop(If(COIN, NEW_Y, Some(Break))), TAKE_Y])

  lemma LoopDeclarationIsUnsound(w: World)
    requires Says(w, false)
    ensures FailsOn(LOOP_DECLARES, w, 1)
  {
    var body, y := If(COIN, NEW_Y, Some(Break)), Env({"y"}, {});
    BreakAccepted();
    var b := Flow(y, [Frame([y], [])]);
    assert START.frames + [Frame([], [])] == [Frame([], [])];
    assert b.frames[..0] == [];
    assert Restore(y, y) == y;
    assert CheckLoopEnd(body, START, b) == Some(Flow(y, []));
    TakeAccepted(Loop(body));
    Toss(w);
    assert Exec(body, {}, w, 0).out.Broke?;
    TakeFails(Loop(body), w, 1);
  }

  lemma BreakAccepted()
    ensures Check(If(COIN, NEW_Y, Some(Break)), Looping(Env({}, {}))) == Some(Flow(Env({"y"}, {}), [Frame([Env({"y"}, {})], [])]))
  {
    var f, y := Looping(Env({}, {})), Env({"y"}, {});
    assert Check(NEW_Y, f).value == Looping(y);
    assert Restore(y, f.env) == y && Restore(y, y) == y;
    Recorded(y);
    assert Check(Break, Looping(y)).value == Flow(y, [Frame([y], [])]);
  }

  /** `{ loop { if (c) continue, declaring y by its step  take(y) } }` */
  const STEP_DECLARES: Stmt := Block([Loop(Block([If(COIN, Continue(Some(NEW_Y)), None), TAKE_Y]))])

  lemma StepDeclarationIsUnsound(w: World)
    requires Says(w, false)
    ensures FailsOn(STEP_DECLARES, w, 1)
  {
    var s := If(COIN, Continue(Some(NEW_Y)), None);
    var body := Block([s, TAKE_Y]);
    StepAccepted();
    LoopAccepted(body, Check(body, Looping(Env({}, {}))).value);
    Toss(w);
    assert Exec(s, {}, w, 0) == Test(COIN, w).0;
    RunTwo(s, TAKE_Y, w, 0);
    assert Exec(body, {}, w, 0).out == NotHeld("y");
    assert Exec(Loop(body), {}, w, 1).out == NotHeld("y");
  }

  lemma StepAccepted()
    ensures Check(Block([If(COIN, Continue(Some(NEW_Y)), None), TAKE_Y]), Looping(Env({}, {}))) ==
            Some(Flow(Env({}, {}), [Frame([], [Env({"y"}, {})])]))
  {
    var f, y := Looping(Env({}, {})), Env({"y"}, {});
    var s := If(COIN, Continue(Some(NEW_Y)), None);
    assert Check(NEW_Y, f).value == Looping(y);
    Recorded(y);
    var g := Flow(y, [Frame([], [y])]);
    assert Check(Continue(Some(NEW_Y)), f).value == g;
    assert Restore(y, f.env) == y;
    assert Check(s, f).value == g;
    CheckTwo(s, TAKE_Y, f);
    assert CheckAll([s, TAKE_Y], f) == Some(g.(env := Env({"y"}, {"y"})));
    TakenInBlock([s, TAKE_Y], f, g.frames);
  }

  /** `{ var y = y }`: y is in scope of its own initialiser. */
  const SELF_INITIALISER: Stmt := Block([Declare("y", Some(From("y")))])

  lemma SelfInitialiserIsUnsound(w: World)
    ensures FailsOn(SELF_INITIALISER, w, 0)
  {
    var d := Declare("y", Some(From("y")));
    assert [d][1..] == [];
    assert Check(d, START).value.env == Env({"y"}, {"y"});
    assert CheckAll([d], START) == CheckAll([], Check(d, START).value) == Check(d, START);
  }

  /** `{ loop if (c) var y else if (d) { y = new() break } else { y = new() take(y) break }
      take(y) }`: the ways out of the loop are not compared on what its body binds. */
  const KEEPING: Stmt := Block([Assign("y", Fresh), Break])
  const TAKING: Stmt := Block([Assign("y", Fresh), TAKE_Y, Break])
  const EXITS: Stmt := If(COIN, Declare("y", None), Some(If(COIN, KEEPING, Some(TAKING))))
  const EXITS_DISAGREE: Stmt := Block([Loop(EXITS), TAKE_Y])

  lemma LoopExitsAreUnsound(w: World)
    requires w.live == {} && !w.coins(w.tossed) && !w.coins(w.tossed + 1)
    ensures FailsOn(EXITS_DISAGREE, w, 1)
  {
    ExitsAccepted();
    TakeAccepted(Loop(EXITS));
    var c := Test(COIN, w).0.w;
    var d := Test(COIN, c).0.w;
    ThreeRun(d);
    assert Exec(EXITS, {}, w, 0) == Exec(TAKING, {}, d, 0);
    TakeFails(Loop(EXITS), w, 1);
  }

  lemma ThreeRun(w: World)
    requires w.live == {}
    ensures var r := Exec(TAKING, {}, w, 0); r.out.Broke? && r.w.live == {}
  {
    var a, b := Assign("y", Fresh), TAKE_Y;
    assert [a, b, Break][1..] == [b, Break];
    RunTwo(b, Break, Exec(a, {}, w, 0).w, 0);
  }

  lemma BreakRecorded(env: Env, frame: Frame)
    ensures Check(Break, Flow(env, [frame])) == Some(Flow(env, [Frame(frame.breaks + [env], frame.conts)]))
  {
    assert [frame][0 := Frame(frame.breaks + [env], frame.conts)] == [Frame(frame.breaks + [env], frame.conts)];
  }

  lemma KeepingAccepted(frame: Frame)
    ensures Check(KEEPING, Flow(Env({"y"}, {"y"}), [frame])) ==
            Some(Flow(Env({"y"}, {}), [Frame(frame.breaks + [Env({"y"}, {})], frame.conts)]))
  {
    var f := Flow(Env({"y"}, {"y"}), [frame]);
    var live := Env({"y"}, {});
    assert f.env.Bind("y") == live;
    CheckTwo(Assign("y", Fresh), Break, f);
    assert !FallsThrough(KEEPING) by { assert KEEPING.stmts[1] == Break; }
    BreakRecorded(live, frame);
    assert CheckAll(KEEPING.stmts, f).value.env == live;
    assert live.moved * f.env.names == {};
  }

  lemma TakingAccepted(frame: Frame)
    ensures Check(TAKING, Flow(Env({"y"}, {"y"}), [frame])) ==
            Some(Flow(Env({"y"}, {"y"}), [Frame(frame.breaks + [Env({"y"}, {"y"})], frame.conts)]))
  {
    var f := Flow(Env({"y"}, {"y"}), [frame]);
    var g := f.(env := Env({"y"}, {}));
    var a := Assign("y", Fresh);
    assert f.env.Bind("y") == g.env && Check(a, f) == Some(g);
    assert [a, TAKE_Y, Break][1..] == [TAKE_Y, Break];
    assert g.env.Mark("y") == f.env && Check(TAKE_Y, g) == Some(f);
    CheckTwo(TAKE_Y, Break, g);
    BreakRecorded(f.env, frame);
    assert CheckAll([a, TAKE_Y, Break], f) == CheckAll([TAKE_Y, Break], g);
    assert !FallsThrough(TAKING) by { assert TAKING.stmts[2] == Break; }
    assert {"y"} * f.env.names == {"y"};
  }

  lemma BothLeave()
    ensures !FallsThrough(KEEPING) && !FallsThrough(TAKING)
  {
    assert KEEPING.stmts[1] == Break && TAKING.stmts[2] == Break;
  }

  /** Both inner arms leave the loop: y is live by the one way out, moved by the other. */
  lemma WaysOutAccepted()
    ensures var moved, live := Env({"y"}, {"y"}), Env({"y"}, {});
            Check(If(COIN, KEEPING, Some(TAKING)), Flow(moved, [Frame([], [])])) ==
            Some(Flow(moved, [Frame([live, moved], [])]))
  {
    hide Restore, FallsThrough;
    var moved, live := Env({"y"}, {"y"}), Env({"y"}, {});
    KeepingAccepted(Frame([], []));
    TakingAccepted(Frame([live], []));
    assert [] + [live] == [live] && [live] + [moved] == [live, moved];
    BothLeave();
    RestoreY();
  }

  lemma ExitsBody()
    ensures var moved, live := Env({"y"}, {"y"}), Env({"y"}, {});
            Check(EXITS, Looping(Env({}, {}))) == Some(Flow(moved, [Frame([live, moved], [])]))
    ensures FallsThrough(EXITS)
  {
    hide Restore, FallsThrough;
    DeclaredMoved(Looping(Env({}, {})));
    WaysOutAccepted();
    RestoreY();
    BothLeave();
    BothFall();
  }

  lemma BothFall()
    ensures FallsThrough(EXITS) && FallsThrough(Declare("y", None)) && !FallsThrough(If(COIN, KEEPING, Some(TAKING)))
  {
    BothLeave();
  }

  lemma ExitsAccepted()
    ensures Check(Loop(EXITS), START) == Some(Flow(Env({"y"}, {}), []))
  {
    var moved, live := Env({"y"}, {"y"}), Env({"y"}, {});
    ExitsBody();
    hide Restore, FallsThrough;
    RestoreY();
    var two := Flow(moved, [Frame([live, moved], [])]);
    assert START.frames + [Frame([], [])] == [Frame([], [])];
    assert two.frames[..0] == [];
    assert CheckLoopEnd(EXITS, START, two) == Some(Flow(live, []));
  }

  lemma RestoreY()
    ensures var moved, live := Env({"y"}, {"y"}), Env({"y"}, {});
            && Restore(moved, moved) == moved && Restore(moved, live) == live && Restore(live, moved) == moved
            && Restore(live, live) == live && Restore(moved, Env({}, {})) == moved && Restore(live, Env({}, {})) == live
  {
  }

  lemma DeclaredMoved(f: Flow)
    requires f.env == Env({}, {})
    ensures Check(Declare("y", None), f) == Some(f.(env := Env({"y"}, {"y"})))
  {
    assert f.env.Bind("y").Mark("y") == Env({"y"}, {"y"});
  }

  /** `{ if (c) var y else y = new() }`: where the join goes by the flag of the first
      arm, the resource of the second is forgotten. */
  const FORGETTING: Stmt := Block([If(COIN, Declare("y", None), Some(Assign("y", Fresh)))])

  lemma JoinForgets(w: World)
    requires w.live == {} && w.trace == [] && !w.coins(w.tossed)
    ensures CheckFunction({}, FORGETTING)
    ensures var e := Exec(FORGETTING, {}, w, 0); e.out.Normal? && Holding(e.w.trace, "y") == Some(true)
    ensures Given(FORGETTING, {}, {}) && !Keeps(FORGETTING, {}, {})
  {
    var s := If(COIN, Declare("y", None), Some(Assign("y", Fresh)));
    ForgettingAccepted();
    ForgettingForgets();
    assert [s][1..] == [];
    assert ExecAll([s], {}, w, 0) == Exec(s, {}, w, 0);
    HoldingSnoc([], Tested(false), "y");
    HoldingSnoc([Tested(false)], Gave("y"), "y");
    assert [Tested(false)] + [Gave("y")] == [Tested(false), Gave("y")] && [] + [Tested(false)] == [Tested(false)];
  }

  lemma ForgettingForgets()
    ensures Given(FORGETTING, {}, {}) && !Keeps(FORGETTING, {}, {})
  {
    var s := If(COIN, Declare("y", None), Some(Assign("y", Fresh)));
    assert [s][1..] == [];
    var none: set<Name> := {};
    assert none + {"y"} == {"y"};
    AfterEffects({"y"});
    assert "y" in After(Assign("y", Fresh), {}, {"y"}).normal.value * Binds(Declare("y", None), {});
    assert Forgets(s, {}, {}) && !Keeps(s, {}, {}) && !AllKeep([s], {}, {});
  }

  lemma ForgettingAccepted()
    ensures CheckFunction({}, FORGETTING)
  {
    hide Restore;
    var s, moved := If(COIN, Declare("y", None), Some(Assign("y", Fresh))), Env({"y"}, {"y"});
    DeclaredMoved(START);
    RestoreY();
    assert moved.Bind("y") == Env({"y"}, {});
    assert Check(s, START) == Some(Flow(moved, []));
    assert [s][1..] == [];
    assert CheckAll([s], START) == Check(s, START);
    assert Check(FORGETTING, START).Some?;
  }

  // ----- what is safe -----

  lemma GivenTwo(a: Stmt, b: Stmt, g: set<Name>, h: set<Name>)
    requires After(a, g, {}).normal == Some(h)
    ensures AllGiven([a, b], g, {}) == (Given(a, g, {}) && Given(b, h, {}))
    ensures AllAfter([a, b], g, {}).conts == Meet(After(a, g, {}).conts, After(b, h, {}).conts)
    ensures AllAfter([a, b], g, {}).normal == After(b, h, {}).normal
  {
    assert [a, b][1..] == [b] && [b][1..] == [];
    assert AllGiven([b], h, {}) == Given(b, h, {});
    assert AllAfter([b], h, {}).normal == After(b, h, {}).normal && AllAfter([b], h, {}).conts == After(b, h, {}).conts;
  }

  lemma AfterEffects(n: set<Name>)
    ensures After(NEW_Y, {}, n) == Ways(Some({"y"}), None, None) && After(Declare("y", None), {}, n) == Ways(Some({}), None, None)
    ensures After(Assign("y", Fresh), {}, n) == Ways(Some({"y"}), None, None)
  {
    assert {} - {"y"} - {} * n + {"y"} == {"y"} && {} - {"y"} - {} * n + {} == {} && {} - {} * n + {"y"} == {"y"};
  }

  /** A loop in the block of a function that nothing is given before. */
  lemma LoopGiven(body: Stmt)
    requires Binds(body, {}) == {} && Given(body, {}, {})
    ensures Given(Block([Loop(body)]), {}, {})
  {
    HeadStays(body, {}, {});
    var none: set<Name> := {};
    assert Head(body, {}, {}) == none && none + none == none;
    assert [Loop(body)][1..] == [];
  }

  /** Where the other arm leaves, an arm may declare a name:
      `{ loop { if (c) var y = new() else break  take(y) } }`. */
  const ARM_DECLARES: Stmt := Block([If(COIN, NEW_Y, Some(Break)), TAKE_Y])

  lemma ArmMayDeclare()
    ensures CheckFunction({}, Block([Loop(ARM_DECLARES)])) && NeverFails({}, Block([Loop(ARM_DECLARES)]))
  {
    ArmAccepted();
    var s := If(COIN, NEW_Y, Some(Break));
    AfterEffects({});
    assert After(Break, {}, {} + Binds(NEW_Y, {})).normal == None;
    GivenTwo(s, TAKE_Y, {}, {"y"});
    LoopGiven(ARM_DECLARES);
    AcceptedIsSafe({}, Block([Loop(ARM_DECLARES)]));
  }

  lemma ArmAccepted()
    ensures CheckFunction({}, Block([Loop(ARM_DECLARES)]))
  {
    var s, y := If(COIN, NEW_Y, Some(Break)), Env({"y"}, {});
    var f := Looping(Env({}, {}));
    BreakAccepted();
    CheckTwo(s, TAKE_Y, f);
    assert CheckAll([s, TAKE_Y], f) == Some(Flow(Env({"y"}, {"y"}), [Frame([y], [])]));
    TakenInBlock([s, TAKE_Y], f, [Frame([y], [])]);
    LoopAccepted(ARM_DECLARES, Check(ARM_DECLARES, f).value);
  }

  /** A bare declaration is harmless where the name is not used before it is given:
      `{ if (c) var y  { y = new() take(y) } }`. */
  const MAYBE: Stmt := If(COIN, Declare("y", None), None)
  const INNER: Stmt := Block([Assign("y", Fresh), TAKE_Y])

  lemma GivenLater()
    ensures CheckFunction({}, Block([MAYBE, INNER])) && NeverFails({}, Block([MAYBE, INNER]))
  {
    LaterAccepted();
    AfterEffects({});
    var none: set<Name> := {};
    assert none * none == none;
    GivenTwo(Assign("y", Fresh), TAKE_Y, {}, {"y"});
    GivenTwo(MAYBE, INNER, {}, {});
    AcceptedIsSafe({}, Block([MAYBE, INNER]));
  }

  lemma LaterAccepted()
    ensures CheckFunction({}, Block([MAYBE, INNER]))
  {
    hide Restore;
    var moved, live := Env({"y"}, {"y"}), Env({"y"}, {});
    var f := Flow(moved, []);
    DeclaredMoved(START);
    RestoreY();
    assert Check(MAYBE, START) == Some(f);
    assert moved.Bind("y") == live && live.Mark("y") == moved;
    CheckTwo(Assign("y", Fresh), TAKE_Y, f);
    assert CheckAll([Assign("y", Fresh), TAKE_Y], f) == Some(f);
    assert moved.moved * f.env.names == moved.moved;
    assert Check(INNER, f) == Some(f);
    CheckTwo(MAYBE, INNER, START);
    assert CheckAll([MAYBE, INNER], START) == Some(f);
  }

  /** And so it is where the name is never used: `{ loop { if (c) var y = new()  break } }`. */
  const UNUSED: Stmt := Block([If(COIN, NEW_Y, None), Break])

  lemma NeverUsed()
    ensures CheckFunction({}, Block([Loop(UNUSED)])) && NeverFails({}, Block([Loop(UNUSED)]))
  {
    UnusedAccepted();
    AfterEffects({});
    var none: set<Name> := {};
    assert {"y"} * none == none;
    GivenTwo(If(COIN, NEW_Y, None), Break, {}, {});
    LoopGiven(UNUSED);
    AcceptedIsSafe({}, Block([Loop(UNUSED)]));
  }

  lemma UnusedAccepted()
    ensures CheckFunction({}, Block([Loop(UNUSED)]))
  {
    hide Restore;
    var s, f, y := If(COIN, NEW_Y, None), Looping(Env({}, {})), Env({"y"}, {});
    RestoreY();
    assert Check(NEW_Y, f).value == Looping(y);
    assert Check(s, f) == Some(Looping(y));
    CheckTwo(s, Break, f);
    BreakRecorded(y, Frame([], []));
    assert [] + [y] == [y] && y.moved * f.env.names == {};
    assert CheckAll([s, Break], f) == Some(Flow(y, [Frame([y], [])]));
    assert !FallsThrough(UNUSED) by { assert UNUSED.stmts[1] == Break; }
    var b := Flow(Env({}, {}), [Frame([y], [])]);
    assert Check(UNUSED, f) == Some(b);
    LoopAccepted(UNUSED, b);
  }

  // ----- refused -----

  /** A function that ends in an `if` both of whose arms leave is refused if it has
      a parameter, whatever the arms do with it: behind the `if` the state is that
      before it, and the end of the text is looked at even where it is not reached. */
  lemma LeavingArmsAreRefused(params: set<Name>, cond: Cond, thn: Stmt, els: Stmt)
    requires params != {} && !FallsThrough(thn) && !FallsThrough(els)
    ensures !CheckFunction(params, Block([If(cond, thn, Some(els))]))
  {
    var s := If(cond, thn, Some(els));
    var f := Flow(Env(params, {}), []);
    assert [s][0] == s && !FallsThrough(Block([s]));
    assert CheckAll([s], f) == Check(s, f);
    if Check(s, f).Some? {
      var r := Check(s, f).value;
      assert r.env.moved * params == {};
    }
  }

  /** `{ if (c) return x else return x }`, with a parameter x. */
  const RETURN_X: Stmt := Return(Some(From("x")))
  const RETURNING_ARMS: Stmt := Block([If(COIN, RETURN_X, Some(RETURN_X))])

  /** Each of its runs takes the parameter and leaves. */
  lemma ReturningArmsAreRefused(w: World, fuel: nat)
    requires w.live == {"x"}
    ensures !CheckFunction({"x"}, RETURNING_ARMS)
    ensures var r := Exec(RETURNING_ARMS, {}, w, fuel); r.out.Returned? && r.w.live == {}
  {
    LeavingArmsAreRefused({"x"}, COIN, RETURN_X, RETURN_X);
    var s := If(COIN, RETURN_X, Some(RETURN_X));
    Toss(w);
    assert Exec(s, {}, w, fuel).out.Returned? && Exec(s, {}, w, fuel).w.live == {};
    assert [s][0] == s && ExecAll([s], {}, w, fuel) == Exec(s, {}, w, fuel);
  }

  // ----- given in a loop -----

  /** `{ var y  loop { if (c) break  y = new() } }`: the way out is compared with
      itself only, as the first pass leaves it. */
  const GIVE_Y: Stmt := Assign("y", Fresh)
  const MAY_BREAK: Stmt := If(COIN, Break, None)
  const GIVING_PASS: Stmt := Block([MAY_BREAK, GIVE_Y])
  const GIVING: Stmt := Block([Declare("y", None), Loop(GIVING_PASS)])

  /** Accepted, and what the first pass gives y is never taken. */
  lemma LoopGiftIsLost(w: World)
    requires w.live == {} && !w.coins(w.tossed) && w.coins(w.tossed + 1)
    ensures CheckFunction({}, GIVING)
    ensures var r := Exec(GIVING, {}, w, 2);
            r.out.Normal? && r.w.trace == w.trace + [Tested(false), Gave("y"), Tested(true)]
  {
    GivingAccepted();
    var declare := Declare("y", None);
    RunTwo(declare, Loop(GIVING_PASS), w, 2);
    var v := Exec(declare, {}, w, 2).w;
    GivingFirst(v);
    var u := Exec(GIVING_PASS, {}, v, 1).w;
    GivingSecond(u);
    assert Exec(Loop(GIVING_PASS), {}, v, 2) == Exec(Loop(GIVING_PASS), {}, u, 1);
  }

  lemma GivingFirst(v: World)
    requires !v.coins(v.tossed)
    ensures var r := Exec(GIVING_PASS, {}, v, 1);
            && r.out.Normal? && r.w.trace == v.trace + [Tested(false), Gave("y")]
            && r.w.coins == v.coins && r.w.tossed == v.tossed + 1
  {
    RunTwo(MAY_BREAK, GIVE_Y, v, 1);
    Toss(v);
    var u := Exec(MAY_BREAK, {}, v, 1).w;
    assert u.trace == v.trace + [Tested(false)];
    assert v.trace + [Tested(false)] + [Gave("y")] == v.trace + [Tested(false), Gave("y")];
  }

  lemma GivingSecond(u: World)
    requires u.coins(u.tossed)
    ensures var r := Exec(GIVING_PASS, {}, u, 0); r.out.Broke? && r.w.trace == u.trace + [Tested(true)]
  {
    RunTwo(MAY_BREAK, GIVE_Y, u, 0);
    Toss(u);
  }

  lemma GivingPassAccepted()
    ensures var moved := Env({"y"}, {"y"});
            Check(GIVING_PASS, Looping(moved)) == Some(Flow(Env({"y"}, {}), [Frame([moved], [])]))
  {
    var moved := Env({"y"}, {"y"});
    Recorded(moved);
    assert Restore(moved, moved) == moved;
    assert Check(MAY_BREAK, Looping(moved)) == Some(Flow(moved, [Frame([moved], [])]));
    CheckTwo(MAY_BREAK, GIVE_Y, Looping(moved));
    assert {"y"} - {"y"} == {} && {"y"} + {"y"} == {"y"};
    assert CheckAll([MAY_BREAK, GIVE_Y], Looping(moved)) == Some(Flow(Env({"y"}, {}), [Frame([moved], [])]));
    assert {"y"} - {"y"} == {} && {} * {"y"} == {};
  }

  lemma GivingAccepted()
    ensures CheckFunction({}, GIVING)
  {
    var moved := Env({"y"}, {"y"});
    var declare, loop := Declare("y", None), Loop(GIVING_PASS);
    DeclaredMoved(START);
    GivingPassAccepted();
    assert [] + [Frame([], [])] == [Frame([], [])];
    assert Restore(Env({"y"}, {}), Env({"y"}, {})) == Env({"y"}, {});
    assert Restore(Env({"y"}, {}), moved) == moved;
    assert Check(loop, Flow(moved, [])) == Some(Flow(moved, []));
    CheckTwo(declare, loop, START);
    TakenInBlock([declare, loop], START, []);
  }

  /** `{ loop { var y = new()  if (c) break  take(y) } }`: a `break` does not ask about
      what was bound in the loop. */
  const LEAVING_PASS: Stmt := Block([NEW_Y, MAY_BREAK, TAKE_Y])
  const LEAVING: Stmt := Block([Loop(LEAVING_PASS)])

  /** Accepted, and what y was given goes out of scope with it. */
  lemma BreakGiftIsLost(w: World)
    requires Says(w, true)
    ensures CheckFunction({}, LEAVING)
    ensures var r := Exec(LEAVING, {}, w, 1);
            r.out.Normal? && r.w.live == {} && r.w.trace == w.trace + [Gave("y"), Tested(true)]
  {
    LeavingAccepted();
    LeavingRun(w);
    var loop := Loop(LEAVING_PASS);
    assert [loop][0] == loop && ExecAll([loop], {}, w, 1) == Exec(loop, {}, w, 1);
  }

  lemma LeavingRun(w: World)
    requires Says(w, true)
    ensures var r := Exec(LEAVING_PASS, {}, w, 0);
            r.out.Broke? && r.w.live == {} && r.w.trace == w.trace + [Gave("y"), Tested(true)]
  {
    var ss := [NEW_Y, MAY_BREAK, TAKE_Y];
    var v := Exec(NEW_Y, {}, w, 0).w;
    Toss(v);
    assert ss[1..] == [MAY_BREAK, TAKE_Y];
    RunTwo(MAY_BREAK, TAKE_Y, v, 0);
    assert ExecAll(ss, {}, w, 0) == ExecAll([MAY_BREAK, TAKE_Y], {}, v, 0);
    assert w.trace + [Gave("y")] + [Tested(true)] == w.trace + [Gave("y"), Tested(true)];
    assert "y" in AllBinds(ss, {});
  }

  lemma LeavingAccepted()
    ensures CheckFunction({}, LEAVING)
  {
    var f, ss := Looping(Env({}, {})), [NEW_Y, MAY_BREAK, TAKE_Y];
    var held := Env({"y"}, {});
    Recorded(held);
    assert Check(NEW_Y, f) == Some(Looping(held)) by { assert Env({}, {}).Bind("y") == held; }
    assert Restore(held, held) == held;
    assert Check(MAY_BREAK, Looping(held)) == Some(Flow(held, [Frame([held], [])]));
    assert ss[1..] == [MAY_BREAK, TAKE_Y];
    CheckTwo(MAY_BREAK, TAKE_Y, Looping(held));
    assert CheckAll(ss, f) == CheckAll([MAY_BREAK, TAKE_Y], Looping(held));
    TakenInBlock(ss, f, [Frame([held], [])]);
    LoopAccepted(LEAVING_PASS, Flow(Env({}, {}), [Frame([held], [])]));
  }
}
