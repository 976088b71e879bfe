/** Which names a program text certainly gives something to before it uses them,
    and that a use of any other fails on some run. */
module OwnershipGiven {
  import opened Wrappers
  import opened Boson
  import opened Ownership

  /** The names that are certainly given at each way out of a statement; `None`
      where it is never left that way. */
  datatype Ways = Ways(normal: Option<set<Name>>, breaks: Option<set<Name>>, conts: Option<set<Name>>)

  const NOWHERE: Ways := Ways(None, None, None)

  function Meet(a: Option<set<Name>>, b: Option<set<Name>>): Option<set<Name>> {
    if a.None? then b else if b.None? then a else Some(a.value * b.value)
  }

  function Without(a: Option<set<Name>>, names: set<Name>): Option<set<Name>> {
    if a.None? then None else Some(a.value - names)
  }

  function SourceNames(src: Option<Source>): set<Name> {
    if src.Some? && src.value.From? then {src.value.name} else {}
  }

  /** After s, the names of g being given before it.  A name once given stays so,
      the checker keeping account of moves; but those of n, which the checker does
      not compare at the next join or way out of a loop, only until they are taken. */
  function After(s: Stmt, g: set<Name>, n: set<Name>): Ways
    decreases s, 1
  {
    match s
    case Use(_) => Ways(Some(g), None, None)
    case Consume(x) => Ways(Some(g - {x} * n), None, None)
    case Dispose(x) => Ways(Some(g - {x} * n), None, None)
    case Declare(x, init) =>
      Ways(Some(g - {x} - SourceNames(init) * n + if init.Some? then {x} else {}), None, None)
    case Assign(x, src) => Ways(Some(g - SourceNames(Some(src)) * n + {x}), None, None)
    case If(_, thn, els) =>
      var t := After(thn, g, n);
      var e := if els.Some? then After(els.value, g, n + Binds(thn, {})) else Ways(Some(g), None, None);
      Ways(Meet(t.normal, e.normal), Meet(t.breaks, e.breaks), Meet(t.conts, e.conts))
    case Loop(body) =>
      var first := After(body, g, n + Binds(body, {}));
      Ways(After(body, AtHead(g, first), n + Binds(body, {})).breaks, None, None)
    case Block(stmts) =>
      var (a, own) := (AllAfter(stmts, g, n), AllBinds(stmts, {}));
      Ways(Without(a.normal, own), Without(a.breaks, own), Without(a.conts, own))
    case Break => Ways(None, Some(g), None)
    case Continue(step) =>
      var a := if step.Some? then After(step.value, g, n) else Ways(Some(g), None, None);
      Ways(None, a.breaks, Meet(a.normal, a.conts))
    case Return(_) => NOWHERE
    case For(_, _, _, _) => NOWHERE
  }

  function AllAfter(ss: seq<Stmt>, g: set<Name>, n: set<Name>): Ways
    decreases ss, 0
  {
    if ss == [] then Ways(Some(g), None, None)
    else
      var a := After(ss[0], g, n);
      if a.normal.None? then a
      else
        var b := AllAfter(ss[1..], a.normal.value, n);
        Ways(b.normal, Meet(a.breaks, b.breaks), Meet(a.conts, b.conts))
  }

  /** What is given at the head of a loop on every iteration, the first one leaving
      the body like this. */
  function AtHead(g: set<Name>, first: Ways): set<Name> { Meet(Some(g), Meet(first.normal, first.conts)).value }

  function Head(body: Stmt, g: set<Name>, n: set<Name>): set<Name> { AtHead(g, After(body, g, n + Binds(body, {}))) }

  /** Every use is of a name that is certainly given. */
  predicate Given(s: Stmt, g: set<Name>, n: set<Name>)
    decreases s, 1
  {
    match s
    case Use(x) => x in g
    case Consume(x) => x in g
    case Dispose(x) => x in g
    case Declare(x, init) => SourceNames(init) <= g - {x}
    case Assign(_, src) => SourceNames(Some(src)) <= g
    case If(cond, thn, els) =>
      && (forall x <- CondNames(cond) :: x in g)
      && Given(thn, g, n) && (els.Some? ==> Given(els.value, g, n + Binds(thn, {})))
    case Loop(body) => Given(body, Head(body, g, n), n + Binds(body, {}))
    case Block(stmts) => AllGiven(stmts, g, n)
    case Continue(step) => step.Some? ==> Given(step.value, g, n)
    case Return(val) => SourceNames(val) <= g
    case _ => true
  }

  predicate AllGiven(ss: seq<Stmt>, g: set<Name>, n: set<Name>)
    decreases ss, 0
  {
    ss == [] ||
    (Given(ss[0], g, n) &&
     var a := After(ss[0], g, n); a.normal.Some? ==> AllGiven(ss[1..], a.normal.value, n))
  }

  // ----- each name by itself -----

  predicate SameFor(x: Name, a: Option<set<Name>>, b: Option<set<Name>>) {
    a.Some? == b.Some? && (a.Some? ==> (x in a.value <==> x in b.value))
  }

  predicate WaysSameFor(x: Name, a: Ways, b: Ways) {
    SameFor(x, a.normal, b.normal) && SameFor(x, a.breaks, b.breaks) && SameFor(x, a.conts, b.conts)
  }

  /** Whether a name is given after a statement depends on no other name. */
  lemma {:induction false} EachByItself(s: Stmt, x: Name, g: set<Name>, h: set<Name>, n: set<Name>)
    requires x in g <==> x in h
    ensures WaysSameFor(x, After(s, g, n), After(s, h, n))
    decreases s, 1
  {
    match s
    case If(_, thn, els) =>
      EachByItself(thn, x, g, h, n);
      if els.Some? { EachByItself(els.value, x, g, h, n + Binds(thn, {})); }
    case Loop(body) =>
      var inner := n + Binds(body, {});
      EachByItself(body, x, g, h, inner);
      EachByItself(body, x, Head(body, g, n), Head(body, h, n), inner);
    case Block(stmts) => AllByItself(stmts, x, g, h, n);
    case Continue(step) => if step.Some? { EachByItself(step.value, x, g, h, n); }
    case _ =>
  }

  lemma {:induction false} AllByItself(ss: seq<Stmt>, x: Name, g: set<Name>, h: set<Name>, n: set<Name>)
    requires x in g <==> x in h
    ensures WaysSameFor(x, AllAfter(ss, g, n), AllAfter(ss, h, n))
    decreases ss, 0
  {
    if ss != [] {
      EachByItself(ss[0], x, g, h, n);
      var a, b := After(ss[0], g, n), After(ss[0], h, n);
      if a.normal.Some? { AllByItself(ss[1..], x, a.normal.value, b.normal.value, n); }
    }
  }

  /** What is given at the head of a loop is given again at each way back to it. */
  lemma HeadStays(body: Stmt, g: set<Name>, n: set<Name>)
    ensures var h := Head(body, g, n);
            var a := After(body, h, n + Binds(body, {}));
            && h <= g && (a.normal.Some? ==> h <= a.normal.value) && (a.conts.Some? ==> h <= a.conts.value)
  {
    var h := Head(body, g, n);
    forall x | x in h ensures WaysSameFor(x, After(body, g, n + Binds(body, {})), After(body, h, n + Binds(body, {}))) {
      EachByItself(body, x, g, h, n + Binds(body, {}));
    }
  }

  // ----- ways are runs -----

  datatype Exit = ToEnd | ToBreak | ToContinue

  function At(a: Ways, e: Exit): Option<set<Name>> {
    match e
    case ToEnd => a.normal
    case ToBreak => a.breaks
    case ToContinue => a.conts
  }

  /** A name that is not among those given holds nothing. */
  predicate Missing(x: Name, g: set<Name>, w: World) { x in g || x !in w.live }

  /** The next conditions are answered like this. */
  predicate Follows(w: World, answers: seq<bool>) {
    forall i :: 0 <= i < |answers| ==> w.coins(w.tossed + i) == answers[i]
  }

  ghost predicate Tossed(w: World, v: World, count: nat) { v.coins == w.coins && v.tossed == w.tossed + count }

  /** A run that ended as it should, x still missing, or failed before. */
  ghost predicate Arrives(x: Name, e: Exit, h: set<Name>, w: World, count: nat, r: Result) {
    || r.out.NotHeld?
    || (&& Tossed(w, r.w, count)
        && match e
           case ToEnd => r.out.Normal? && Missing(x, h, r.w)
           case ToBreak => r.out.Broke? && Missing(x, h, r.w)
           case ToContinue => r.out.Continued? && Missing(x, h, Drop(r.out.left, r.w)))
  }

  /** With these answers, and from a world where x is missing, every run goes that way. */
  ghost predicate Leads(s: Stmt, x: Name, g: set<Name>, e: Exit, h: set<Name>, answers: seq<bool>, m: nat) {
    forall w: World, fuel: nat :: fuel >= m && Missing(x, g, w) && Follows(w, answers) ==>
      Arrives(x, e, h, w, |answers|, Exec(s, {}, w, fuel))
  }

  ghost predicate AllLead(ss: seq<Stmt>, x: Name, g: set<Name>, e: Exit, h: set<Name>, answers: seq<bool>, m: nat) {
    forall w: World, fuel: nat :: fuel >= m && Missing(x, g, w) && Follows(w, answers) ==>
      Arrives(x, e, h, w, |answers|, ExecAll(ss, {}, w, fuel))
  }

  lemma FollowsOn(w: World, a: seq<bool>, b: seq<bool>, v: World)
    requires Follows(w, a + b)
    ensures Follows(w, a) && (Tossed(w, v, |a|) ==> Follows(v, b))
  {
    assert forall i :: 0 <= i < |a| ==> (a + b)[i] == a[i];
    assert forall i :: 0 <= i < |b| ==> (a + b)[|a| + i] == b[i];
  }

  /** A condition can be made to come out either way. */
  lemma {:induction false} TossFor(c: Cond, b: bool) returns (a: bool)
    ensures forall w: World :: w.coins(w.tossed) == a ==>
              var (r, v) := Test(c, w);
              r.out.NotHeld? || (r.out.Normal? && v == b && Tossed(w, r.w, 1) && r.w.live == w.live)
  {
    match c
    case Reads(xs) =>
      a := b;
      forall w: World ensures ReadAll(xs, w).out.NotHeld? ||
                              (ReadAll(xs, w).out.Normal? && Tossed(w, ReadAll(xs, w).w, 0) && ReadAll(xs, w).w.live == w.live) {
        ReadAllTosses(xs, w);
      }
    case Not(d) => a := TossFor(d, !b);
  }

  lemma {:induction false} ReadAllTosses(xs: seq<Name>, w: World)
    ensures var r := ReadAll(xs, w); r.out.NotHeld? || (r.out.Normal? && Tossed(w, r.w, 0) && r.w.live == w.live)
  {
    if xs != [] && xs[0] in w.live { ReadAllTosses(xs[1..], ReadName(xs[0], w).w); }
  }

  lemma {:induction false} ReadsMissing(xs: seq<Name>, x: Name, w: World)
    requires x in xs && x !in w.live
    ensures ReadAll(xs, w).out.NotHeld?
  {
    if xs[0] in w.live { ReadsMissing(xs[1..], x, ReadName(xs[0], w).w); }
  }

  lemma {:induction false} TestsMissing(c: Cond, x: Name, w: World)
    requires x in CondNames(c) && x !in w.live
    ensures Test(c, w).0.out.NotHeld?
  {
    match c
    case Reads(xs) => ReadsMissing(xs, x, w);
    case Not(d) => TestsMissing(d, x, w);
  }

  /** Each way out of the text that the analysis sees is a run. */
  lemma {:induction false} Way(s: Stmt, x: Name, g: set<Name>, n: set<Name>, e: Exit) returns (answers: seq<bool>, m: nat)
    requires At(After(s, g, n), e).Some?
    ensures Leads(s, x, g, e, At(After(s, g, n), e).value, answers, m)
    decreases s, 1
  {
    match s
    case If(_, _, _) => answers, m := IfWay(s, x, g, n, e);
    case Loop(_) => answers, m := LoopWay(s, x, g, n);
    case Block(stmts) => answers, m := BlockWay(stmts, x, g, n, e);
    case Continue(step) => answers, m := ContinueWay(s, x, g, n, e);
    case _ => answers, m := [], 0;
  }

  lemma {:induction false} ContinueWay(s: Stmt, x: Name, g: set<Name>, n: set<Name>, e: Exit)
    returns (answers: seq<bool>, m: nat)
    requires s.Continue? && At(After(s, g, n), e).Some?
    ensures Leads(s, x, g, e, At(After(s, g, n), e).value, answers, m)
    decreases s, 0
  {
    var h := At(After(s, g, n), e).value;
    answers, m := [], 0;
    if s.step.None? {
      forall w: World ensures Drop({}, w).live == w.live { assert w.live - {} == w.live; }
    } else {
      var a := After(s.step.value, g, n);
      var inner := if e.ToContinue? && a.normal.Some? && (a.conts.None? || x in h || x !in a.normal.value) then ToEnd else e;
      answers, m := Way(s.step.value, x, g, n, inner);
      forall w: World ensures Drop({}, w).live == w.live { assert w.live - {} == w.live; }
      assert Leads(s, x, g, e, h, answers, m);
    }
  }

  lemma {:induction false} IfWay(s: Stmt, x: Name, g: set<Name>, n: set<Name>, e: Exit) returns (answers: seq<bool>, m: nat)
    requires s.If? && At(After(s, g, n), e).Some?
    ensures Leads(s, x, g, e, At(After(s, g, n), e).value, answers, m)
    decreases s, 0
  {
    var h := At(After(s, g, n), e).value;
    var t := At(After(s.thn, g, n), e);
    var d := if s.els.Some? then At(After(s.els.value, g, n + Binds(s.thn, {})), e) else if e.ToEnd? then Some(g) else None;
    var b := t.Some? && (d.None? || x in h || x !in t.value);
    var rest;
    if b { rest, m := Way(s.thn, x, g, n, e); }
    else if s.els.Some? { rest, m := Way(s.els.value, x, g, n + Binds(s.thn, {}), e); }
    else { rest, m := [], 0; }
    var a := TossFor(s.cond, b);
    answers := [a] + rest;
    forall w: World, fuel: nat | fuel >= m && Missing(x, g, w) && Follows(w, answers)
      ensures Arrives(x, e, h, w, |answers|, Exec(s, {}, w, fuel))
    {
      assert w.coins(w.tossed + 0) == answers[0];
      FollowsOn(w, [a], rest, Test(s.cond, w).0.w);
    }
  }

  lemma {:induction false} BlockWay(ss: seq<Stmt>, x: Name, g: set<Name>, n: set<Name>, e: Exit)
    returns (answers: seq<bool>, m: nat)
    requires At(After(Block(ss), g, n), e).Some?
    ensures Leads(Block(ss), x, g, e, At(After(Block(ss), g, n), e).value, answers, m)
    decreases ss, 1
  {
    answers, m := AllWay(ss, x, g, n, e);
    var h, own := At(AllAfter(ss, g, n), e).value, AllBinds(ss, {});
    forall w: World, fuel: nat | fuel >= m && Missing(x, g, w) && Follows(w, answers)
      ensures Arrives(x, e, h - own, w, |answers|, Exec(Block(ss), {}, w, fuel))
    {
      assert Arrives(x, e, h, w, |answers|, ExecAll(ss, {}, w, fuel));
    }
  }

  lemma {:induction false} AllWay(ss: seq<Stmt>, x: Name, g: set<Name>, n: set<Name>, e: Exit)
    returns (answers: seq<bool>, m: nat)
    requires At(AllAfter(ss, g, n), e).Some?
    ensures AllLead(ss, x, g, e, At(AllAfter(ss, g, n), e).value, answers, m)
    decreases ss, 0
  {
    var h := At(AllAfter(ss, g, n), e).value;
    if ss == [] { return [], 0; }
    var a := After(ss[0], g, n);
    var out := At(a, e);
    var rest := if a.normal.Some? then At(AllAfter(ss[1..], a.normal.value, n), e) else None;
    if !e.ToEnd? && out.Some? && (rest.None? || x in h || x !in out.value) {
      answers, m := Way(ss[0], x, g, n, e);
      assert AllLead(ss, x, g, e, h, answers, m);
    } else {
      var first, m1 := Way(ss[0], x, g, n, ToEnd);
      var more, m2 := AllWay(ss[1..], x, a.normal.value, n, e);
      answers, m := first + more, m1 + m2;
      forall w: World, fuel: nat | fuel >= m && Missing(x, g, w) && Follows(w, answers)
        ensures Arrives(x, e, h, w, |answers|, ExecAll(ss, {}, w, fuel))
      {
        FollowsOn(w, first, more, Exec(ss[0], {}, w, fuel).w);
        assert Arrives(x, ToEnd, a.normal.value, w, |first|, Exec(ss[0], {}, w, fuel));
      }
    }
  }

  /** The loop goes on as if it began in a world v where x, unless h promises it, is missing. */
  ghost predicate GoesOn(body: Stmt, x: Name, h: set<Name>, w: World, count: nat, fuel: nat) {
    || Exec(Loop(body), {}, w, fuel).out.NotHeld?
    || exists v: World, less: nat :: fuel <= less + 1 && Tossed(w, v, count) && Missing(x, h, v) &&
         Exec(Loop(body), {}, w, fuel) == Exec(Loop(body), {}, v, less)
  }

  /** To the head of a loop, at once or by way of one iteration. */
  lemma {:induction false} HeadWay(body: Stmt, x: Name, g: set<Name>, n: set<Name>) returns (answers: seq<bool>, m: nat)
    ensures forall w: World, fuel: nat :: fuel >= m && Missing(x, g, w) && Follows(w, answers) ==>
              GoesOn(body, x, Head(body, g, n), w, |answers|, fuel)
    decreases body, 2
  {
    var h := Head(body, g, n);
    if x in h || x !in g {
      answers, m := [], 0;
      forall w: World, fuel: nat | Missing(x, g, w) ensures GoesOn(body, x, h, w, 0, fuel) {
        assert Tossed(w, w, 0) && Missing(x, h, w);
      }
    } else {
      var inner := n + Binds(body, {});
      var a := After(body, g, inner);
      var e := if a.normal.Some? && x !in a.normal.value then ToEnd else ToContinue;
      answers, m := Way(body, x, g, inner, e);
      m := m + 1;
      forall w: World, fuel: nat | fuel >= m && Missing(x, g, w) && Follows(w, answers)
        ensures GoesOn(body, x, h, w, |answers|, fuel)
      {
        var r := Exec(body, {}, w, fuel - 1);
        assert Arrives(x, e, At(a, e).value, w, |answers|, r);
        if !r.out.NotHeld? {
          var v := if e.ToEnd? then r.w else Drop(r.out.left, r.w);
          assert Exec(Loop(body), {}, w, fuel) == Exec(Loop(body), {}, v, fuel - 1);
        }
      }
    }
  }

  lemma {:induction false} LoopWay(s: Stmt, x: Name, g: set<Name>, n: set<Name>) returns (answers: seq<bool>, m: nat)
    requires s.Loop? && After(s, g, n).normal.Some?
    ensures Leads(s, x, g, ToEnd, After(s, g, n).normal.value, answers, m)
    decreases s, 0
  {
    var body, h := s.body, Head(s.body, g, n);
    var first, m1 := HeadWay(body, x, g, n);
    var more, m2 := Way(body, x, h, n + Binds(body, {}), ToBreak);
    answers, m := first + more, m1 + m2 + 2;
    forall w: World, fuel: nat | fuel >= m && Missing(x, g, w) && Follows(w, answers)
      ensures Arrives(x, ToEnd, After(s, g, n).normal.value, w, |answers|, Exec(s, {}, w, fuel))
    {
      FollowsOn(w, first, more, w);
      assert GoesOn(body, x, h, w, |first|, fuel);
      if !Exec(s, {}, w, fuel).out.NotHeld? {
        var v: World, less: nat :| fuel <= less + 1 && Tossed(w, v, |first|) && Missing(x, h, v) &&
                                   Exec(Loop(body), {}, w, fuel) == Exec(Loop(body), {}, v, less);
        FollowsOn(w, first, more, v);
        assert Arrives(x, ToBreak, After(body, h, n + Binds(body, {})).breaks.value, v, |more|, Exec(body, {}, v, less - 1));
      }
    }
  }

  // ----- what is not given fails -----

  /** With these answers, and from a world where x is missing, every run fails. */
  ghost predicate Fails(s: Stmt, x: Name, g: set<Name>, answers: seq<bool>, m: nat) {
    forall w: World, fuel: nat :: fuel >= m && Missing(x, g, w) && Follows(w, answers) ==> Exec(s, {}, w, fuel).out.NotHeld?
  }

  lemma {:induction false} NotGivenFails(s: Stmt, g: set<Name>, n: set<Name>)
    returns (x: Name, answers: seq<bool>, m: nat)
    requires !Given(s, g, n)
    ensures Fails(s, x, g, answers, m)
    decreases s, 1
  {
    match s
    case Use(y) => x, answers, m := y, [], 0;
    case Consume(y) => x, answers, m := y, [], 0;
    case Dispose(y) => x, answers, m := y, [], 0;
    case Declare(_, init) => x, answers, m := init.value.name, [], 0;
    case Assign(_, src) => x, answers, m := src.name, [], 0;
    case Return(val) => x, answers, m := val.value.name, [], 0;
    case Continue(step) => x, answers, m := NotGivenFails(step.value, g, n);
    case Block(stmts) =>
      x, answers, m := AllNotGivenFail(stmts, g, n);
    case If(_, _, _) => x, answers, m := IfNotGivenFails(s, g, n);
    case Loop(body) => x, answers, m := LoopNotGivenFails(body, g, n);
  }

  lemma {:induction false} IfNotGivenFails(s: Stmt, g: set<Name>, n: set<Name>)
    returns (x: Name, answers: seq<bool>, m: nat)
    requires s.If? && !Given(s, g, n)
    ensures Fails(s, x, g, answers, m)
    decreases s, 0
  {
    if y :| y in CondNames(s.cond) && y !in g {
      x, answers, m := y, [], 0;
      forall w: World | y !in w.live ensures Test(s.cond, w).0.out.NotHeld? { TestsMissing(s.cond, y, w); }
    } else {
      var b := !Given(s.thn, g, n);
      var rest;
      if b { x, rest, m := NotGivenFails(s.thn, g, n); }
      else { x, rest, m := NotGivenFails(s.els.value, g, n + Binds(s.thn, {})); }
      var a := TossFor(s.cond, b);
      answers := [a] + rest;
      forall w: World, fuel: nat | fuel >= m && Missing(x, g, w) && Follows(w, answers)
        ensures Exec(s, {}, w, fuel).out.NotHeld?
      {
        assert w.coins(w.tossed + 0) == answers[0];
        FollowsOn(w, [a], rest, Test(s.cond, w).0.w);
      }
    }
  }

  lemma {:induction false} AllNotGivenFail(ss: seq<Stmt>, g: set<Name>, n: set<Name>)
    returns (x: Name, answers: seq<bool>, m: nat)
    requires !AllGiven(ss, g, n)
    ensures forall w: World, fuel: nat :: fuel >= m && Missing(x, g, w) && Follows(w, answers) ==>
              ExecAll(ss, {}, w, fuel).out.NotHeld?
    decreases ss, 0
  {
    if !Given(ss[0], g, n) {
      x, answers, m := NotGivenFails(ss[0], g, n);
    } else {
      var h := After(ss[0], g, n).normal.value;
      var more, m2;
      x, more, m2 := AllNotGivenFail(ss[1..], h, n);
      var first, m1 := Way(ss[0], x, g, n, ToEnd);
      answers, m := first + more, m1 + m2;
      forall w: World, fuel: nat | fuel >= m && Missing(x, g, w) && Follows(w, answers)
        ensures ExecAll(ss, {}, w, fuel).out.NotHeld?
      {
        FollowsOn(w, first, more, Exec(ss[0], {}, w, fuel).w);
        assert Arrives(x, ToEnd, h, w, |first|, Exec(ss[0], {}, w, fuel));
      }
    }
  }

  lemma {:induction false} LoopNotGivenFails(body: Stmt, g: set<Name>, n: set<Name>)
    returns (x: Name, answers: seq<bool>, m: nat)
    requires !Given(Loop(body), g, n)
    ensures Fails(Loop(body), x, g, answers, m)
    decreases body, 2
  {
    var h := Head(body, g, n);
    var more, m2;
    x, more, m2 := NotGivenFails(body, h, n + Binds(body, {}));
    var first, m1 := HeadWay(body, x, g, n);
    answers, m := first + more, m1 + m2 + 2;
    forall w: World, fuel: nat | fuel >= m && Missing(x, g, w) && Follows(w, answers)
      ensures Exec(Loop(body), {}, w, fuel).out.NotHeld?
    {
      FollowsOn(w, first, more, w);
      assert GoesOn(body, x, h, w, |first|, fuel);
      if v: World, less: nat :| fuel <= less + 1 && Tossed(w, v, |first|) && Missing(x, h, v) &&
                                Exec(Loop(body), {}, w, fuel) == Exec(Loop(body), {}, v, less)
      {
        FollowsOn(w, first, more, v);
        assert Exec(body, {}, v, less - 1).out.NotHeld?;
      }
    }
  }

  /** Begins with some names live, after some trace, and answers conditions like this. */
  function Beginning(live: set<Name>, trace: seq<Event>, answers: seq<bool>): (w: World)
    ensures w.live == live && w.trace == trace && Follows(w, answers)
  {
    World(live, trace, (i: nat) => i < |answers| && answers[i], 0)
  }

  /** A text that uses a name it does not certainly give first fails on some run. */
  lemma SomeRunFails(params: set<Name>, body: Stmt, trace: seq<Event>) returns (w: World, fuel: nat)
    requires !Given(body, params, {})
    ensures w.live == params && w.trace == trace && Exec(body, {}, w, fuel).out.NotHeld?
  {
    var x, answers, m := NotGivenFails(body, params, {});
    w, fuel := Beginning(params, trace, answers), m;
  }
}
