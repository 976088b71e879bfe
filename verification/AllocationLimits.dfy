/** Where the register allocator breaks its own invariant or loses a value: from the
    state of an empty function, runs that its callers could make. */
module AllocationLimits {
  import opened Wrappers
  import opened Registers
  import opened RegisterFile
  import opened Bytes
  import opened Machine
  import opened Allocation
  import opened AllocationInvariant
  import opened AllocationSlots
  import opened AllocationRefinement
  import opened AllocationRuns
  import opened AllocationAnswers

  const AL: Reg := GP(0, Low8)
  const BL: Reg := GP(3, Low8)
  const BH: Reg := GP(3, High8)

  /** The states of a run from the empty function. */
  ghost predicate Reaches(ops: seq<Op>, states: seq<Alloc>) {
    && |states| == |ops| + 1 && states[0] == Initial()
    && forall i :: 0 <= i < |ops| ==> Apply(states[i], ops[i]) == Some(states[i + 1])
  }

  lemma InitialInv()
    ensures RegInv(Initial()) && SlotInv(Initial())
  {
  }

  /** 256 MiB of bytes, forgotten: 2^31 bits are a negative number of 32 bits, and so
      is the size of the slot given back. */
  lemma ForgetFails() returns (states: seq<Alloc>)
    ensures Reaches([AllocBytesOp("x", 0x1000_0000), ForgetOp("x")], states)
    ensures SlotInv(states[1]) && RegInv(states[1]) && !SlotInv(states[2])
  {
    var s := Initial();
    InitialInv();
    var t := AllocBytes(s, "x", 0x1000_0000);
    AllocBytesKeeps(s, "x", 0x1000_0000);
    assert t.vars["x"].size == 0x8000_0000;
    ForgetKeeps(t, "x");
    states := [s, t, Forget(t, "x")];
  }

  const HOLDING_AL: Alloc := Initial().(used := {RBP, RSP, AL})

  /** AL is taken by hand; then x is to live in RAX. */
  lemma UseRegisterFails() returns (states: seq<Alloc>)
    ensures Reaches([AcquireOp(AL), NewLocalOp("x", 64), UseRegisterOp("x", RAX)], states)
    ensures RegInv(states[2]) && !RegInv(states[3])
  {
    hide RegInv, UseRegister, NewLocal, Acquire;
    AcquiredFirst();
    HoldingKeeps();
    DeclaredSecond();
    var u := NewLocal(HOLDING_AL, "x", 64);
    SeatedRegardless(u);
    InTheWay(u);
    states := [Initial(), HOLDING_AL, u, UseRegister(u, "x", RAX).value];
  }

  lemma HoldingKeeps()
    ensures RegInv(NewLocal(HOLDING_AL, "x", 64))
  {
    hide RegInv, SlotInv, NewLocal, Acquire;
    AcquiredFirst();
    InitialInv();
    AcquireKeeps(Initial(), AL);
    SameSlotsKeep(Initial(), HOLDING_AL);
    assert HasRoom(HOLDING_AL, 8);
    NewLocalKeeps(HOLDING_AL, "x", 64);
  }

  lemma InTheWay(u: Alloc)
    requires RegInv(u) && "x" in u.vars && u.vars["x"].regable && UseRegister(u, "x", RAX).Some? && AL in u.used && AL !in u.regs
    ensures !RegInv(UseRegister(u, "x", RAX).value)
  {
    hide RegInv, UseRegister;
    assert Overlap(AL, RAX);
    UseRegisterExactly(u, "x", RAX);
  }

  lemma DeclaredSecond()
    ensures var u := NewLocal(HOLDING_AL, "x", 64);
            && "x" in u.vars && u.used == {RBP, RSP, AL} && u.regs == map[]
            && u.vars["x"] == Var(64, true, false, false, false, RAX, -8)
  {
    assert Space(HOLDING_AL, Int32(64) / 8).1 == -8;
  }

  lemma AcquiredFirst()
    ensures Acquire(Initial(), AL) == Some(HOLDING_AL)
  {
    assert ConflictsOf(AL, {RBP, RSP}) == [];
    assert IsFree(AL, {RBP, RSP});
    assert {RBP, RSP} + {AL} == {RBP, RSP, AL};
  }

  lemma SeatedRegardless(u: Alloc)
    requires "x" in u.vars && u.regs == map[] && u.vars["x"] == Var(64, true, false, false, false, RAX, u.vars["x"].offset)
    ensures UseRegister(u, "x", RAX).Some?
  {
    NothingEvicted(u, ConflictsOf(RAX, u.used));
  }

  lemma {:induction false} NothingEvicted(s: Alloc, rs: seq<Reg>)
    requires s.regs == map[]
    ensures EvictRegs(s, rs) == s
  {
    if rs != [] { NothingEvicted(s, rs[1..]); }
  }

  /** Two arguments in RDI. */
  lemma ArgFails() returns (states: seq<Alloc>)
    ensures Reaches([ArgOp("x", RDI), ArgOp("y", RDI)], states)
    ensures RegInv(states[1]) && !RegInv(states[2])
  {
    hide RegInv, SlotInv, Arg;
    InitialInv();
    FirstArg();
    var s, t := Initial(), Arg(Initial(), "x", RDI);
    ArgKeeps(s, "x", RDI);
    ArgLosesTracked(t, "y", RDI, RDI);
    states := [s, t, Arg(t, "y", RDI)];
  }

  lemma FirstArg()
    ensures Bindable(Initial(), RDI) && HasRoom(Initial(), 8)
    ensures var t := Arg(Initial(), "x", RDI); "y" !in t.vars && RDI in t.used && RDI in t.regs && Overlap(RDI, RDI)
  {
    hide Without, Int32, Uint32;
  }

  // ----- a tenant of BH -----

  function Tenants(used: set<Reg>, regs: map<Reg, string>, a: Var, b: Var, lru: seq<Reg>, code: seq<Instr>): Alloc {
    Alloc(used, regs, map["a" := a, "b" := b], lru, 2, [], code)
  }

  /** a lives in BH and is given a value; b is given one in memory and then brought
      into a register, which is BL. */
  function TenantOps(v: Byte, w: Byte): seq<Op> {
    [NewLocalOp("a", 8), NewLocalOp("b", 8), UseRegisterOp("a", BH), Write("a", true, [v]), Write("b", false, [w]),
     RegisterOp("b")]
  }

  function TenantStates(v: Byte, w: Byte): seq<Alloc> {
    var a, b := Var(8, true, false, false, false, RAX, -1), Var(8, true, false, false, false, RAX, -2);
    var inBH, inMem, inBL := a.(inreg := true, reg := BH), b.(inmem := true), b.(inmem := true, inreg := true, reg := BL);
    var put, store := Put(BH, [v]), PutMem(-2, [w]);
    [Initial(),
     Alloc({RBP, RSP}, map[], map["a" := a], [], 1, [], []),
     Tenants({RBP, RSP}, map[], a, b, [], []),
     Tenants({RBP, RSP, BH}, map[BH := "a"], inBH, b, [BH], []),
     Tenants({RBP, RSP, BH}, map[BH := "a"], inBH, b, [BH], [put]),
     Tenants({RBP, RSP, BH}, map[BH := "a"], inBH, inMem, [BH], [put, store]),
     Tenants({RBP, RSP, BH, BL}, map[BH := "a", BL := "b"], inBH, inBL, [BH, BL], [put, store, Zero(RBX), Load(BL, -2, 8)])]
  }

  lemma TenantDeclares(v: Byte, w: Byte)
    ensures var ops, states := TenantOps(v, w), TenantStates(v, w);
            Apply(states[0], ops[0]) == Some(states[1]) && Apply(states[1], ops[1]) == Some(states[2])
  {
    var states := TenantStates(v, w);
    assert Space(states[0], Int32(8) / 8) == (states[0].(localoff := 1), -1);
    assert Space(states[1], Int32(8) / 8) == (states[1].(localoff := 2), -2);
    assert NewLocal(states[0], "a", 8).vars == states[1].vars;
    assert NewLocal(states[1], "b", 8).vars == states[2].vars;
  }

  lemma TenantSeated(v: Byte, w: Byte)
    ensures var ops, states := TenantOps(v, w), TenantStates(v, w); Apply(states[2], ops[2]) == Some(states[3])
  {
    var s, t := TenantStates(v, w)[2], TenantStates(v, w)[3];
    assert IsFree(BH, s.used) && s.used + {BH} == t.used;
    assert Place(Take(s, BH), "a", BH).vars == t.vars;
    assert Without([], BH) + [BH] == [BH];
    assert Seat(Take(s, BH), "a", BH) == Some(t);
  }

  lemma TenantWrites(v: Byte, w: Byte)
    ensures var ops, states := TenantOps(v, w), TenantStates(v, w);
            Apply(states[3], ops[3]) == Some(states[4]) && Apply(states[4], ops[4]) == Some(states[5])
  {
    var states := TenantStates(v, w);
    assert [BH][1..] == [] && Without([BH], BH) == [] && [] + [BH] == [BH];
    assert Location(states[3], "a", true) == Some((states[3], InReg(BH)));
    assert [] + [Put(BH, [v])] == [Put(BH, [v])];
    assert MarkInMem(states[4], "b").vars == states[5].vars;
    assert Location(states[4], "b", false) == Some((MarkInMem(states[4], "b"), InMem(-2, 8)));
    assert [Put(BH, [v])] + [PutMem(-2, [w])] == [Put(BH, [v]), PutMem(-2, [w])];
  }

  lemma TenantLoads(v: Byte, w: Byte)
    ensures var ops, states := TenantOps(v, w), TenantStates(v, w); Apply(states[5], ops[5]) == Some(states[6])
  {
    var s, t := TenantStates(v, w)[5], TenantStates(v, w)[6];
    assert REGS8[0] == BL && IsFree(BL, s.used);
    assert Obtain(s, 8) == Some((Take(s, BL), BL));
    assert s.used + {BL} == t.used;
    var loaded := LoadInto(Take(s, BL), s.vars["b"], BL);
    assert loaded.code == t.code;
    assert [BH][1..] == [] && Without([BH], BL) == [BH];
    assert [BH] + [BL] == [BH, BL];
    assert Place(loaded, "b", BL).vars == t.vars && Place(loaded, "b", BL).regs == t.regs;
    assert ToRegister(s, "b") == Some((t, BL));
  }

  lemma TenantRegs(v: Byte, w: Byte)
    ensures RegInv(TenantStates(v, w)[6])
  {
    var t := TenantStates(v, w)[6];
    assert Tracks(t.regs, t.vars) && VarsOk(t.vars);
    assert Permutes([BH, BL], {BH, BL});
    assert t.regs.Keys == {BH, BL};
    assert Apart({RBP, RSP, BH, BL});
  }

  /** What the load writes and what it leaves. */
  lemma TenantRuns(m: State, v: Byte, w: Byte)
    ensures ReadReg(Exec(TenantStates(v, w)[4].code, m), BH) == [v]
    ensures ReadReg(Exec(TenantStates(v, w)[6].code, m), BH) == [0]
  {
    hide ReadReg, WriteReg, ReadMem, WriteMem, Base;
    var put, store, zero, load := Put(BH, [v]), PutMem(-2, [w]), Zero(RBX), Load(BL, -2, 8);
    assert [put][..0] == [] && [put, store][..1] == [put];
    assert [put, store, zero][..2] == [put, store] && [put, store, zero, load][..3] == [put, store, zero];
    ReadWritten(m, BH, [v]);
    var before := Exec([put, store], m);
    ClearsHigh(before, ReadMem(Step(zero, before), Base(Step(zero, before)) - 2, 1));
  }

  lemma ClearsHigh(c: State, low: seq<Byte>)
    requires |low| == 1
    ensures ReadReg(WriteReg(WriteReg(c, RBX, [0, 0, 0, 0, 0, 0, 0, 0]), BL, low), BH) == [0]
  {
    WriteKeepsOthers(WriteReg(c, RBX, [0, 0, 0, 0, 0, 0, 0, 0]), BL, low, BH);
  }

  /** The allocator still has a in BH; the load of b has cleared it. */
  lemma TenantIsLost(m: State, v: Byte, w: Byte)
    requires v != 0
    ensures Reaches(TenantOps(v, w), TenantStates(v, w))
    ensures var t := TenantStates(v, w)[6];
            && t.vars["a"].inreg && t.vars["a"].reg == BH && RegInv(t)
            && ReadReg(Exec(TenantStates(v, w)[4].code, m), BH) == [v] && ReadReg(Exec(t.code, m), BH) == [0]
  {
    TenantDeclares(v, w);
    TenantSeated(v, w);
    TenantWrites(v, w);
    TenantLoads(v, w);
    TenantRegs(v, w);
    TenantRuns(m, v, w);
    hide Apply, RegInv, Exec, ReadReg;
    assert Reaches(TenantOps(v, w), TenantStates(v, w));
  }

  // ----- a byte that finds no register -----

  /** All byte registers but AL, taken by hand. */
  const OTHER_BYTES: seq<Reg> := [RBX, RCX, RDX, R8, R9, R10, R11, R12, R13, R14, R15]

  function UseOps(rs: seq<Reg>): seq<Op> {
    if rs == [] then [] else [UseOp(rs[0])] + UseOps(rs[1..])
  }

  ghost predicate OnesOwn(rs: seq<Reg>, used: set<Reg>) {
    && (forall i :: 0 <= i < |rs| ==> IsFree(rs[i], used))
    && (forall i, j :: 0 <= i < j < |rs| ==> !Overlap(rs[i], rs[j]))
  }

  lemma UseStep(s: Alloc, r: Reg)
    requires IsFree(r, s.used)
    ensures Legal(s, UseOp(r)) && Apply(s, UseOp(r)) == Some(Take(s, r))
  {
  }

  lemma StillFree(r: Reg, used: set<Reg>, u: Reg)
    requires IsFree(r, used) && !Overlap(u, r)
    ensures IsFree(r, used + {u})
  {
  }

  lemma {:induction false} UsesRun(s: Alloc, rs: seq<Reg>, rest: seq<Op>)
    requires OnesOwn(rs, s.used)
    ensures var t := s.(used := s.used + set r | r in rs);
            && (LegalRun(t, rest) ==> LegalRun(s, UseOps(rs) + rest))
            && (LegalRun(t, rest) ==> Run(s, UseOps(rs) + rest) == Run(t, rest))
    decreases rs
  {
    hide Overlap, Legal, Apply, IsFree;
    if rs == [] {
      assert s.used + (set r | r in rs) == s.used && UseOps(rs) + rest == rest;
    } else {
      var s1, all := Take(s, rs[0]), UseOps(rs) + rest;
      assert all[0] == UseOp(rs[0]) && all[1..] == UseOps(rs[1..]) + rest;
      UseStep(s, rs[0]);
      forall i | 0 <= i < |rs[1..]| ensures IsFree(rs[1..][i], s1.used) {
        assert rs[1..][i] == rs[i + 1];
        StillFree(rs[i + 1], s.used, rs[0]);
      }
      UsesRun(s1, rs[1..], rest);
      assert s1.used + (set r | r in rs[1..]) == s.used + set r | r in rs by {
        assert forall r: Reg :: r in rs <==> r == rs[0] || r in rs[1..];
      }
    }
  }

  /** Arguments in RSI and RAX, all other byte registers held by hand, and a byte. */
  function ByteOps(): seq<Op> {
    [ArgOp("a", RSI), ArgOp("b", RAX)] + (UseOps(OTHER_BYTES) + [NewLocalOp("c", 8)])
  }

  function TwoArgs(): Alloc { Arg(Arg(Initial(), "a", RSI), "b", RAX) }

  lemma TwoArgsAre()
    ensures var one, two := Arg(Initial(), "a", RSI), TwoArgs();
            && one.used == {RBP, RSP, RSI} && one.localoff == 8 && one.freeSpace == [] && one.vars.Keys == {"a"}
            && two.used == {RBP, RSP, RSI, RAX} && two.lru == [RSI, RAX] && two.localoff == 16 && two.freeSpace == []
            && two.vars.Keys == {"a", "b"}
  {
    var one := Arg(Initial(), "a", RSI);
    assert Space(Initial(), 8) == (Initial().(localoff := 8), -8);
    assert Without([], RSI) + [RSI] == [RSI] && IsFree(RSI, {RBP, RSP}) && {RBP, RSP} + {RSI} == {RBP, RSP, RSI};
    assert Space(one, 8) == (one.(localoff := 16), -16);
    assert [RSI][1..] == [] && Without([RSI], RAX) == [RSI] && [RSI] + [RAX] == [RSI, RAX];
    assert IsFree(RAX, one.used) && one.used + {RAX} == {RBP, RSP, RSI, RAX};
  }

  function Crowded(): Alloc { TwoArgs().(used := {RBP, RSP, RSI, RAX} + set r | r in OTHER_BYTES) }

  lemma CrowdedDeclares()
    ensures var t := NewLocal(Crowded(), "c", 8);
            && Legal(Crowded(), NewLocalOp("c", 8))
            && t.used == Crowded().used && t.lru == [RSI, RAX] && "c" in t.vars
            && t.vars["c"] == Var(8, true, false, false, false, RAX, -17)
  {
    hide TwoArgs, NewLocal, Legal;
    TwoArgsAre();
    DeclaresByte(Crowded());
  }

  lemma DeclaresByte(s: Alloc)
    requires s.localoff == 16 && s.freeSpace == [] && "c" !in s.vars
    ensures Legal(s, NewLocalOp("c", 8))
    ensures NewLocal(s, "c", 8) == s.(localoff := 17, vars := s.vars["c" := Var(8, true, false, false, false, RAX, -17)])
  {
    assert Space(s, 1) == (s.(localoff := 17), -17);
  }

  lemma LastStep(s: Alloc, op: Op)
    requires Legal(s, op) && Apply(s, op).Some?
    ensures LegalRun(s, [op]) && Run(s, [op]) == Apply(s, op).value
  {
    hide Apply, Legal;
    assert [op][1..] == [];
  }

  lemma NextStep(s: Alloc, op: Op, rest: seq<Op>)
    requires Legal(s, op) && Apply(s, op).Some? && LegalRun(Apply(s, op).value, rest)
    ensures LegalRun(s, [op] + rest) && Run(s, [op] + rest) == Run(Apply(s, op).value, rest)
  {
    hide Apply, Legal;
    assert ([op] + rest)[0] == op && ([op] + rest)[1..] == rest;
  }

  lemma SecondArg()
    ensures Legal(Initial(), ArgOp("a", RSI)) && Legal(Arg(Initial(), "a", RSI), ArgOp("b", RAX))
    ensures OnesOwn(OTHER_BYTES, {RBP, RSP, RSI, RAX})
  {
    TwoArgsAre();
    hide Arg;
  }

  lemma CrowdedRun()
    ensures LegalRun(Initial(), ByteOps()) && Run(Initial(), ByteOps()) == NewLocal(Crowded(), "c", 8)
  {
    hide Arg, NewLocal, Legal, Run, LegalRun, OnesOwn, UseOps;
    var last := NewLocalOp("c", 8);
    TwoArgsAre();
    SecondArg();
    CrowdedDeclares();
    LastStep(Crowded(), last);
    var rest := UseOps(OTHER_BYTES) + [last];
    UsesRun(TwoArgs(), OTHER_BYTES, [last]);
    NextStep(Arg(Initial(), "a", RSI), ArgOp("b", RAX), rest);
    NextStep(Initial(), ArgOp("a", RSI), [ArgOp("b", RAX)] + rest);
    assert ByteOps() == [ArgOp("a", RSI)] + ([ArgOp("b", RAX)] + rest);
  }

  lemma NoByteLeft(used: set<Reg>)
    requires used == {RBP, RSP, RSI, RAX} + set r | r in OTHER_BYTES
    ensures !Spare(8, used) && !Spare(8, used - {RSI}) && Spare(8, used - {RAX})
  {
    forall r: Reg | HasByte(r) ensures !IsFree(r, used) && !IsFree(r, used - {RSI}) {
      assert FullReg(r) in used && FullReg(r) != RSI && Overlap(FullReg(r), r);
    }
    assert IsFree(AL, used - {RAX}) && HasByte(AL);
  }

  /** A byte is refused a register although evicting b, from RAX, would leave one:
      the one used least recently is a, and RSI has no byte that is handed out. */
  lemma ByteIsRefused(m: State)
    ensures LegalRun(Initial(), ByteOps())
    ensures var t := Run(Initial(), ByteOps());
            && t.lru == [RSI, RAX] && "c" in t.vars && t.vars["c"].regable && t.vars["c"].size == 8 && !t.vars["c"].volatile
            && Spare(8, t.used - {RAX}) && Apply(t, RegisterOp("c")).None?
  {
    hide Run, LegalRun, RegInv, SlotInv, HandInv, Implements, Exec, NewLocal, Arg, ToRegister, Spare, RunEffect, UseOps, TwoArgs;
    CrowdedRun();
    CrowdedDeclares();
    InitialIsGood(m);
    RunRefines(Initial(), ByteOps(), m, map[]);
    var t := NewLocal(Crowded(), "c", 8);
    NoByteLeft(t.used);
    RegisterSucceeds(t, "c");
  }
}
