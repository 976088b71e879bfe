/** The stack frame around a function body (function.go, Prologue and Epilogue):
    whatever a run of the allocator emits in between, the caller finds its
    registers as it left them. */
module Frame {
  import opened Registers
  import opened Bytes
  import opened Machine
  import opened Allocation
  import opened AllocationInvariant
  import opened AllocationSlots
  import opened AllocationRefinement
  import opened AllocationRuns

  /** The registers that the prologue pushes. */
  const SAVED: seq<Reg> := [RBP, RBX, R12, R13, R14, R15]

  function Pushes(rs: seq<Reg>): seq<Instr> {
    if rs == [] then [] else Pushes(rs[..|rs| - 1]) + [Push(rs[|rs| - 1])]
  }

  /** Pops in the opposite order. */
  function Pops(rs: seq<Reg>): seq<Instr> {
    if rs == [] then [] else [Pop(rs[|rs| - 1])] + Pops(rs[..|rs| - 1])
  }

  function Prologue(frame: int): seq<Instr> { Pushes(SAVED) + [Mov(RBP, RSP), LowerSp(frame)] }

  function Epilogue(): seq<Instr> { [Mov(RSP, RBP)] + Pops(SAVED) }

  lemma Snoc(rs: seq<Reg>, r: Reg)
    ensures Pushes(rs + [r]) == Pushes(rs) + [Push(r)] && Pops(rs + [r]) == [Pop(r)] + Pops(rs)
  {
  }

  lemma SavedOneByOne()
    ensures Pushes(SAVED) == [Push(RBP), Push(RBX), Push(R12), Push(R13), Push(R14), Push(R15)]
    ensures Pops(SAVED) == [Pop(R15), Pop(R14), Pop(R13), Pop(R12), Pop(RBX), Pop(RBP)]
  {
    hide Pushes, Pops;
    Nothing();
    var none: seq<Reg> := [];
    assert none + [RBP] == [RBP] && [RBP] + [RBX] == [RBP, RBX] && [RBP, RBX] + [R12] == [RBP, RBX, R12];
    assert [RBP, RBX, R12] + [R13] == [RBP, RBX, R12, R13];
    assert [RBP, RBX, R12, R13] + [R14] == [RBP, RBX, R12, R13, R14];
    assert [RBP, RBX, R12, R13, R14] + [R15] == SAVED;
    Snoc(none, RBP);
    Snoc([RBP], RBX);
    Snoc([RBP, RBX], R12);
    Snoc([RBP, RBX, R12], R13);
    Snoc([RBP, RBX, R12, R13], R14);
    Snoc([RBP, RBX, R12, R13, R14], R15);
  }

  lemma Nothing()
    ensures Pushes([]) == [] && Pops([]) == []
  {
  }

  lemma PrologueIs(frame: int)
    ensures Prologue(frame) ==
            [Push(RBP), Push(RBX), Push(R12), Push(R13), Push(R14), Push(R15), Mov(RBP, RSP), LowerSp(frame)]
  {
    SavedOneByOne();
  }

  lemma EpilogueIs()
    ensures Epilogue() == [Mov(RSP, RBP), Pop(R15), Pop(R14), Pop(R13), Pop(R12), Pop(RBX), Pop(RBP)]
  {
    SavedOneByOne();
  }

  const TWO64: int := 0x1_0000_0000_0000_0000

  lemma AddressValue(a: int)
    requires 0 <= a < TWO64
    ensures Value(Address(a)) == a
  {
    assert Pow256(8) == TWO64;
    ValueOfLittleEndian(a, 8);
  }

  lemma SpRange(m: State)
    ensures 0 <= Sp(m) < TWO64 && Address(Sp(m)) == m.gpr[4]
    ensures 0 <= Base(m) < TWO64 && Address(Base(m)) == m.gpr[5]
  {
    assert Pow256(8) == TWO64;
    LittleEndianOfValue(m.gpr[4]);
    LittleEndianOfValue(m.gpr[5]);
  }

  ghost predicate FullRegisters(rs: seq<Reg>) {
    && (forall i :: 0 <= i < |rs| ==> rs[i].view.Qword? && rs[i].num != 4)
    && (forall i, j :: 0 <= i < j < |rs| ==> rs[i] != rs[j])
  }

  ghost predicate SameBut(m: State, t: State, num: int) {
    forall n :: 0 <= n < 16 && n != 4 && n != num ==> t.gpr[n] == m.gpr[n]
  }

  ghost predicate PushedOne(m: State, r: Reg, t: State) {
    && Sp(t) == Sp(m) - 8 && SameBut(m, t, 4) && ReadMem(t, Sp(m) - 8, 8) == m.gpr[r.num]
    && forall a :: a >= Sp(m) ==> t.mem(a) == m.mem(a)
  }

  lemma PushStep(m: State, r: Reg)
    requires r.view.Qword? && Sp(m) >= 8
    ensures PushedOne(m, r, Step(Push(r), m))
  {
    SpRange(m);
    AddressValue(Sp(m) - 8);
    hide Address, Value;
    ReadMemWritten(m, Sp(m) - 8, ReadReg(m, r));
    var w := WriteMem(m, Sp(m) - 8, ReadReg(m, r));
    SameMemory(w, Step(Push(r), m), Sp(m) - 8, 8);
  }

  ghost predicate PoppedOne(m: State, r: Reg, t: State) {
    && Sp(t) == Sp(m) + 8 && t.mem == m.mem && t.gpr[r.num] == ReadMem(m, Sp(m), 8) && SameBut(m, t, r.num)
  }

  lemma PopStep(m: State, r: Reg)
    requires r.view.Qword? && r.num != 4 && Sp(m) + 8 < TWO64
    ensures PoppedOne(m, r, Step(Pop(r), m))
  {
    hide ReadMem, LittleEndian;
    SpRange(m);
    AddressValue(Sp(m) + 8);
    hide Value, Address;
    var u, v := WriteReg(m, RSP, Address(Sp(m) + 8)), ReadMem(m, Sp(m), 8);
    assert u.gpr == m.gpr[4 := Address(Sp(m) + 8)] && u.mem == m.mem;
    assert Step(Pop(r), m) == u.(gpr := u.gpr[r.num := v]);
  }

  /** The registers lie one below the other under the old stack pointer. */
  ghost predicate Stacked(rs: seq<Reg>, m: State, t: State) {
    && Sp(t) == Sp(m) - 8 * |rs| && SameBut(m, t, 4)
    && forall i :: 0 <= i < |rs| ==> ReadMem(t, Sp(m) - 8 * (i + 1), 8) == m.gpr[rs[i].num]
  }

  lemma StackOne(rs: seq<Reg>, r: Reg, m: State, u: State, t: State)
    requires Stacked(rs, m, u) && PushedOne(u, r, t) && r.num != 4
    ensures Stacked(rs + [r], m, t)
  {
  }

  lemma {:induction false} Pushed(rs: seq<Reg>, m: State)
    requires FullRegisters(rs) && Sp(m) >= 8 * |rs|
    ensures Stacked(rs, m, Exec(Pushes(rs), m))
  {
    hide Sp, ReadMem, Step, PushedOne;
    if rs != [] {
      var most, r := rs[..|rs| - 1], rs[|rs| - 1];
      Pushed(most, m);
      ExecSnoc(Pushes(most), Push(r), m);
      var u := Exec(Pushes(most), m);
      PushStep(u, r);
      StackOne(most, r, m, u, Step(Push(r), u));
      assert most + [r] == rs;
    }
  }

  /** The registers have been filled from the stack, the last one first. */
  ghost predicate Unstacked(rs: seq<Reg>, m: State, t: State) {
    && Sp(t) == Sp(m) + 8 * |rs| && t.mem == m.mem
    && (forall i :: 0 <= i < |rs| ==> t.gpr[rs[i].num] == ReadMem(m, Sp(m) + 8 * (|rs| - 1 - i), 8))
    && (forall n :: 0 <= n < 16 && n != 4 && (forall i :: 0 <= i < |rs| ==> rs[i].num != n) ==> t.gpr[n] == m.gpr[n])
  }

  lemma UnstackOne(rs: seq<Reg>, r: Reg, m: State, u: State, t: State)
    requires PoppedOne(m, r, u) && Unstacked(rs, u, t) && r.num != 4 && forall i :: 0 <= i < |rs| ==> rs[i].num != r.num
    ensures Unstacked(rs + [r], m, t)
  {
    hide Sp, ReadMem;
    var all := rs + [r];
    forall i | 0 <= i < |all| ensures t.gpr[all[i].num] == ReadMem(m, Sp(m) + 8 * (|all| - 1 - i), 8) {
      if i < |rs| { SameMemory(m, u, Sp(u) + 8 * (|rs| - 1 - i), 8); }
    }
    forall n | 0 <= n < 16 && n != 4 && (forall i :: 0 <= i < |all| ==> all[i].num != n) ensures t.gpr[n] == m.gpr[n] {
      assert all[|rs|] == r;
      forall i | 0 <= i < |rs| ensures rs[i].num != n { assert all[i] == rs[i]; }
    }
  }

  lemma {:induction false} Popped(rs: seq<Reg>, m: State)
    requires FullRegisters(rs) && Sp(m) + 8 * |rs| < TWO64
    ensures Unstacked(rs, m, Exec(Pops(rs), m))
  {
    hide Sp, ReadMem, Step, PoppedOne;
    if rs != [] {
      var most, r := rs[..|rs| - 1], rs[|rs| - 1];
      var u := Step(Pop(r), m);
      PopStep(m, r);
      ExecOne(Pop(r), m);
      ExecAppend([Pop(r)], Pops(most), m);
      PoppedSp(m, r, u);
      Popped(most, u);
      UnstackOne(most, r, m, u, Exec(Pops(most), u));
      assert most + [r] == rs;
    }
  }

  lemma PoppedSp(m: State, r: Reg, t: State)
    requires PoppedOne(m, r, t)
    ensures Sp(t) == Sp(m) + 8
  {
  }

  lemma ExecOne(i: Instr, m: State)
    ensures Exec([i], m) == Step(i, m)
  {
  }

  /** RBP and the bytes between it and the stack arguments are what they were. */
  ghost predicate SavedKept(m: State, t: State) {
    t.gpr[5] == m.gpr[5] && forall a :: Base(m) <= a < Base(m) + SAVED_SIZE + 8 ==> t.mem(a) == m.mem(a)
  }

  lemma TameStep(i: Instr, m: State)
    requires Tame(i)
    ensures SavedKept(m, Step(i, m))
  {
  }

  lemma {:induction false} TameKeepsSaved(code: seq<Instr>, m: State)
    requires TameCode(code)
    ensures SavedKept(m, Exec(code, m))
  {
    if code != [] {
      TameKeepsSaved(code[..|code| - 1], m);
      TameStep(code[|code| - 1], Exec(code[..|code| - 1], m));
    }
  }

  /** The registers of m lie in order above RBP in t. */
  ghost predicate Saves(t: State, m: State) {
    forall i :: 0 <= i < |SAVED| ==> ReadMem(t, Base(t) + 8 * (|SAVED| - 1 - i), 8) == m.gpr[SAVED[i].num]
  }

  /** The state in which the body starts. */
  lemma AfterPrologue(frame: int, m: State)
    requires Sp(m) >= SAVED_SIZE
    ensures var t := Exec(Prologue(frame), m);
            Base(t) == Sp(m) - SAVED_SIZE && Saves(t, m)
  {
    hide Sp, Value, ReadMem, Address, Step, Exec, Pushes, WriteReg;
    Pushed(SAVED, m);
    var u := Exec(Pushes(SAVED), m);
    ExecAppend(Pushes(SAVED), [Mov(RBP, RSP), LowerSp(frame)], m);
    ExecOne(Mov(RBP, RSP), u);
    ExecSnoc([Mov(RBP, RSP)], LowerSp(frame), u);
    assert [Mov(RBP, RSP)] + [LowerSp(frame)] == [Mov(RBP, RSP), LowerSp(frame)];
    FrameBase(u, frame);
    SavedInFrame(m, u, Exec(Prologue(frame), m));
  }

  lemma FrameBase(u: State, frame: int)
    ensures var t := Step(LowerSp(frame), Step(Mov(RBP, RSP), u));
            Base(t) == Sp(u) && t.mem == u.mem
  {
  }

  lemma SavedInFrame(m: State, u: State, t: State)
    requires Stacked(SAVED, m, u) && Base(t) == Sp(u) && t.mem == u.mem
    ensures Base(t) == Sp(m) - SAVED_SIZE && Saves(t, m)
  {
  }

  /** From any state with the saved bytes in place, the epilogue restores. */
  lemma EpilogueRestores(m: State, t: State)
    requires Sp(m) >= SAVED_SIZE && Base(t) == Sp(m) - SAVED_SIZE && Saves(t, m)
    ensures forall r <- CALLEE_SAVED :: ReadReg(Exec(Epilogue(), t), r) == ReadReg(m, r)
  {
    hide Value, ReadMem, Address, Step, Exec, Pops, Sp, ReadReg;
    var u := Step(Mov(RSP, RBP), t);
    SpRange(m);
    ExecOne(Mov(RSP, RBP), t);
    ExecAppend([Mov(RSP, RBP)], Pops(SAVED), t);
    FrameTop(t);
    Popped(SAVED, u);
    RegistersBack(m, t, u, Exec(Pops(SAVED), u));
  }

  lemma FrameTop(t: State)
    ensures Sp(Step(Mov(RSP, RBP), t)) == Base(t) && Step(Mov(RSP, RBP), t).mem == t.mem
  {
  }

  lemma RegistersBack(m: State, t: State, u: State, w: State)
    requires Saves(t, m) && Base(t) == Sp(m) - SAVED_SIZE
    requires Sp(u) == Base(t) && u.mem == t.mem && Unstacked(SAVED, u, w)
    ensures forall r <- CALLEE_SAVED :: ReadReg(w, r) == ReadReg(m, r)
  {
    hide ReadMem, Value, Address;
    SpRange(m);
    SpRange(w);
    hide Sp, Base;
    forall i | 0 <= i < |SAVED| ensures w.gpr[SAVED[i].num] == m.gpr[SAVED[i].num] {
      SameMemory(t, u, Base(t) + 8 * (|SAVED| - 1 - i), 8);
    }
    assert SAVED[0] == RBP && SAVED[1] == RBX && SAVED[2] == R12 && SAVED[3] == R13 && SAVED[4] == R14 &&
           SAVED[5] == R15;
  }

  /** A whole function: after the prologue, any run of the allocator, and the
      epilogue, every callee-saved register, RSP and RBP among them, has the
      value it had on entry. */
  lemma CalleeSavedRestored(ops: seq<Op>, m: State)
    requires LegalRun(Initial(), ops) && Sp(m) >= SAVED_SIZE
    ensures var s := Run(Initial(), ops);
            var exit := Exec(Prologue(FrameSize(s.localoff)) + s.code + Epilogue(), m);
            forall r <- CALLEE_SAVED :: ReadReg(exit, r) == ReadReg(m, r)
  {
    hide Prologue, Epilogue, Exec, Run, LegalRun, Sp, ReadReg;
    var s := Run(Initial(), ops);
    var enter := Prologue(FrameSize(s.localoff));
    AfterPrologue(FrameSize(s.localoff), m);
    var t := Exec(enter, m);
    InitialIsGood(t);
    RunRefines(Initial(), ops, t, map[]);
    BodyKeepsSaved(s, t, RunEffect(Initial(), ops, t, map[]));
    ExecAppend(enter, s.code, m);
    ExecAppend(enter + s.code, Epilogue(), m);
    SavesKept(m, t, Exec(s.code, t));
    EpilogueRestores(m, Exec(s.code, t));
  }

  lemma BodyKeepsSaved(s: Alloc, m: State, st: Store)
    requires Good(s, m, st)
    ensures SavedKept(m, Exec(s.code, m))
  {
    TameKeepsSaved(s.code, m);
  }

  lemma SavesKept(m: State, t: State, u: State)
    requires Saves(t, m) && SavedKept(t, u)
    ensures Saves(u, m) && Base(u) == Base(t)
  {
  }
}
