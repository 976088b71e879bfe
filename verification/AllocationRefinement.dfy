/** Executing the code that the allocator emits keeps the value of every live
    allocation: the registers and the stack together implement a plain map from
    names to values. */
module AllocationRefinement {
  import opened Wrappers
  import opened Registers
  import opened RegisterFile
  import opened Bytes
  import opened Machine
  import opened Allocation
  import opened AllocationInvariant
  import opened AllocationSlots

  /** The specification: the value of every allocation that has one. */
  type Store = map<string, seq<Byte>>

  /** Where the value of an allocation is: in its register, if it is regable and
      has one, and in its slot otherwise. */
  ghost predicate Holds(v: Var, m: State, val: seq<Byte>) {
    if v.regable && v.inreg then ReadReg(m, v.reg) == val
    else v.inmem && ReadMem(m, Base(m) + v.offset, |val|) == val
  }

  ghost predicate Implements(vars: map<string, Var>, m: State, st: Store) {
    && (forall n :: n in st ==> n in vars && |st[n]| == SlotBytes(vars[n]) && Holds(vars[n], m, st[n]))
    && (forall n :: n in vars && !vars[n].regable ==>
          n in st && (vars[n].inreg ==> ReadReg(m, vars[n].reg) == Address(Base(m) + vars[n].offset)))
  }

  /** RBP is held by hand, and no allocation lives in AH, BH, CH or DH. */
  ghost predicate HandInv(s: Alloc) {
    RBP in s.used && RBP !in s.regs && forall r: Reg :: r in s.regs ==> !r.view.High8?
  }

  /** The bytes between RBP and the stack arguments hold the saved registers and
      the return address. */
  predicate BesideSaved(off: int, n: int) { n >= 0 && (off + n <= 0 || off >= SAVED_SIZE + 8) }

  /** An instruction that keeps RBP and writes memory only beside the saved registers. */
  predicate Tame(i: Instr) {
    match i
    case Mov(dst, _) => !Overlap(dst, RBP)
    case Load(dst, _, _) => !Overlap(dst, RBP)
    case Lea(dst, _) => !Overlap(dst, RBP)
    case Zero(full) => !Overlap(full, RBP)
    case Put(dst, _) => !Overlap(dst, RBP)
    case Store(off, size, _) => BesideSaved(off, size / 8)
    case PutMem(off, val) => BesideSaved(off, |val|)
    case Call(_, _, frame) => frame >= 0
    case Jump(_) => true
    case Label(_) => true
    case _ => false
  }

  ghost predicate TameCode(code: seq<Instr>) { forall k :: 0 <= k < |code| ==> Tame(code[k]) }

  ghost predicate Inv(s: Alloc) { RegInv(s) && SlotInv(s) && HandInv(s) && TameCode(s.code) }

  /** The allocator's state is sound, and running its code from m implements st. */
  ghost predicate Good(s: Alloc, m: State, st: Store) {
    Inv(s) && Implements(s.vars, Exec(s.code, m), st)
  }

  /** A register may be overwritten when it shares no bits with RBP or with a
      tracked one. */
  ghost predicate Scratch(s: Alloc, r: Reg) {
    !Overlap(r, RBP) && forall u: Reg :: u in s.regs ==> !Overlap(r, u)
  }

  lemma RegWriteKeeps(vars: map<string, Var>, m: State, st: Store, r: Reg, v: seq<Byte>)
    requires Implements(vars, m, st) && |v| == Width(r) / 8 && !Overlap(r, RBP)
    requires forall n :: n in vars && vars[n].inreg ==> !Overlap(r, vars[n].reg)
    ensures Implements(vars, WriteReg(m, r, v), st) && Base(WriteReg(m, r, v)) == Base(m)
  {
    hide ReadReg, WriteReg, ReadMem, Address, Value;
    var m' := WriteReg(m, r, v);
    WriteKeepsOthers(m, r, v, RBP);
    forall n | n in vars && vars[n].inreg ensures ReadReg(m', vars[n].reg) == ReadReg(m, vars[n].reg) {
      WriteKeepsOthers(m, r, v, vars[n].reg);
    }
    WriteKeepsMemory(m, r, v);
    forall n | n in st && Holds(vars[n], m, st[n]) ensures Holds(vars[n], m', st[n]) {
      SameMemory(m, m', Base(m) + vars[n].offset, |st[n]|);
    }
  }

  lemma SameRegisters(m: State, m': State, r: Reg)
    requires m.gpr == m'.gpr
    ensures ReadReg(m', r) == ReadReg(m, r)
  {
  }

  lemma SameMemory(m: State, m': State, addr: int, n: nat)
    requires m.mem == m'.mem
    ensures ReadMem(m', addr, n) == ReadMem(m, addr, n)
  {
  }

  /** Writing the slot of one allocation leaves the values of the others. */
  lemma SlotWriteKeeps(s: Alloc, m: State, st: Store, n: string, v: seq<Byte>)
    requires SlotInv(s) && Implements(s.vars, m, st) && n in s.vars && |v| == SlotBytes(s.vars[n])
    ensures var m' := WriteMem(m, Base(m) + s.vars[n].offset, v);
            && m'.gpr == m.gpr && Base(m') == Base(m)
            && ReadMem(m', Base(m) + s.vars[n].offset, |v|) == v
            && (forall k :: k in st && k != n ==> Holds(s.vars[k], m', st[k]))
  {
  }

  lemma EvictVarInv(s: Alloc, n: string)
    requires Inv(s) && n in s.vars && s.vars[n].inreg
    ensures Inv(EvictVar(s, n))
  {
    hide Overlap, Apart, Permutes, Without, SlotInv, Width, VarsOk;
    EvictVarKeeps(s, n);
    SameSlotsKeep(s, EvictVar(s, n));
    assert s.vars[n].reg in s.regs;
    if s.vars[n].regable { StoreIsTame(s, n); }
  }

  lemma StoreIsTame(s: Alloc, n: string)
    requires RegInv(s) && SlotInv(s) && n in s.vars && s.vars[n].inreg && s.vars[n].regable
    ensures Tame(Store(s.vars[n].offset, RegSize(s.vars[n]), s.vars[n].reg))
  {
  }

  lemma EvictVarImplements(s: Alloc, c: State, st: Store, n: string)
    requires SlotInv(s) && n in s.vars && VarOk(s.vars[n]) && s.vars[n].inreg && Implements(s.vars, c, st)
    ensures var v := s.vars[n];
            Implements(EvictVar(s, n).vars, if v.regable then Step(Store(v.offset, RegSize(v), v.reg), c) else c, st)
  {
    hide ReadReg, ReadMem, Address, Base, SlotInv, WriteMem, WriteReg, Without;
    var v := s.vars[n];
    if v.regable {
      SlotWriteKeeps(s, c, st, n, ReadReg(c, v.reg));
      var c' := Step(Store(v.offset, RegSize(v), v.reg), c);
      assert c' == WriteMem(c, Base(c) + v.offset, ReadReg(c, v.reg));
      forall k | k in s.vars && s.vars[k].inreg ensures ReadReg(c', s.vars[k].reg) == ReadReg(c, s.vars[k].reg) {
        SameRegisters(c, c', s.vars[k].reg);
      }
    }
  }

  lemma EvictVarGood(s: Alloc, m: State, st: Store, n: string)
    requires Good(s, m, st) && n in s.vars && s.vars[n].inreg
    ensures Good(EvictVar(s, n), m, st)
  {
    var v := s.vars[n];
    EvictVarInv(s, n);
    EvictVarImplements(s, Exec(s.code, m), st, n);
    ExecSnoc(s.code, Store(v.offset, RegSize(v), v.reg), m);
  }

  lemma {:induction false} EvictRegsGood(s: Alloc, m: State, st: Store, rs: seq<Reg>)
    requires Good(s, m, st)
    ensures Good(EvictRegs(s, rs), m, st)
    decreases rs
  {
    if rs != [] {
      if rs[0] in s.regs { EvictVarGood(s, m, st, s.regs[rs[0]]); }
      EvictRegsGood(if rs[0] in s.regs then EvictVar(s, s.regs[rs[0]]) else s, m, st, rs[1..]);
    }
  }

  lemma {:induction false} EvictEachGood(s: Alloc, m: State, st: Store, rs: seq<Reg>)
    requires Good(s, m, st)
    ensures Good(EvictEach(s, rs), m, st)
    decreases rs
  {
    if rs != [] {
      EvictRegsGood(s, m, st, ConflictsOf(rs[0], s.used));
      EvictEachGood(EvictReg(s, rs[0]), m, st, rs[1..]);
    }
  }

  lemma TakeGood(s: Alloc, m: State, st: Store, r: Reg)
    requires Good(s, m, st) && IsFree(r, s.used)
    ensures Good(Take(s, r), m, st) && Scratch(s, r) && r !in s.regs
  {
  }

  /** A register obtained for an allocation is taken, tracked by no one, and may
      be overwritten. */
  lemma ObtainGood(s: Alloc, m: State, st: Store, size: int)
    requires Good(s, m, st) && ValidSize(size) && Obtain(s, size).Some?
    ensures var (t, r) := Obtain(s, size).value;
            Good(t, m, st) && Scratch(t, r) && r in t.used && r !in t.regs && Width(r) == size && !r.view.High8?
  {
    ObtainKeeps(s, size);
    ChoiceIsFree(size, s.used);
    if Choice(size, s.used).Some? {
      TakeGood(s, m, st, Choice(size, s.used).value);
    } else {
      var rs := [Victim(s.lru, size).value];
      EvictRegsGood(s, m, st, rs);
      var s1 := EvictRegs(s, rs);
      ChoiceIsFree(size, s1.used);
      TakeGood(s1, m, st, Choice(size, s1.used).value);
    }
  }

  lemma EmitInv(s: Alloc, i: Instr)
    requires Inv(s) && Tame(i)
    ensures Inv(Emit(s, i))
  {
  }

  /** An instruction that writes only a scratch register. */
  lemma ScratchGood(s: Alloc, m: State, st: Store, i: Instr, r: Reg, v: seq<Byte>)
    requires Good(s, m, st) && Scratch(s, r) && |v| == Width(r) / 8 && Tame(i)
    requires Step(i, Exec(s.code, m)) == WriteReg(Exec(s.code, m), r, v)
    ensures Good(Emit(s, i), m, st)
    ensures ReadReg(Exec(Emit(s, i).code, m), r) == v
    ensures Base(Exec(Emit(s, i).code, m)) == Base(Exec(s.code, m))
  {
    EmitInv(s, i);
    ExecSnoc(s.code, i, m);
    var c := Exec(s.code, m);
    assert forall n :: n in s.vars && s.vars[n].inreg ==> s.vars[n].reg in s.regs;
    RegWriteKeeps(s.vars, c, st, r, v);
    ReadWritten(c, r, v);
  }

  lemma PlaceInv(s: Alloc, n: string, r: Reg)
    requires Inv(s) && n in s.vars && !s.vars[n].inreg && !s.vars[n].volatile
    requires r in s.used && r !in s.regs && !r.view.High8? && r != RBP
    requires Width(r) == if s.vars[n].regable then s.vars[n].size else 64
    ensures Inv(Place(s, n, r))
  {
    PlaceKeeps(s, n, r);
    SameSlotsKeep(s, Place(s, n, r));
  }

  /** Whether a register holds what an allocation placed in it should have there. */
  ghost predicate Carries(s: Alloc, c: State, st: Store, n: string, r: Reg)
    requires n in s.vars
  {
    if s.vars[n].regable then n in st ==> ReadReg(c, r) == st[n]
    else ReadReg(c, r) == Address(Base(c) + s.vars[n].offset)
  }

  /** Placing an allocation in a register that already holds its value. */
  lemma PlaceGood(s: Alloc, m: State, st: Store, n: string, r: Reg)
    requires Good(s, m, st) && n in s.vars && !s.vars[n].inreg && !s.vars[n].volatile
    requires r in s.used && r !in s.regs && !r.view.High8? && r != RBP
    requires Width(r) == if s.vars[n].regable then s.vars[n].size else 64
    requires Carries(s, Exec(s.code, m), st, n, r)
    ensures Good(Place(s, n, r), m, st)
  {
    hide ReadReg, ReadMem, Address, Base, SlotInv, Exec;
    PlaceInv(s, n, r);
    PlaceImplements(s.vars, Exec(s.code, m), st, n, r);
  }

  lemma PlaceImplements(vars: map<string, Var>, c: State, st: Store, n: string, r: Reg)
    requires Implements(vars, c, st) && n in vars
    requires if vars[n].regable then n in st ==> ReadReg(c, r) == st[n] else ReadReg(c, r) == Address(Base(c) + vars[n].offset)
    requires !vars[n].regable ==> vars[n].inmem
    ensures Implements(vars[n := vars[n].(reg := r, inreg := true)], c, st)
  {
    hide ReadReg, ReadMem, Address, Value;
  }

  // ----- loading an allocation into a register -----

  /** The load into a byte register clears the whole register first: no tracked
      register may be its brother. */
  lemma FullIsScratch(s: Alloc, r: Reg)
    requires HandInv(s) && Scratch(s, r) && !r.view.High8? && r !in s.regs
    ensures Scratch(s, FullReg(r))
  {
  }

  lemma LoadGood(s: Alloc, m: State, st: Store, n: string, r: Reg)
    requires Good(s, m, st) && n in s.vars && s.vars[n].regable && !s.vars[n].inreg
    requires Scratch(s, r) && Width(r) == s.vars[n].size && r !in s.regs
    ensures Good(Emit(s, Load(r, s.vars[n].offset, RegSize(s.vars[n]))), m, st)
    ensures n in st ==> ReadReg(Exec(Emit(s, Load(r, s.vars[n].offset, RegSize(s.vars[n]))).code, m), r) == st[n]
  {
    hide Base, ReadReg, WriteReg, ReadMem, RegInv, SlotInv, HandInv, Exec;
    var v, c := s.vars[n], Exec(s.code, m);
    var i := Load(r, v.offset, RegSize(v));
    assert Step(i, c) == WriteReg(c, r, ReadMem(c, Base(c) + v.offset, v.size / 8));
    ScratchGood(s, m, st, i, r, ReadMem(c, Base(c) + v.offset, v.size / 8));
  }

  lemma LoadIntoGood(s: Alloc, m: State, st: Store, n: string, r: Reg)
    requires Good(s, m, st) && n in s.vars && s.vars[n].regable && !s.vars[n].inreg
    requires Scratch(s, r) && Width(r) == s.vars[n].size && r !in s.regs && !r.view.High8?
    ensures Good(LoadInto(s, s.vars[n], r), m, st)
    ensures n in st ==> ReadReg(Exec(LoadInto(s, s.vars[n], r).code, m), r) == st[n]
  {
    hide Base, ReadReg, WriteReg, ReadMem, RegInv, SlotInv, Exec, Implements;
    if Width(r) < 64 {
      FullIsScratch(s, r);
      ScratchGood(s, m, st, Zero(FullReg(r)), FullReg(r), [0, 0, 0, 0, 0, 0, 0, 0]);
      LoadGood(Emit(s, Zero(FullReg(r))), m, st, n, r);
    } else {
      LoadGood(s, m, st, n, r);
    }
  }

  /** Why AH, BH, CH and DH are excluded: the load of a byte clears the brother
      of its register, so that an allocation living there keeps its value
      exactly if that value is zero. */
  lemma LoadClearsBrother(s: Alloc, m: State, v: Var, r: Reg, tenant: Var, val: seq<Byte>)
    requires r.view.Low8? && Brother8(r).Some? && v.regable && !v.inreg && v.size == 8
    requires tenant.regable && tenant.inreg && tenant.reg == Brother8(r).value
    ensures Holds(tenant, Exec(LoadInto(s, v, r).code, m), val) <==> val == [0]
  {
  }

  lemma LeaGood(s: Alloc, m: State, st: Store, n: string, r: Reg)
    requires Good(s, m, st) && n in s.vars && !s.vars[n].regable && Scratch(s, r) && Width(r) == 64
    ensures Good(Emit(s, Lea(r, s.vars[n].offset)), m, st)
    ensures Carries(s, Exec(Emit(s, Lea(r, s.vars[n].offset)).code, m), st, n, r)
  {
    hide Base, ReadReg, WriteReg, ReadMem, RegInv, SlotInv, HandInv, Exec, Implements, LittleEndian;
    var c := Exec(s.code, m);
    var i := Lea(r, s.vars[n].offset);
    assert Step(i, c) == WriteReg(c, r, Address(Base(c) + s.vars[n].offset));
    ScratchGood(s, m, st, i, r, Address(Base(c) + s.vars[n].offset));
  }

  lemma TouchGood(s: Alloc, m: State, st: Store, r: Reg)
    requires Good(s, m, st) && r in s.regs
    ensures Good(Touch(s, r), m, st)
  {
    hide Exec, Implements;
    TouchKeeps(s, r);
    SameSlotsKeep(s, Touch(s, r));
  }

  lemma ToRegisterGood(s: Alloc, m: State, st: Store, n: string)
    requires Good(s, m, st) && n in s.vars && ToRegister(s, n).Some?
    ensures var (t, r) := ToRegister(s, n).value;
            Good(t, m, st) && t.vars[n].inreg && t.vars[n].reg == r
  {
    hide Base, ReadReg, WriteReg, ReadMem, SlotInv, Exec, Implements, LoadInto;
    var v := s.vars[n];
    if v.inreg {
      TouchGood(s, m, st, v.reg);
    } else {
      var size := if v.regable then v.size else 64;
      ObtainGood(s, m, st, size);
      ObtainKeepsOther(s, size, n);
      var (s1, r) := Obtain(s, size).value;
      PlaceLoaded(s1, m, st, n, r);
    }
  }

  lemma PlaceLoadInto(s: Alloc, m: State, st: Store, n: string, r: Reg)
    requires Good(s, m, st) && n in s.vars && !s.vars[n].inreg && !s.vars[n].volatile && s.vars[n].regable
    requires Scratch(s, r) && r in s.used && r !in s.regs && !r.view.High8? && r != RBP && Width(r) == s.vars[n].size
    ensures Good(Place(LoadInto(s, s.vars[n], r), n, r), m, st)
  {
    hide Base, ReadReg, RegInv, SlotInv, HandInv, Exec, Implements, Place, Good, Overlap, Scratch, Step;
    LoadIntoGood(s, m, st, n, r);
    PlaceGood(LoadInto(s, s.vars[n], r), m, st, n, r);
  }

  lemma PlaceAddress(s: Alloc, m: State, st: Store, n: string, r: Reg)
    requires Good(s, m, st) && n in s.vars && !s.vars[n].inreg && !s.vars[n].volatile && !s.vars[n].regable
    requires Scratch(s, r) && r in s.used && r !in s.regs && !r.view.High8? && r != RBP && Width(r) == 64
    ensures Good(Place(Emit(s, Lea(r, s.vars[n].offset)), n, r), m, st)
  {
    hide Base, ReadReg, RegInv, SlotInv, HandInv, Exec, Implements, Place, Good, Overlap, Scratch, Step;
    LeaGood(s, m, st, n, r);
    PlaceGood(Emit(s, Lea(r, s.vars[n].offset)), m, st, n, r);
  }

  /** The load that fits an allocation, and the move into its place. */
  lemma PlaceLoaded(s: Alloc, m: State, st: Store, n: string, r: Reg)
    requires Good(s, m, st) && n in s.vars && !s.vars[n].inreg && !s.vars[n].volatile
    requires Scratch(s, r) && r in s.used && r !in s.regs && !r.view.High8?
    requires Width(r) == if s.vars[n].regable then s.vars[n].size else 64
    ensures var v := s.vars[n];
            var s2 := if !v.regable then Emit(s, Lea(r, v.offset)) else if v.inmem then LoadInto(s, v, r) else s;
            Good(Place(s2, n, r), m, st)
  {
    assert r != RBP by { assert Scratch(s, r) && Overlap(RBP, RBP); }
    hide ReadReg, Exec, Place, Good, LoadInto, Scratch, Width;
    var v := s.vars[n];
    if !v.regable {
      PlaceAddress(s, m, st, n, r);
    } else if v.inmem {
      PlaceLoadInto(s, m, st, n, r);
    } else {
      NotStored(s, m, st, n);
      PlaceGood(s, m, st, n, r);
    }
  }

  // ----- one particular register -----

  lemma ClearedGood(s: Alloc, m: State, st: Store, n: string, r: Reg)
    requires Good(s, m, st) && Usable(s, n, r) && !r.view.High8? && r != RBP
    ensures var c := Cleared(s, r);
            Good(c, m, st) && Scratch(c, r) && r in c.used && r !in c.regs && r != RBP && SameSlots(s, c) &&
            c.vars[n].volatile == s.vars[n].volatile
  {
    hide Exec, Implements, SlotInv;
    ClearedKeeps(s, n, r);
    EvictRegsGood(s, m, st, ConflictsOf(r, s.used));
    var s1 := if IsFree(r, s.used) then s else EvictReg(s, r);
    if IsFree(r, s1.used) { TakeGood(s1, m, st, r); }
  }

  lemma RelocateImplements(vars: map<string, Var>, c: State, st: Store, n: string, r: Reg)
    requires Implements(vars, c, st) && n in vars && vars[n].inreg && ReadReg(c, r) == ReadReg(c, vars[n].reg)
    ensures Implements(vars[n := vars[n].(reg := r, inreg := true)], c, st)
  {
    hide ReadReg, ReadMem, Base, Address;
  }

  lemma MovedInv(s: Alloc, n: string, r: Reg)
    requires Inv(s) && n in s.vars && s.vars[n].inreg && r in s.used && r !in s.regs && !r.view.High8? && r != RBP
    requires Width(r) == if s.vars[n].regable then s.vars[n].size else 64
    ensures Inv(Moved(s, n, r))
  {
    MoveKeeps(s, n, r);
    SameSlotsKeep(s, Moved(s, n, r));
    assert s.vars[n].reg in s.regs;
  }

  lemma MovedGood(s: Alloc, m: State, st: Store, n: string, r: Reg)
    requires Good(s, m, st) && n in s.vars && s.vars[n].inreg && Scratch(s, r)
    requires r in s.used && r !in s.regs && !r.view.High8? && r != RBP
    requires Width(r) == if s.vars[n].regable then s.vars[n].size else 64
    ensures Good(Moved(Emit(s, Mov(r, s.vars[n].reg)), n, r), m, st)
  {
    hide Base, ReadReg, WriteReg, ReadMem, SlotInv, HandInv, Exec, Implements, Without;
    var v, c := s.vars[n], Exec(s.code, m);
    var i := Mov(r, v.reg);
    assert Width(v.reg) == Width(r);
    assert Step(i, c) == WriteReg(c, r, ReadReg(c, v.reg));
    ScratchGood(s, m, st, i, r, ReadReg(c, v.reg));
    var s1 := Emit(s, i);
    var c1 := Exec(s1.code, m);
    ExecSnoc(s.code, i, m);
    assert !Overlap(r, v.reg) by { assert v.reg in s.regs; }
    WriteKeepsOthers(c, r, ReadReg(c, v.reg), v.reg);
    MovedInv(s1, n, r);
    RelocateImplements(s1.vars, c1, st, n, r);
    assert Moved(s1, n, r).vars == s1.vars[n := v.(reg := r, inreg := true)];
  }

  lemma SeatGood(s: Alloc, m: State, st: Store, n: string, r: Reg)
    requires Good(s, m, st) && n in s.vars && !s.vars[n].volatile && Scratch(s, r) && r in s.used && r !in s.regs
    requires !r.view.High8? && r != RBP && (!s.vars[n].regable ==> r.view.Qword?) && Seat(s, n, r).Some?
    ensures Good(Seat(s, n, r).value, m, st)
  {
    hide Base, ReadReg, WriteReg, ReadMem, SlotInv, HandInv, Exec, Implements, Moved, Place, Good, Overlap;
    var v := s.vars[n];
    if v.inreg {
      MovedGood(s, m, st, n, r);
    } else if v.inmem {
      if v.regable {
        LoadGood(s, m, st, n, r);
        PlaceGood(Emit(s, Load(r, v.offset, RegSize(v))), m, st, n, r);
      } else {
        LeaGood(s, m, st, n, r);
        PlaceGood(Emit(s, Lea(r, v.offset)), m, st, n, r);
      }
    } else {
      NotStored(s, m, st, n);
      PlaceGood(s, m, st, n, r);
    }
  }

  lemma UseRegisterGood(s: Alloc, m: State, st: Store, n: string, r: Reg)
    requires Good(s, m, st) && Usable(s, n, r) && !r.view.High8? && r != RBP && UseRegister(s, n, r).Some?
    ensures Good(UseRegister(s, n, r).value, m, st)
  {
    hide SlotInv, HandInv, Exec, Implements, Seat, Tracks, Permutes, EvictReg;
    if !(s.vars[n].inreg && s.vars[n].reg == r) {
      ClearedKeeps(s, n, r);
      ClearedGood(s, m, st, n, r);
      SeatGood(Cleared(s, r), m, st, n, r);
    }
  }

  lemma NotStored(s: Alloc, m: State, st: Store, n: string)
    requires Good(s, m, st) && n in s.vars && !s.vars[n].inreg && !s.vars[n].inmem
    ensures n !in st && s.vars[n].regable
  {
  }

  // ----- locations, addresses, registers held by hand -----

  /** Setting the memory and volatile flags of an allocation. */
  lemma FlagsGood(s: Alloc, m: State, st: Store, n: string, v: Var)
    requires Good(s, m, st) && n in s.vars && VarOk(v)
    requires v == s.vars[n].(inmem := true, volatile := v.volatile)
    ensures Good(s.(vars := s.vars[n := v]), m, st)
  {
    hide Exec, Implements, SlotInv;
    FlagsKeep(s, n, v);
    SameSlotsKeep(s, s.(vars := s.vars[n := v]));
    FlagsImplement(s.vars, Exec(s.code, m), st, n, v);
  }

  lemma FlagsImplement(vars: map<string, Var>, c: State, st: Store, n: string, v: Var)
    requires Implements(vars, c, st) && n in vars
    requires v == vars[n].(inmem := true, volatile := v.volatile)
    ensures Implements(vars[n := v], c, st)
  {
    hide Base, ReadReg, ReadMem, Address;
  }

  lemma MarkInMemGood(s: Alloc, m: State, st: Store, n: string)
    requires Good(s, m, st) && n in s.vars
    ensures Good(MarkInMem(s, n), m, st)
  {
    hide Exec, Implements, SlotInv;
    FlagsGood(s, m, st, n, s.vars[n].(inmem := true));
  }

  lemma LocationGood(s: Alloc, m: State, st: Store, n: string, preferRegister: bool)
    requires Good(s, m, st) && n in s.vars && Location(s, n, preferRegister).Some?
    ensures Good(Location(s, n, preferRegister).value.0, m, st)
  {
    hide Implements, Exec, SlotInv;
    if s.vars[n].inreg { TouchGood(s, m, st, s.vars[n].reg); }
    else if !s.vars[n].regable || preferRegister { ToRegisterGood(s, m, st, n); }
    else { MarkInMemGood(s, m, st, n); }
  }

  lemma AddressOfGood(s: Alloc, m: State, st: Store, n: string)
    requires Good(s, m, st) && n in s.vars
    ensures Good(Indirect(s, n), m, st) && Good(AddressOf(s, n), m, st)
  {
    hide Implements, Exec, SlotInv;
    if s.vars[n].inreg { EvictVarGood(s, m, st, n); } else { MarkInMemGood(s, m, st, n); }
  }

  lemma VolatileGood(s: Alloc, m: State, st: Store, n: string)
    requires Good(s, m, st) && n in s.vars
    ensures Good(Volatile(s, n), m, st)
  {
    hide Exec, Implements, SlotInv;
    AddressOfGood(s, m, st, n);
    if s.vars[n].regable {
      AddressOfKeeps(s, n);
      var s1 := Indirect(s, n);
      FlagsGood(s1, m, st, n, s1.vars[n].(volatile := true, inmem := true));
    }
  }

  lemma AcquireGood(s: Alloc, m: State, st: Store, r: Reg)
    requires Good(s, m, st) && Acquire(s, r).Some?
    ensures Good(Acquire(s, r).value, m, st)
  {
    hide Implements, Exec, SlotInv;
    EvictRegsGood(s, m, st, ConflictsOf(r, s.used));
    TakeGood(EvictRegs(s, ConflictsOf(r, s.used)), m, st, r);
  }

  /** Gives back a register held by hand. */
  function Release(s: Alloc, r: Reg): Alloc { s.(used := s.used - {r}) }

  lemma ReleaseGood(s: Alloc, m: State, st: Store, r: Reg)
    requires Good(s, m, st) && r in s.used && r !in s.regs && r != RBP
    ensures Good(Release(s, r), m, st)
  {
  }
}
