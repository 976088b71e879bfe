/** Runs through code with jumps: whatever way control takes through the code of
    a function, at each point the machine implements a plain map of values. */
module AllocationJumps {
  import opened Wrappers
  import opened Registers
  import opened RegisterFile
  import opened Bytes
  import opened Machine
  import opened Allocation
  import opened AllocationInvariant
  import opened AllocationSlots
  import opened AllocationRefinement
  import opened AllocationRuns

  // ----- the code of one operation does not depend on the code before it -----

  function Over(pre: seq<Instr>, s: Alloc): (t: Alloc)
    ensures t.vars == s.vars && t.localoff == s.localoff && t.code == pre + s.code
  {
    s.(code := pre + s.code)
  }

  function Bare(s: Alloc): Alloc { s.(code := []) }

  lemma EmitOver(pre: seq<Instr>, s: Alloc, i: Instr)
    ensures Emit(Over(pre, s), i) == Over(pre, Emit(s, i))
  {
    assert pre + (s.code + [i]) == (pre + s.code) + [i];
  }

  lemma EvictVarOver(pre: seq<Instr>, s: Alloc, n: string)
    requires n in s.vars
    ensures EvictVar(Over(pre, s), n) == Over(pre, EvictVar(s, n))
  {
    EmitOver(pre, s, Store(s.vars[n].offset, RegSize(s.vars[n]), s.vars[n].reg));
  }

  lemma {:induction false} EvictRegsOver(pre: seq<Instr>, s: Alloc, rs: seq<Reg>)
    ensures EvictRegs(Over(pre, s), rs) == Over(pre, EvictRegs(s, rs))
    decreases rs
  {
    hide EvictVar;
    if rs != [] {
      if rs[0] in s.regs && s.regs[rs[0]] in s.vars {
        EvictVarOver(pre, s, s.regs[rs[0]]);
        EvictRegsOver(pre, EvictVar(s, s.regs[rs[0]]), rs[1..]);
      } else {
        EvictRegsOver(pre, s, rs[1..]);
      }
    }
  }

  lemma {:induction false} EvictEachOver(pre: seq<Instr>, s: Alloc, rs: seq<Reg>)
    ensures EvictEach(Over(pre, s), rs) == Over(pre, EvictEach(s, rs))
    decreases rs
  {
    hide EvictRegs, ConflictsOf;
    if rs != [] {
      EvictRegsOver(pre, s, ConflictsOf(rs[0], s.used));
      EvictEachOver(pre, EvictReg(s, rs[0]), rs[1..]);
    }
  }

  lemma AfterEvictForOver(pre: seq<Instr>, s: Alloc, size: int)
    ensures AfterEvictFor(Over(pre, s), size) == Over(pre, AfterEvictFor(s, size))
  {
    hide EvictRegs, Choice;
    if Victim(s.lru, size).Some? { EvictRegsOver(pre, s, [Victim(s.lru, size).value]); }
  }

  lemma ObtainOver(pre: seq<Instr>, s: Alloc, size: int)
    ensures var got := Obtain(s, size);
            Obtain(Over(pre, s), size) == if got.None? then None else Some((Over(pre, got.value.0), got.value.1))
  {
    hide EvictRegs, Choice;
    if Victim(s.lru, size).Some? { EvictRegsOver(pre, s, [Victim(s.lru, size).value]); }
  }

  lemma LoadIntoOver(pre: seq<Instr>, s: Alloc, v: Var, r: Reg)
    ensures LoadInto(Over(pre, s), v, r) == Over(pre, LoadInto(s, v, r))
  {
    EmitOver(pre, s, Zero(FullReg(r)));
    EmitOver(pre, s, Load(r, v.offset, RegSize(v)));
    EmitOver(pre, Emit(s, Zero(FullReg(r))), Load(r, v.offset, RegSize(v)));
  }

  lemma ToRegisterOver(pre: seq<Instr>, s: Alloc, n: string)
    requires n in s.vars
    ensures var got := ToRegister(s, n);
            ToRegister(Over(pre, s), n) == if got.None? then None else Some((Over(pre, got.value.0), got.value.1))
  {
    hide Obtain, LoadInto, RegSize, Without;
    var v := s.vars[n];
    var got := Obtain(s, if v.regable then v.size else 64);
    ObtainOver(pre, s, if v.regable then v.size else 64);
    if got.Some? {
      EmitOver(pre, got.value.0, Lea(got.value.1, v.offset));
      LoadIntoOver(pre, got.value.0, v, got.value.1);
    }
  }

  lemma SeatOver(pre: seq<Instr>, s: Alloc, n: string, r: Reg)
    ensures var t := Seat(s, n, r); Seat(Over(pre, s), n, r) == if t.None? then None else Some(Over(pre, t.value))
  {
    hide RegSize, Without;
    if n in s.vars {
      var v := s.vars[n];
      EmitOver(pre, s, Mov(r, v.reg));
      EmitOver(pre, s, Load(r, v.offset, RegSize(v)));
      EmitOver(pre, s, Lea(r, v.offset));
    }
  }

  lemma UseRegisterOver(pre: seq<Instr>, s: Alloc, n: string, r: Reg)
    requires n in s.vars
    ensures var t := UseRegister(s, n, r); UseRegister(Over(pre, s), n, r) == if t.None? then None else Some(Over(pre, t.value))
  {
    hide EvictRegs, Seat, IsFree, ConflictsOf;
    EvictRegsOver(pre, s, ConflictsOf(r, s.used));
    var s1 := if IsFree(r, s.used) then s else EvictReg(s, r);
    SeatOver(pre, if IsFree(r, s1.used) then Take(s1, r) else s1, n, r);
  }

  lemma LocationOver(pre: seq<Instr>, s: Alloc, n: string, prefer: bool)
    requires n in s.vars
    ensures var got := Location(s, n, prefer);
            Location(Over(pre, s), n, prefer) == if got.None? then None else Some((Over(pre, got.value.0), got.value.1))
  {
    hide ToRegister, RegSize, Without;
    ToRegisterOver(pre, s, n);
  }

  lemma StoreToOver(pre: seq<Instr>, s: Alloc, o: Operand, val: seq<Byte>)
    ensures StoreTo(Over(pre, s), o, val) == Over(pre, StoreTo(s, o, val))
  {
    match o
    case InReg(r) => EmitOver(pre, s, Put(r, val));
    case InMem(off, _) => EmitOver(pre, s, PutMem(off, val));
  }

  lemma SpaceOver(pre: seq<Instr>, s: Alloc, size: int)
    ensures Space(Over(pre, s), size) == (Over(pre, Space(s, size).0), Space(s, size).1)
  {
    hide SlotIndex, Int32, Uint32;
  }

  lemma NewLocalOver(pre: seq<Instr>, s: Alloc, n: string, size: int)
    ensures NewLocal(Over(pre, s), n, size) == Over(pre, NewLocal(s, n, size))
    ensures AllocBytes(Over(pre, s), n, size) == Over(pre, AllocBytes(s, n, size))
  {
    hide Space, Int32;
    SpaceOver(pre, s, Int32(size) / 8);
    SpaceOver(pre, s, Int32(size));
  }

  lemma ArgOver(pre: seq<Instr>, s: Alloc, n: string, r: Reg)
    ensures Arg(Over(pre, s), n, r) == Over(pre, Arg(s, n, r))
  {
    hide Space, Width, Without, IsFree;
    SpaceOver(pre, s, Width(r) / 8);
  }

  lemma AddressedOver(pre: seq<Instr>, s: Alloc, n: string)
    requires n in s.vars
    ensures Indirect(Over(pre, s), n) == Over(pre, Indirect(s, n))
    ensures AddressOf(Over(pre, s), n) == Over(pre, AddressOf(s, n))
    ensures Volatile(Over(pre, s), n) == Over(pre, Volatile(s, n))
  {
    hide EvictVar;
    EvictVarOver(pre, s, n);
  }

  lemma HandOver(pre: seq<Instr>, s: Alloc, r: Reg)
    ensures EvictReg(Over(pre, s), r) == Over(pre, EvictReg(s, r))
    ensures var t := Acquire(s, r); Acquire(Over(pre, s), r) == if t.None? then None else Some(Over(pre, t.value))
  {
    hide EvictRegs, ConflictsOf, IsFree;
    EvictRegsOver(pre, s, ConflictsOf(r, s.used));
  }

  lemma LeaveOver(pre: seq<Instr>, s: Alloc, i: Instr)
    ensures Emit(EvictAll(Over(pre, s)), i) == Over(pre, Emit(EvictAll(s), i))
    ensures Emit(EvictForCall(Over(pre, s)), i) == Over(pre, Emit(EvictForCall(s), i))
  {
    hide EvictRegs, EvictEach;
    EvictRegsOver(pre, s, s.lru);
    EvictEachOver(pre, s, CALLER_SAVED);
    EmitOver(pre, EvictAll(s), i);
    EmitOver(pre, EvictForCall(s), i);
  }

  lemma SilentOver(pre: seq<Instr>, s: Alloc, n: string, i: int, r: Reg, size: int)
    ensures StackArg(Over(pre, s), n, i) == Over(pre, StackArg(s, n, i))
    ensures Forget(Over(pre, s), n) == Over(pre, Forget(s, n))
    ensures AfterGet(Over(pre, s), size) == Over(pre, AfterGet(s, size))
    ensures Take(Over(pre, s), r) == Over(pre, Take(s, r)) && Release(Over(pre, s), r) == Over(pre, Release(s, r))
    ensures Over(pre, s).used == s.used
  {
    hide Int32, Uint32, FreedBytes, Without, Choice;
  }

  /** The operations on an allocation that exists. */
  predicate OnExisting(op: Op) {
    || op.VolatileOp? || op.RegisterOp? || op.UseRegisterOp? || op.LocationOp? || op.IndirectOp? || op.AddressOp?
    || op.Write? || op.WriteBytes? || op.WriteThrough?
  }

  lemma ExistingOver(pre: seq<Instr>, s: Alloc, op: Op)
    requires OnExisting(op)
    ensures var t := Apply(s, op); Apply(Over(pre, s), op) == if t.None? then None else Some(Over(pre, t.value))
  {
    hide Over, NewLocal, AllocBytes, Arg, StackArg, Forget, AfterGet, Take, Release, Volatile, Indirect, AddressOf;
    hide ToRegister, UseRegister, Location, StoreTo, AfterEvictFor, EvictReg, EvictAll, EvictForCall, Acquire, Emit, IsFree;
    if op.n in s.vars {
      match op
      case VolatileOp(n) => AddressedOver(pre, s, n);
      case RegisterOp(n) => ToRegisterOver(pre, s, n);
      case UseRegisterOp(n, r) => UseRegisterOver(pre, s, n, r);
      case LocationOp(n, prefer) => LocationOver(pre, s, n, prefer);
      case IndirectOp(n) => AddressedOver(pre, s, n);
      case AddressOp(n) => AddressedOver(pre, s, n);
      case Write(n, prefer, val) =>
        LocationOver(pre, s, n, prefer);
        var got := Location(s, n, prefer);
        if got.Some? { StoreToOver(pre, got.value.0, got.value.1, val); }
      case WriteBytes(n, at, val) => EmitOver(pre, s, PutMem(s.vars[n].offset + at, val));
      case WriteThrough(n, at, val) => EmitOver(pre, s, PutMem(s.vars[n].offset + at, val));
    }
  }

  /** Those that make allocations and forget them. */
  predicate OnNames(op: Op) {
    op.NewLocalOp? || op.AllocBytesOp? || op.ArgOp? || op.StackArgOp? || op.ForgetOp?
  }

  lemma NamesOver(pre: seq<Instr>, s: Alloc, op: Op)
    requires OnNames(op)
    ensures var t := Apply(s, op); Apply(Over(pre, s), op) == if t.None? then None else Some(Over(pre, t.value))
  {
    hide Over, NewLocal, AllocBytes, Arg, StackArg, Forget, AfterGet, Take, Release, Volatile, Indirect, AddressOf;
    hide ToRegister, UseRegister, Location, StoreTo, AfterEvictFor, EvictReg, EvictAll, EvictForCall, Acquire, Emit, IsFree;
    match op
    case NewLocalOp(n, size) => NewLocalOver(pre, s, n, size);
    case AllocBytesOp(n, size) => NewLocalOver(pre, s, n, size);
    case ArgOp(n, r) => ArgOver(pre, s, n, r);
    case StackArgOp(n, i) => SilentOver(pre, s, n, i, RAX, 0);
    case ForgetOp(n) => SilentOver(pre, s, n, 0, RAX, 0);
  }

  lemma OthersOver(pre: seq<Instr>, s: Alloc, op: Op)
    requires !OnNames(op) && !OnExisting(op)
    ensures var t := Apply(s, op); Apply(Over(pre, s), op) == if t.None? then None else Some(Over(pre, t.value))
  {
    hide Over, NewLocal, AllocBytes, Arg, StackArg, Forget, AfterGet, Take, Release, Volatile, Indirect, AddressOf;
    hide ToRegister, UseRegister, Location, StoreTo, AfterEvictFor, EvictReg, EvictAll, EvictForCall, Acquire, Emit, IsFree;
    match op
    case EvictForOp(size) => AfterEvictForOver(pre, s, size);
    case EvictRegOp(r) => HandOver(pre, s, r);
    case AcquireOp(r) => HandOver(pre, s, r);
    case GetOp(size) => SilentOver(pre, s, "", 0, RAX, size);
    case UseOp(r) => SilentOver(pre, s, "", 0, r, 0);
    case ReleaseOp(r) => SilentOver(pre, s, "", 0, r, 0);
    case LabelOp(l) => LeaveOver(pre, s, Label(l));
    case JumpOp(l) => LeaveOver(pre, s, Jump(l));
    case CallOut(gpr, mem) => LeaveOver(pre, s, Call(gpr, mem, s.localoff));
    case WriteHeld(r, val) => EmitOver(pre, s, Put(r, val));
  }

  /** What an operation does, and the code it emits, is the same whatever was
      emitted before. */
  lemma ApplyOver(pre: seq<Instr>, s: Alloc, op: Op)
    ensures var t := Apply(s, op); Apply(Over(pre, s), op) == if t.None? then None else Some(Over(pre, t.value))
  {
    hide Apply, Over;
    if OnExisting(op) {
      ExistingOver(pre, s, op);
    } else if OnNames(op) {
      NamesOver(pre, s, op);
    } else {
      OthersOver(pre, s, op);
    }
  }

  /** The code that an operation emits. */
  function Piece(s: Alloc, op: Op): seq<Instr>
    requires Apply(Bare(s), op).Some?
  {
    Apply(Bare(s), op).value.code
  }

  lemma PieceIsEmitted(s: Alloc, op: Op)
    ensures Apply(s, op).Some? == Apply(Bare(s), op).Some?
    ensures Apply(s, op).Some? ==>
              Apply(s, op).value.code == s.code + Piece(s, op) && Bare(Apply(s, op).value) == Bare(Apply(Bare(s), op).value)
  {
    hide Apply;
    assert Over(s.code, Bare(s)) == s;
    ApplyOver(s.code, Bare(s), op);
  }

  // ----- ways through the code -----

  /** A function's operations in the order of its text, and the allocator's states
      between them. */
  datatype Body = Body(ops: seq<Op>, states: seq<Alloc>)

  ghost predicate Compiled(b: Body) {
    && |b.states| == |b.ops| + 1
    && forall i :: 0 <= i < |b.ops| ==>
         Legal(b.states[i], b.ops[i]) && Apply(b.states[i], b.ops[i]) == Some(b.states[i + 1])
  }

  /** The same place of the text on another visit: what clients write and what
      callees leave may differ each time, and what is written through an address may
      be less. */
  ghost predicate Like(op: Op, again: Op) {
    match op
    case CallOut(_, _) => again.CallOut?
    case Write(n, prefer, val) => again.Write? && again.n == n && again.prefer == prefer && |again.val| == |val|
    case WriteBytes(n, at, val) => again.WriteBytes? && again.n == n && again.at == at && |again.val| == |val|
    case WriteThrough(n, at, val) =>
      again.WriteThrough? && again.n == n && at <= again.at && again.at + |again.val| <= at + |val|
    case WriteHeld(r, val) => again.WriteHeld? && again.r == r && |again.val| == |val|
    case _ => again == op
  }

  lemma LikeLegal(s: Alloc, op: Op, again: Op)
    requires Like(op, again)
    ensures (Legal(s, op) ==> Legal(s, again)) && Apply(s, op).Some? == Apply(s, again).Some?
    ensures Apply(s, op).Some? ==> Bare(Apply(s, op).value) == Bare(Apply(s, again).value)
  {
    hide EvictRegs, EvictEach, ToRegister, UseRegister, Location, AfterEvictFor, Choice, IsFree, EvictVar;
  }

  /** Where control is, and what the machine and the plain map then hold. */
  datatype Config = Config(at: nat, cpu: State, st: Store)

  predicate SameSlot(v: Var, w: Var) { v.regable == w.regable && v.size == w.size && v.offset == w.offset }

  /** What a label takes over of the values that a jump brings: those of allocations
      which it, too, expects in memory, in the same slot.  Byte areas that are new at
      the label start with what is there. */
  ghost predicate Lands(source: Alloc, label': Alloc, c: State, st: Store, landed: Store) {
    && (forall n :: n in landed <==> n in label'.vars && (Carried(source, label', st, n) || !label'.vars[n].regable))
    && (forall n :: n in landed ==>
          if Carried(source, label', st, n) then landed[n] == st[n]
          else SlotBytes(label'.vars[n]) >= 0 &&
               landed[n] == ReadMem(c, Base(c) + label'.vars[n].offset, SlotBytes(label'.vars[n])))
  }

  predicate Carried(source: Alloc, label': Alloc, st: Store, n: string) {
    && n in st && n in source.vars && n in label'.vars
    && SameSlot(source.vars[n], label'.vars[n]) && label'.vars[n].inmem
  }

  /** One operation, visited in the form `again`, after which control goes on in
      the text or, at a jump, to a label of that name. */
  ghost predicate Moves(b: Body, x: Config, again: Op, y: Config)
    requires Compiled(b)
  {
    && x.at < |b.ops| && Like(b.ops[x.at], again)
    && Apply(Bare(b.states[x.at]), again).Some? && y.cpu == Exec(Piece(b.states[x.at], again), x.cpu)
    && (|| (y.at == x.at + 1 && y.st == Effect(b.states[x.at], again, x.cpu, x.st))
        || (&& again.JumpOp? && 0 < y.at <= |b.ops| && b.ops[y.at - 1] == LabelOp(again.target)
            && Lands(b.states[x.at + 1], b.states[y.at], y.cpu, x.st, y.st)))
  }

  ghost predicate Path(b: Body, path: seq<Config>, visits: seq<Op>)
    requires Compiled(b)
  {
    |path| == |visits| + 1 && forall k :: 0 <= k < |visits| ==> Moves(b, path[k], visits[k], path[k + 1])
  }

  lemma BareInv(s: Alloc)
    requires Inv(s)
    ensures Inv(Bare(s))
  {
    hide Overlap, Apart, Permutes, VarOk;
  }

  lemma BareLegal(s: Alloc, op: Op)
    ensures Legal(Bare(s), op) == Legal(s, op)
  {
    hide IsFree, VarOk;
  }

  lemma BareEffect(s: Alloc, op: Op, c: State, st: Store)
    ensures Effect(Bare(s), op, c, st) == Effect(s, op, c, st)
  {
    hide ReadMem, ReadReg, Base, SlotIndex, Uint32, Int32;
  }

  /** One visit keeps the refinement, from any machine that refines. */
  lemma VisitGood(s: Alloc, op: Op, c: State, st: Store)
    requires Inv(s) && Implements(s.vars, c, st) && Legal(s, op) && Apply(s, op).Some?
    ensures Apply(Bare(s), op).Some?
    ensures Implements(Apply(s, op).value.vars, Exec(Piece(s, op), c), Effect(s, op, c, st))
  {
    hide Implements, Legal, Apply, Effect, RegInv, SlotInv, HandInv;
    BareInv(s);
    BareLegal(s, op);
    BareEffect(s, op, c, st);
    PieceIsEmitted(s, op);
    assert Exec([], c) == c;
    assert Good(Bare(s), c, st);
    ApplyGood(Bare(s), c, st, op);
  }

  lemma LabelExpectsMemory(s: Alloc, l: string)
    requires RegInv(s)
    ensures var t := Emit(EvictAll(s), Label(l)); forall n :: n in t.vars ==> !t.vars[n].inreg
  {
    hide EvictRegs;
    EvictAllEmpties(s);
  }

  lemma LandingImplements(source: Alloc, label': Alloc, c: State, st: Store, landed: Store)
    requires Implements(source.vars, c, st) && VarsOk(label'.vars)
    requires forall n :: n in source.vars ==> !source.vars[n].inreg
    requires forall n :: n in label'.vars ==> !label'.vars[n].inreg
    requires Lands(source, label', c, st, landed)
    ensures Implements(label'.vars, c, landed)
  {
    hide Base, ReadReg, Address, ReadMem;
    forall n | n in landed ensures |landed[n]| == SlotBytes(label'.vars[n]) && Holds(label'.vars[n], c, landed[n]) {
      assert VarOk(label'.vars[n]);
    }
  }

  /** A jump that is taken keeps what survives it. */
  lemma TakenGood(b: Body, x: Config, again: Op, y: Config)
    requires Compiled(b) && Moves(b, x, again, y) && again.JumpOp? && 0 < y.at
    requires b.ops[y.at - 1] == LabelOp(again.target)
    requires Lands(b.states[x.at + 1], b.states[y.at], y.cpu, x.st, y.st)
    requires Inv(b.states[x.at]) && Implements(b.states[x.at].vars, x.cpu, x.st)
    requires Inv(b.states[y.at - 1]) && Inv(b.states[y.at])
    ensures Implements(b.states[y.at].vars, y.cpu, y.st)
  {
    hide Implements, Legal, Apart, Tracks, Permutes, SlotInv, HandInv, EvictRegs, Exec, Lands, VarOk;
    VisitGood(b.states[x.at], again, x.cpu, x.st);
    EvictAllEmpties(b.states[x.at]);
    LabelExpectsMemory(b.states[y.at - 1], again.target);
    LandingImplements(b.states[x.at + 1], b.states[y.at], y.cpu, x.st, y.st);
  }

  /** The states between the operations are sound, whatever way control takes. */
  lemma {:induction false} StatesSound(b: Body, m: State, st: Store, i: nat) returns (now: Store)
    requires Compiled(b) && i <= |b.ops| && Good(b.states[0], m, st)
    ensures Good(b.states[i], m, now)
  {
    hide Good, Legal, Apply, Effect, Exec;
    if i == 0 { return st; }
    now := StatesSound(b, m, st, i - 1);
    assert Apply(b.states[i - 1], b.ops[i - 1]) == Some(b.states[i - 1 + 1]);
    ApplyGood(b.states[i - 1], m, now, b.ops[i - 1]);
    now := Effect(b.states[i - 1], b.ops[i - 1], Exec(b.states[i - 1].code, m), now);
  }

  lemma MoveGood(b: Body, x: Config, again: Op, y: Config)
    requires Compiled(b) && Moves(b, x, again, y) && (forall i :: 0 <= i < |b.states| ==> Inv(b.states[i]))
    requires Implements(b.states[x.at].vars, x.cpu, x.st)
    ensures y.at < |b.states| && Implements(b.states[y.at].vars, y.cpu, y.st)
  {
    hide Implements, Legal, Inv, Exec, Lands, Apply, Effect, Like;
    if y.st == Effect(b.states[x.at], again, x.cpu, x.st) && y.at == x.at + 1 {
      assert Apply(b.states[x.at], b.ops[x.at]) == Some(b.states[x.at + 1]);
      LikeLegal(b.states[x.at], b.ops[x.at], again);
      VisitGood(b.states[x.at], again, x.cpu, x.st);
    } else {
      TakenGood(b, x, again, y);
    }
  }

  /** Whatever way control takes through the code of a function, any jumps taken
      or not, any number of times round its loops, each point it gets to holds
      the value of every live allocation where the allocator's state there says. */
  lemma {:induction false} PathRefines(b: Body, m: State, st: Store, path: seq<Config>, visits: seq<Op>)
    requires Compiled(b) && Good(b.states[0], m, st)
    requires Path(b, path, visits) && path[0] == Config(0, Exec(b.states[0].code, m), st)
    ensures var end := path[|visits|]; end.at < |b.states| && Implements(b.states[end.at].vars, end.cpu, end.st)
    decreases |visits|
  {
    hide Implements, Inv, Exec, Moves, Legal, Apply;
    if visits != [] {
      var k := |visits| - 1;
      PathRefines(b, m, st, path[..k + 1], visits[..k]);
      forall i | 0 <= i < |b.states| ensures Inv(b.states[i]) {
        var now := StatesSound(b, m, st, i);
      }
      MoveGood(b, path[k], visits[k], path[k + 1]);
    }
  }
}
