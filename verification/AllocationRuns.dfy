/** Whole runs of the register allocator, with its client's writes and calls in
    between: the machine always implements the plain map that the run computes. */
module AllocationRuns {
  import opened Wrappers
  import opened Registers
  import opened RegisterFile
  import opened Bytes
  import opened Machine
  import opened Allocation
  import opened AllocationInvariant
  import opened AllocationSlots
  import opened AllocationRefinement

  /** One call of the allocator, or one use of what it handed out.  `Write` goes
      through the location of a regable allocation, `WriteBytes` through the
      address of another, `WriteThrough` through the address of a volatile one,
      `WriteHeld` to a register held by hand.  `CallOut` is followed by a callee that
      leaves any values in the caller-saved registers and below the frame; what it
      writes through addresses that have got to it are writes that follow the call. */
  datatype Op =
    | NewLocalOp(n: string, size: int)
    | AllocBytesOp(n: string, size: int)
    | ArgOp(n: string, r: Reg)
    | StackArgOp(n: string, i: int)
    | ForgetOp(n: string)
    | VolatileOp(n: string)
    | RegisterOp(n: string)
    | UseRegisterOp(n: string, r: Reg)
    | LocationOp(n: string, prefer: bool)
    | IndirectOp(n: string)
    | AddressOp(n: string)
    | EvictForOp(size: int)
    | EvictRegOp(r: Reg)
    | AcquireOp(r: Reg)
    | GetOp(size: int)
    | UseOp(r: Reg)
    | ReleaseOp(r: Reg)
    | LabelOp(target: string)
    | JumpOp(target: string)
    | CallOut(gpr: seq<seq<Byte>>, mem: int -> Byte)
    | Write(n: string, prefer: bool, val: seq<Byte>)
    | WriteBytes(n: string, at: nat, val: seq<Byte>)
    | WriteThrough(n: string, at: nat, val: seq<Byte>)
    | WriteHeld(r: Reg, val: seq<Byte>)

  function StoreTo(s: Alloc, o: Operand, val: seq<Byte>): Alloc {
    match o
    case InReg(r) => Emit(s, Put(r, val))
    case InMem(off, _) => Emit(s, PutMem(off, val))
  }

  /** The allocator's state after an operation, or `None` where the source panics. */
  function Apply(s: Alloc, op: Op): Option<Alloc> {
    match op
    case NewLocalOp(n, size) => Some(NewLocal(s, n, size))
    case AllocBytesOp(n, size) => Some(AllocBytes(s, n, size))
    case ArgOp(n, r) => Some(Arg(s, n, r))
    case StackArgOp(n, i) => Some(StackArg(s, n, i))
    case ForgetOp(n) => Some(Forget(s, n))
    case VolatileOp(n) => if n in s.vars then Some(Volatile(s, n)) else Some(s)
    case RegisterOp(n) =>
      if n !in s.vars || ToRegister(s, n).None? then None else Some(ToRegister(s, n).value.0)
    case UseRegisterOp(n, r) => if n !in s.vars then None else UseRegister(s, n, r)
    case LocationOp(n, prefer) =>
      if n !in s.vars || Location(s, n, prefer).None? then None else Some(Location(s, n, prefer).value.0)
    case IndirectOp(n) => if n !in s.vars then None else Some(Indirect(s, n))
    case AddressOp(n) => if n !in s.vars then None else Some(AddressOf(s, n))
    case EvictForOp(size) => Some(AfterEvictFor(s, size))
    case EvictRegOp(r) => Some(EvictReg(s, r))
    case AcquireOp(r) => Acquire(s, r)
    case GetOp(size) => Some(AfterGet(s, size))
    case UseOp(r) => Some(if IsFree(r, s.used) then Take(s, r) else s)
    case ReleaseOp(r) => Some(Release(s, r))
    case LabelOp(l) => Some(Emit(EvictAll(s), Label(l)))
    case JumpOp(l) => Some(Emit(EvictAll(s), Jump(l)))
    case CallOut(gpr, mem) => Some(Emit(EvictForCall(s), Call(gpr, mem, s.localoff)))
    case Write(n, prefer, val) =>
      if n !in s.vars || Location(s, n, prefer).None? then None
      else Some(StoreTo(Location(s, n, prefer).value.0, Location(s, n, prefer).value.1, val))
    case WriteBytes(n, at, val) =>
      if n !in s.vars then None else Some(Emit(s, PutMem(s.vars[n].offset + at, val)))
    case WriteThrough(n, at, val) =>
      if n !in s.vars then None else Some(Emit(s, PutMem(s.vars[n].offset + at, val)))
    case WriteHeld(r, val) => Some(Emit(s, Put(r, val)))
  }

  /** What the allocator asks of its callers. */
  ghost predicate Legal(s: Alloc, op: Op) {
    match op
    case NewLocalOp(_, size) => ValidSize(size) && HasRoom(s, size / 8)
    case AllocBytesOp(_, size) => HasRoom(s, size)
    case ArgOp(_, r) => Bindable(s, r) && HasRoom(s, Width(r) / 8) && !r.view.High8? && r.num != RBP.num
    case StackArgOp(n, i) =>
      0 <= i && (i + 1) * 8 + SAVED_SIZE < TWO31 && HasRoom(s, 8) &&
      (n !in s.vars ==> Fits(s, (i + 1) * 8 + SAVED_SIZE, 8))
    case UseRegisterOp(n, r) => Usable(s, n, r) && !r.view.High8? && r != RBP
    case ForgetOp(n) => Forgettable(s, n)
    case EvictForOp(size) => ValidSize(size)
    case GetOp(size) => ValidSize(size)
    case ReleaseOp(r) => r in s.used && r !in s.regs && r != RBP
    case Write(n, _, val) => n in s.vars && s.vars[n].regable && |val| == SlotBytes(s.vars[n])
    case WriteBytes(n, at, val) => n in s.vars && !s.vars[n].regable && at + |val| <= SlotBytes(s.vars[n])
    case WriteThrough(n, at, val) =>
      n in s.vars && s.vars[n].regable && s.vars[n].volatile && at + |val| <= SlotBytes(s.vars[n])
    case WriteHeld(r, val) => r in s.used && r !in s.regs && r != RBP && |val| == Width(r) / 8
    case _ => true
  }

  /** A value with some bytes of it written over. */
  function Spliced(old': seq<Byte>, at: nat, val: seq<Byte>): seq<Byte>
    requires at + |val| <= |old'|
  {
    old'[..at] + val + old'[at + |val|..]
  }

  /** The plain map after an operation: arguments and byte areas start with what
      the machine c holds for them, and a write changes one value. */
  function Effect(s: Alloc, op: Op, c: State, st: Store): Store {
    match op
    case AllocBytesOp(n, size) =>
      if n in s.vars || size < 0 then st
      else st[n := ReadMem(c, Base(c) + Space(s, Int32(size)).1, size)]
    case ArgOp(n, r) => if n in s.vars then st else st[n := ReadReg(c, r)]
    case StackArgOp(n, i) =>
      if n in s.vars then st else st[n := ReadMem(c, Base(c) + (i + 1) * 8 + SAVED_SIZE, 8)]
    case ForgetOp(n) => st - {n}
    case Write(n, _, val) => st[n := val]
    case WriteBytes(n, at, val) =>
      if n in st && at + |val| <= |st[n]| then st[n := Spliced(st[n], at, val)] else st
    case WriteThrough(n, at, val) =>
      if n in st && at + |val| <= |st[n]| then st[n := Spliced(st[n], at, val)]
      else if n in s.vars && n !in st && at == 0 && |val| == SlotBytes(s.vars[n]) then st[n := val]
      else st
    case _ => st
  }

  // ----- new and forgotten allocations -----

  lemma AddImplements(vars: map<string, Var>, c: State, st: Store, n: string, v: Var)
    requires Implements(vars, c, st) && n !in vars && v.regable
    ensures Implements(vars[n := v], c, st)
  {
    hide Base, ReadReg, ReadMem, Address;
  }

  lemma AddValueImplements(vars: map<string, Var>, c: State, st: Store, n: string, v: Var, val: seq<Byte>)
    requires Implements(vars, c, st) && n !in vars && |val| == SlotBytes(v) && Holds(v, c, val)
    requires !v.regable ==> !v.inreg
    ensures Implements(vars[n := v], c, st[n := val])
  {
    hide Base, ReadReg, ReadMem, Address;
  }

  lemma RemoveImplements(vars: map<string, Var>, c: State, st: Store, n: string)
    requires Implements(vars, c, st)
    ensures Implements(vars - {n}, c, st - {n})
  {
    hide Base, ReadReg, ReadMem, Address;
  }

  lemma NewLocalGood(s: Alloc, m: State, st: Store, n: string, size: int)
    requires Good(s, m, st) && ValidSize(size) && HasRoom(s, size / 8)
    ensures Good(NewLocal(s, n, size), m, st)
  {
    hide Implements, Exec, SlotInv;
    NewLocalKeeps(s, n, size);
    if n !in s.vars {
      AddImplements(s.vars, Exec(s.code, m), st, n, NewLocal(s, n, size).vars[n]);
    }
  }

  lemma RoomIsSmall(s: Alloc, size: int)
    requires SlotInv(s) && HasRoom(s, size)
    ensures 0 <= size && Int32(size) == size && s.localoff >= 0
  {
  }

  lemma HasRoomForNothing(s: Alloc)
    requires SlotInv(s)
    ensures HasRoom(s, 0)
  {
  }

  /** What lies in the slot of an allocation lies beside the saved registers. */
  lemma SlotIsTame(s: Alloc, n: string, off: int, val: seq<Byte>)
    requires SlotInv(s) && n in s.vars
    requires s.vars[n].offset <= off && off + |val| <= s.vars[n].offset + SlotBytes(s.vars[n])
    ensures Tame(PutMem(off, val))
  {
  }

  lemma AllocBytesGood(s: Alloc, m: State, st: Store, n: string, size: int)
    requires Good(s, m, st) && HasRoom(s, size)
    ensures Good(AllocBytes(s, n, size), m, Effect(s, AllocBytesOp(n, size), Exec(s.code, m), st))
  {
    hide Implements, Exec, RegInv, SlotInv, Base, ReadReg, ReadMem, Space, Int32;
    AllocBytesKeeps(s, n, size);
    RoomIsSmall(s, size);
    SpaceFits(s, size);
    if n !in s.vars {
      var c, v := Exec(s.code, m), AllocBytes(s, n, size).vars[n];
      AddValueImplements(s.vars, c, st, n, v, ReadMem(c, Base(c) + v.offset, size));
    }
  }

  lemma ArgInv(s: Alloc, n: string, r: Reg)
    requires Inv(s) && Legal(s, ArgOp(n, r)) && n !in s.vars
    ensures Inv(Arg(s, n, r))
  {
    hide SlotInv, RegInv, Space;
    ArgKeeps(s, n, r);
    SpaceFits(s, Width(r) / 8);
    assert !Overlap(r, RBP);
  }

  lemma ArgGood(s: Alloc, m: State, st: Store, n: string, r: Reg)
    requires Good(s, m, st) && Legal(s, ArgOp(n, r))
    ensures Good(Arg(s, n, r), m, Effect(s, ArgOp(n, r), Exec(s.code, m), st))
  {
    hide Implements, Exec, RegInv, SlotInv, HandInv, Base, ReadReg, ReadMem;
    if n !in s.vars {
      ArgInv(s, n, r);
      var c, v := Exec(s.code, m), Arg(s, n, r).vars[n];
      AddValueImplements(s.vars, c, st, n, v, ReadReg(c, r));
    }
  }

  lemma StackArgGood(s: Alloc, m: State, st: Store, n: string, i: int)
    requires Good(s, m, st) && Legal(s, StackArgOp(n, i))
    ensures Good(StackArg(s, n, i), m, Effect(s, StackArgOp(n, i), Exec(s.code, m), st))
  {
    hide Implements, Exec, SlotInv, Base, ReadReg, ReadMem;
    StackArgKeeps(s, n, i);
    if n !in s.vars {
      var c, v := Exec(s.code, m), StackArg(s, n, i).vars[n];
      AddValueImplements(s.vars, c, st, n, v, ReadMem(c, Base(c) + v.offset, 8));
    }
  }

  lemma ForgetGood(s: Alloc, m: State, st: Store, n: string)
    requires Good(s, m, st) && Forgettable(s, n)
    ensures Good(Forget(s, n), m, st - {n})
  {
    hide Implements, Exec, SlotInv;
    ForgetKeeps(s, n);
    ForgetKeepsRegs(s, n);
    RemoveImplements(s.vars, Exec(s.code, m), st, n);
    if n !in s.vars { assert s.vars - {n} == s.vars; }
  }

  // ----- control transfers -----

  lemma EmitGood(s: Alloc, m: State, st: Store, i: Instr)
    requires Good(s, m, st) && (i.Jump? || i.Label?)
    ensures Good(Emit(s, i), m, st)
  {
    hide Implements, SlotInv, RegInv;
    EmitInv(s, i);
    ExecSnoc(s.code, i, m);
  }

  lemma AllInMemory(vars: map<string, Var>, now: State, c: State, st: Store)
    requires Implements(vars, now, st) && forall n :: n in vars ==> !vars[n].inreg
    requires c.mem == now.mem && Base(c) == Base(now)
    ensures Implements(vars, c, st)
  {
  }

  lemma EvictAllEmpties(s: Alloc)
    requires RegInv(s)
    ensures EvictAll(s).regs == map[]
    ensures forall n :: n in EvictAll(s).vars ==> !EvictAll(s).vars[n].inreg
  {
    hide EvictRegs;
    EvictRegsKeeps(s, s.lru);
  }

  /** At a label or before a jump nothing is left in a register: every value is
      determined by the memory and RBP alone, wherever control came from. */
  lemma EvictAllForgetsRegisters(s: Alloc, m: State, st: Store, c: State)
    requires Good(s, m, st)
    requires var now := Exec(EvictAll(s).code, m); c.mem == now.mem && Base(c) == Base(now)
    ensures EvictAll(s).regs == map[]
    ensures Implements(EvictAll(s).vars, c, st)
  {
    hide Base, RegInv, SlotInv, HandInv, Exec, EvictRegs, Implements;
    EvictAllEmpties(s);
    EvictRegsGood(s, m, st, s.lru);
    AllInMemory(EvictAll(s).vars, Exec(EvictAll(s).code, m), c, st);
  }

  lemma CallKeepsRegister(c: State, i: Instr, r: Reg)
    requires i.Call? && !CallerSaved(r.num)
    ensures ReadReg(Step(i, c), r) == ReadReg(c, r)
  {
  }

  lemma CallKeepsSlot(c: State, i: Instr, off: int, n: nat)
    requires i.Call? && off >= -i.frame
    ensures ReadMem(Step(i, c), Base(c) + off, n) == ReadMem(c, Base(c) + off, n)
  {
  }

  /** After the eviction for a call, no allocation is in a caller-saved register. */
  lemma CallEvicts(s: Alloc, u: Reg)
    requires RegInv(s) && u in EvictForCall(s).regs
    ensures !CallerSaved(u.num)
  {
    hide EvictEach, RegInv;
    assert CallerSaved(u.num) ==> FullReg(u) in CALLER_SAVED && Overlap(u, FullReg(u));
    EvictEachKeeps(s, CALLER_SAVED);
  }

  lemma CallImplements(s: Alloc, c: State, st: Store, i: Instr)
    requires Implements(s.vars, c, st) && i.Call? && i.frame == s.localoff && SlotInv(s)
    requires forall n :: n in s.vars && s.vars[n].inreg ==> !CallerSaved(s.vars[n].reg.num)
    ensures Implements(s.vars, Step(i, c), st)
  {
    hide ReadReg, ReadMem, Step, Address, Value;
    var c' := Step(i, c);
    CallKeepsRegister(c, i, RBP);
    forall n | n in s.vars && s.vars[n].inreg ensures ReadReg(c', s.vars[n].reg) == ReadReg(c, s.vars[n].reg) {
      CallKeepsRegister(c, i, s.vars[n].reg);
    }
    forall n | n in st ensures Holds(s.vars[n], c', st[n]) {
      CallKeepsSlot(c, i, s.vars[n].offset, |st[n]|);
    }
  }

  /** A call, whatever it leaves in the caller-saved registers, keeps every value. */
  lemma CallGood(s: Alloc, m: State, st: Store, gpr: seq<seq<Byte>>, mem: int -> Byte)
    requires Good(s, m, st)
    ensures Good(Emit(EvictForCall(s), Call(gpr, mem, s.localoff)), m, st)
  {
    HasRoomForNothing(s);
    hide Implements, Exec, SlotInv, EvictEach;
    EvictEachGood(s, m, st, CALLER_SAVED);
    EvictEachKeeps(s, CALLER_SAVED);
    var t := EvictForCall(s);
    var i := Call(gpr, mem, s.localoff);
    RoomIsSmall(s, 0);
    EmitInv(t, i);
    ExecSnoc(t.code, i, m);
    forall n | n in t.vars && t.vars[n].inreg ensures !CallerSaved(t.vars[n].reg.num) {
      CallEvicts(s, t.vars[n].reg);
    }
    CallImplements(t, Exec(t.code, m), st, i);
  }

  // ----- writes -----

  /** A write to the register of one allocation. */
  lemma PutImplements(vars: map<string, Var>, c: State, st: Store, n: string, r: Reg, val: seq<Byte>)
    requires Implements(vars, c, st) && n in vars && vars[n].regable && vars[n].inreg && vars[n].reg == r
    requires |val| == SlotBytes(vars[n]) == Width(r) / 8 && !Overlap(r, RBP)
    requires forall k :: k in vars && vars[k].inreg && k != n ==> !Overlap(r, vars[k].reg)
    ensures Implements(vars, WriteReg(c, r, val), st[n := val])
  {
    hide ReadReg, ReadMem, WriteReg, Address, Value, Overlap;
    var c' := WriteReg(c, r, val);
    ReadWritten(c, r, val);
    WriteKeepsOthers(c, r, val, RBP);
    WriteKeepsMemory(c, r, val);
    forall k | k in vars && vars[k].inreg && k != n ensures ReadReg(c', vars[k].reg) == ReadReg(c, vars[k].reg) {
      WriteKeepsOthers(c, r, val, vars[k].reg);
    }
    forall k | k in st && k != n ensures Holds(vars[k], c', st[k]) {
      SameMemory(c, c', Base(c) + vars[k].offset, |st[k]|);
    }
  }

  /** A write to the slot of one allocation. */
  lemma PutMemImplements(s: Alloc, c: State, st: Store, n: string, val: seq<Byte>)
    requires SlotInv(s) && Implements(s.vars, c, st) && n in s.vars && |val| == SlotBytes(s.vars[n])
    requires s.vars[n].inmem && (s.vars[n].regable ==> !s.vars[n].inreg)
    ensures Implements(s.vars, WriteMem(c, Base(c) + s.vars[n].offset, val), st[n := val])
  {
    hide ReadReg, ReadMem, Address, Base, SlotInv, WriteMem;
    SlotWriteKeeps(s, c, st, n, val);
    var c' := WriteMem(c, Base(c) + s.vars[n].offset, val);
    forall k | k in s.vars && s.vars[k].inreg ensures ReadReg(c', s.vars[k].reg) == ReadReg(c, s.vars[k].reg) {
      SameRegisters(c, c', s.vars[k].reg);
    }
  }

  lemma OnlyOccupant(s: Alloc, n: string)
    requires RegInv(s) && HandInv(s) && n in s.vars && s.vars[n].inreg
    ensures !Overlap(s.vars[n].reg, RBP)
    ensures forall k :: k in s.vars && s.vars[k].inreg && k != n ==> !Overlap(s.vars[n].reg, s.vars[k].reg)
  {
  }

  lemma StoreToGood(s: Alloc, m: State, st: Store, n: string, o: Operand, val: seq<Byte>)
    requires Good(s, m, st) && n in s.vars && s.vars[n].regable && |val| == SlotBytes(s.vars[n])
    requires match o
             case InReg(r) => s.vars[n].inreg && s.vars[n].reg == r
             case InMem(off, _) => !s.vars[n].inreg && s.vars[n].inmem && off == s.vars[n].offset
    ensures Good(StoreTo(s, o, val), m, st[n := val])
  {
    hide Implements, Exec, SlotInv, WriteReg, WriteMem, Base;
    var i := match o case InReg(r) => Put(r, val) case InMem(off, _) => PutMem(off, val);
    if o.InReg? { OnlyOccupant(s, n); } else { SlotIsTame(s, n, o.off, val); }
    EmitInv(s, i);
    ExecSnoc(s.code, i, m);
    if o.InReg? {
      PutImplements(s.vars, Exec(s.code, m), st, n, o.reg, val);
    } else {
      PutMemImplements(s, Exec(s.code, m), st, n, val);
    }
  }

  lemma WriteGood(s: Alloc, m: State, st: Store, n: string, prefer: bool, val: seq<Byte>)
    requires Good(s, m, st) && Legal(s, Write(n, prefer, val)) && Apply(s, Write(n, prefer, val)).Some?
    ensures Good(Apply(s, Write(n, prefer, val)).value, m, st[n := val])
  {
    hide Implements, Exec, SlotInv, StoreTo, Location;
    LocationKeeps(s, n, prefer);
    LocationGood(s, m, st, n, prefer);
    var (t, o) := Location(s, n, prefer).value;
    StoreToGood(t, m, st, n, o, val);
  }

  /** A register held by hand may be written at will. */
  lemma WriteHeldGood(s: Alloc, m: State, st: Store, r: Reg, val: seq<Byte>)
    requires Good(s, m, st) && Legal(s, WriteHeld(r, val))
    ensures Good(Emit(s, Put(r, val)), m, st)
  {
    hide Exec, Implements, SlotInv, WriteReg, ReadReg, Base;
    assert Scratch(s, r);
    ScratchGood(s, m, st, Put(r, val), r, val);
  }

  lemma PartOfSlot(c: State, addr: int, before: seq<Byte>, at: nat, val: seq<Byte>)
    requires ReadMem(c, addr, |before|) == before && at + |val| <= |before|
    ensures var whole := before[..at] + val + before[at + |val|..];
            forall a :: WriteMem(c, addr + at, val).mem(a) == WriteMem(c, addr, whole).mem(a)
  {
  }

  lemma SameBytes(c: State, c': State, addr: int, n: nat)
    requires forall a :: c.mem(a) == c'.mem(a)
    ensures ReadMem(c', addr, n) == ReadMem(c, addr, n)
  {
  }

  lemma SameBytesImplement(vars: map<string, Var>, c: State, c': State, st: Store)
    requires Implements(vars, c, st) && c.gpr == c'.gpr && forall a :: c.mem(a) == c'.mem(a)
    ensures Implements(vars, c', st)
  {
    hide ReadReg, ReadMem, Value, Address;
    SameRegisters(c, c', RBP);
    forall n | n in vars && vars[n].inreg ensures ReadReg(c', vars[n].reg) == ReadReg(c, vars[n].reg) {
      SameRegisters(c, c', vars[n].reg);
    }
    forall n | n in st ensures Holds(vars[n], c', st[n]) {
      SameBytes(c, c', Base(c) + vars[n].offset, |st[n]|);
    }
  }

  /** Some bytes of a slot are written, past all that the allocator knows. */
  lemma PokeGood(s: Alloc, m: State, st: Store, n: string, at: nat, val: seq<Byte>)
    requires Good(s, m, st) && n in s.vars && n in st && at + |val| <= |st[n]|
    requires s.vars[n].inmem && (s.vars[n].regable ==> !s.vars[n].inreg)
    ensures Good(Emit(s, PutMem(s.vars[n].offset + at, val)), m, st[n := Spliced(st[n], at, val)])
  {
    hide Exec, RegInv, SlotInv, HandInv, ReadReg, ReadMem, WriteMem, Base, Address;
    var c, v := Exec(s.code, m), s.vars[n];
    var whole := Spliced(st[n], at, val);
    var i := PutMem(v.offset + at, val);
    SlotIsTame(s, n, v.offset + at, val);
    EmitInv(s, i);
    ExecSnoc(s.code, i, m);
    PutMemImplements(s, c, st, n, whole);
    PartOfSlot(c, Base(c) + v.offset, st[n], at, val);
    WriteMemKeepsRegisters(c, Base(c) + v.offset + at, val);
    WriteMemKeepsRegisters(c, Base(c) + v.offset, whole);
    SameBytesImplement(s.vars, WriteMem(c, Base(c) + v.offset, whole), Step(i, c), st[n := whole]);
  }

  /** Bytes written into the slot of an allocation that has no value yet. */
  lemma PokeUnset(s: Alloc, m: State, st: Store, n: string, at: nat, val: seq<Byte>)
    requires Good(s, m, st) && n in s.vars && n !in st && at + |val| <= SlotBytes(s.vars[n])
    requires s.vars[n].inmem && !s.vars[n].inreg
    ensures Good(Emit(s, PutMem(s.vars[n].offset + at, val)), m, st)
  {
    hide Exec, RegInv, SlotInv, HandInv, ReadReg, ReadMem, WriteMem, Base, Address;
    var c, v := Exec(s.code, m), s.vars[n];
    var before := ReadMem(c, Base(c) + v.offset, SlotBytes(v));
    var full := st[n := before];
    PokeGood(s, m, full, n, at, val);
    assert st == full[n := Spliced(before, at, val)] - {n};
  }

  lemma WriteBytesGood(s: Alloc, m: State, st: Store, n: string, at: nat, val: seq<Byte>)
    requires Good(s, m, st) && Legal(s, WriteBytes(n, at, val))
    ensures Good(Apply(s, WriteBytes(n, at, val)).value, m, Effect(s, WriteBytes(n, at, val), Exec(s.code, m), st))
  {
    hide Exec, SlotInv, HandInv, ReadReg, ReadMem, WriteMem, Base, Address;
    PokeGood(s, m, st, n, at, val);
  }

  /** The variable has been kept out of registers: its value is what was written. */
  lemma WriteThroughGood(s: Alloc, m: State, st: Store, n: string, at: nat, val: seq<Byte>)
    requires Good(s, m, st) && Legal(s, WriteThrough(n, at, val))
    ensures Good(Apply(s, WriteThrough(n, at, val)).value, m, Effect(s, WriteThrough(n, at, val), Exec(s.code, m), st))
  {
    hide Exec, SlotInv, HandInv, ReadReg, ReadMem, WriteMem, Base, Address;
    assert VarOk(s.vars[n]);
    if n in st {
      PokeGood(s, m, st, n, at, val);
    } else if at == 0 && |val| == SlotBytes(s.vars[n]) {
      StoreToGood(s, m, st, n, InMem(s.vars[n].offset, s.vars[n].size), val);
    } else {
      PokeUnset(s, m, st, n, at, val);
    }
  }

  lemma WriteMemKeepsRegisters(c: State, addr: int, val: seq<Byte>)
    ensures WriteMem(c, addr, val).gpr == c.gpr
  {
  }

  // ----- runs -----

  lemma EvictRegGood(s: Alloc, m: State, st: Store, r: Reg)
    requires Good(s, m, st)
    ensures Good(EvictReg(s, r), m, st)
  {
    hide Good;
    EvictRegsGood(s, m, st, ConflictsOf(r, s.used));
  }

  lemma LeaveGood(s: Alloc, m: State, st: Store, i: Instr)
    requires Good(s, m, st) && (i.Label? || i.Jump?)
    ensures Good(Emit(EvictAll(s), i), m, st)
  {
    hide Good;
    EvictRegsGood(s, m, st, s.lru);
    EmitGood(EvictAll(s), m, st, i);
  }

  lemma GetGood(s: Alloc, m: State, st: Store, size: int)
    requires Good(s, m, st) && ValidSize(size)
    ensures Good(AfterGet(s, size), m, st)
  {
    hide Good, Choice, IsFree, Take;
    ChoiceIsFree(size, s.used);
    if Choice(size, s.used).Some? { TakeGood(s, m, st, Choice(size, s.used).value); }
  }

  lemma EvictForGood(s: Alloc, m: State, st: Store, size: int)
    requires Good(s, m, st) && ValidSize(size)
    ensures Good(AfterEvictFor(s, size), m, st)
  {
    hide Good, AfterGet, EvictRegs;
    if Victim(s.lru, size).Some? {
      var rs := [Victim(s.lru, size).value];
      EvictRegsGood(s, m, st, rs);
      GetGood(EvictRegs(s, rs), m, st, size);
    }
  }

  /** Every operation, on every allocation and value, keeps the refinement. */
  lemma ApplyGood(s: Alloc, m: State, st: Store, op: Op)
    requires Good(s, m, st) && Legal(s, op) && Apply(s, op).Some?
    ensures Good(Apply(s, op).value, m, Effect(s, op, Exec(s.code, m), st))
  {
    hide Good, EvictRegs, EvictEach, Space, NewLocal, AllocBytes, Arg, StackArg, Forget, Volatile, Indirect, AddressOf;
    hide ToRegister, UseRegister, Location, Acquire, Exec, ReadReg, ReadMem, StoreTo, AfterEvictFor, AfterGet;
    hide HasRoom, Fits, Bindable, Usable, IsFree, ValidSize, EvictForCall, EvictAll, EvictReg, Emit, Take, Release;
    match op
    case NewLocalOp(n, size) => NewLocalGood(s, m, st, n, size);
    case AllocBytesOp(n, size) => AllocBytesGood(s, m, st, n, size);
    case ArgOp(n, r) => ArgGood(s, m, st, n, r);
    case StackArgOp(n, i) => StackArgGood(s, m, st, n, i);
    case ForgetOp(n) => ForgetGood(s, m, st, n);
    case VolatileOp(n) => if n in s.vars { VolatileGood(s, m, st, n); }
    case RegisterOp(n) => ToRegisterGood(s, m, st, n);
    case UseRegisterOp(n, r) => UseRegisterGood(s, m, st, n, r);
    case LocationOp(n, prefer) => LocationGood(s, m, st, n, prefer);
    case IndirectOp(n) => AddressOfGood(s, m, st, n);
    case AddressOp(n) => AddressOfGood(s, m, st, n);
    case EvictForOp(size) => EvictForGood(s, m, st, size);
    case EvictRegOp(r) => EvictRegGood(s, m, st, r);
    case AcquireOp(r) => AcquireGood(s, m, st, r);
    case GetOp(size) => GetGood(s, m, st, size);
    case UseOp(r) => if IsFree(r, s.used) { TakeGood(s, m, st, r); }
    case ReleaseOp(r) => ReleaseGood(s, m, st, r);
    case LabelOp(l) => LeaveGood(s, m, st, Label(l));
    case JumpOp(l) => LeaveGood(s, m, st, Jump(l));
    case CallOut(gpr, mem) => CallGood(s, m, st, gpr, mem);
    case Write(n, prefer, val) => WriteGood(s, m, st, n, prefer, val);
    case WriteBytes(n, at, val) => WriteBytesGood(s, m, st, n, at, val);
    case WriteThrough(n, at, val) => WriteThroughGood(s, m, st, n, at, val);
    case WriteHeld(r, val) => WriteHeldGood(s, m, st, r, val);
  }

  /** A run that breaks no obligation of its caller and does not panic. */
  ghost predicate LegalRun(s: Alloc, ops: seq<Op>)
    decreases ops
  {
    ops == [] || (Legal(s, ops[0]) && Apply(s, ops[0]).Some? && LegalRun(Apply(s, ops[0]).value, ops[1..]))
  }

  ghost function Run(s: Alloc, ops: seq<Op>): Alloc
    requires LegalRun(s, ops)
    decreases ops
  {
    if ops == [] then s else Run(Apply(s, ops[0]).value, ops[1..])
  }

  ghost function RunEffect(s: Alloc, ops: seq<Op>, m: State, st: Store): Store
    requires LegalRun(s, ops)
    decreases ops
  {
    if ops == [] then st
    else RunEffect(Apply(s, ops[0]).value, ops[1..], m, Effect(s, ops[0], Exec(s.code, m), st))
  }

  /** The main result: after any run, executing all the code emitted so far
      leaves the value of every live allocation, as the plain map has it, in its
      register or its slot. */
  lemma {:induction false} RunRefines(s: Alloc, ops: seq<Op>, m: State, st: Store)
    requires Good(s, m, st) && LegalRun(s, ops)
    ensures Good(Run(s, ops), m, RunEffect(s, ops, m, st))
    decreases ops
  {
    hide Good, Apply, Effect, Legal, Exec;
    if ops != [] {
      ApplyGood(s, m, st, ops[0]);
      RunRefines(Apply(s, ops[0]).value, ops[1..], m, Effect(s, ops[0], Exec(s.code, m), st));
    }
  }

  /** The allocator of a function whose prologue holds RBP and RSP. */
  function Initial(): Alloc { Alloc({RBP, RSP}, map[], map[], [], 0, [], []) }

  lemma InitialIsGood(m: State)
    ensures Good(Initial(), m, map[])
  {
  }
}
