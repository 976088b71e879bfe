/** A variable whose address has been taken: from then on, and until it is
    forgotten, it lives in its slot and nowhere else, whatever else happens, so that
    what is written through the address is what the function reads. */
module AllocationVolatile {
  import opened Wrappers
  import opened Registers
  import opened RegisterFile
  import opened Bytes
  import opened Machine
  import opened Allocation
  import opened AllocationInvariant
  import opened AllocationSlots
  import opened AllocationRefinement
  import opened AllocationRuns
  import opened AllocationJumps

  /** The variable is in its slot, and whoever asks for it in a register is refused. */
  ghost predicate OnlyInSlot(s: Alloc, n: string, off: int, size: int) {
    && n in s.vars && !s.vars[n].inreg && (forall u: Reg :: u in s.regs ==> s.regs[u] != n)
    && ToRegister(s, n).None? && (forall r: Reg :: UseRegister(s, n, r).None?)
    && Location(s, n, true).None? && Location(s, n, false) == Some((s, InMem(off, size))) && Indirect(s, n) == s
    && s.vars[n].offset == off && s.vars[n].size == size
  }

  lemma FlagHolds(s: Alloc, n: string)
    requires RegInv(s) && n in s.vars && s.vars[n].regable && s.vars[n].volatile
    ensures OnlyInSlot(s, n, s.vars[n].offset, s.vars[n].size)
  {
    hide Permutes, Apart, Overlap;
    assert VarOk(s.vars[n]);
    assert MarkInMem(s, n).vars == s.vars;
  }

  lemma {:induction false} EvictEachLeaves(s: Alloc, rs: seq<Reg>, n: string)
    requires RegInv(s) && n in s.vars && !s.vars[n].inreg
    ensures n in EvictEach(s, rs).vars && EvictEach(s, rs).vars[n] == s.vars[n]
    decreases rs
  {
    hide Overlap, ConflictsOf, EvictRegs, RegInv;
    if rs != [] {
      EvictRegsLeaves(s, ConflictsOf(rs[0], s.used), n);
      EvictRegKeeps(s, rs[0]);
      EvictEachLeaves(EvictReg(s, rs[0]), rs[1..], n);
    }
  }

  lemma ToRegisterLeaves(s: Alloc, k: string, n: string)
    requires RegInv(s) && k in s.vars && n in s.vars && !s.vars[n].inreg && k != n
    ensures ToRegister(s, k).Some? ==> n in ToRegister(s, k).value.0.vars && ToRegister(s, k).value.0.vars[n] == s.vars[n]
  {
    hide Overlap, RegInv, Obtain, Without;
    ObtainKeepsOther(s, if s.vars[k].regable then s.vars[k].size else 64, n);
  }

  lemma UseRegisterLeaves(s: Alloc, k: string, r: Reg, n: string)
    requires RegInv(s) && k in s.vars && n in s.vars && !s.vars[n].inreg && k != n
    ensures UseRegister(s, k, r).Some? ==> n in UseRegister(s, k, r).value.vars && UseRegister(s, k, r).value.vars[n] == s.vars[n]
  {
    hide Overlap, RegInv, ConflictsOf, EvictRegs, IsFree, Without;
    EvictRegsLeaves(s, ConflictsOf(r, s.used), n);
  }

  lemma AfterEvictForLeaves(s: Alloc, size: int, n: string)
    requires RegInv(s) && n in s.vars && !s.vars[n].inreg
    ensures n in AfterEvictFor(s, size).vars && AfterEvictFor(s, size).vars[n] == s.vars[n]
  {
    hide RegInv, EvictRegs, Choice;
    if Victim(s.lru, size).Some? { EvictRegsLeaves(s, [Victim(s.lru, size).value], n); }
  }

  ghost predicate Kept(s: Alloc, t: Option<Alloc>, n: string)
    requires n in s.vars
  {
    t.Some? ==> n in t.value.vars && t.value.vars[n] == s.vars[n]
  }

  lemma FlagKeptByExisting(s: Alloc, op: Op, n: string)
    requires RegInv(s) && n in s.vars && s.vars[n].regable && s.vars[n].volatile && OnExisting(op)
    ensures Kept(s, Apply(s, op), n)
  {
    FlagHolds(s, n);
    hide RegInv, ToRegister, UseRegister, EvictRegs, Without;
    if op.n in s.vars && op.n != n {
      ToRegisterLeaves(s, op.n, n);
      if op.UseRegisterOp? { UseRegisterLeaves(s, op.n, op.r, n); }
    }
  }

  lemma FlagKeptByNames(s: Alloc, op: Op, n: string)
    requires n in s.vars && OnNames(op) && op != ForgetOp(n)
    ensures Kept(s, Apply(s, op), n)
  {
    hide SlotIndex, Int32, Uint32, Without, IsFree, FreedBytes;
  }

  lemma FlagKeptByOthers(s: Alloc, op: Op, n: string)
    requires RegInv(s) && n in s.vars && !s.vars[n].inreg && !OnExisting(op) && !OnNames(op)
    ensures Kept(s, Apply(s, op), n)
  {
    hide RegInv, EvictRegs, EvictEach, ConflictsOf, AfterEvictFor, Choice, IsFree;
    match op
    case EvictForOp(size) => AfterEvictForLeaves(s, size, n);
    case EvictRegOp(r) => EvictRegsLeaves(s, ConflictsOf(r, s.used), n);
    case AcquireOp(r) => EvictRegsLeaves(s, ConflictsOf(r, s.used), n);
    case LabelOp(_) => EvictRegsLeaves(s, s.lru, n);
    case JumpOp(_) => EvictRegsLeaves(s, s.lru, n);
    case CallOut(_, _) => EvictEachLeaves(s, CALLER_SAVED, n);
    case _ =>
  }

  /** No operation but the one that forgets it changes such a variable. */
  lemma FlagKept(s: Alloc, op: Op, n: string)
    requires RegInv(s) && n in s.vars && s.vars[n].regable && s.vars[n].volatile
    requires Apply(s, op).Some? && op != ForgetOp(n)
    ensures n in Apply(s, op).value.vars && Apply(s, op).value.vars[n] == s.vars[n]
  {
    FlagHolds(s, n);
    hide RegInv, Apply;
    if OnExisting(op) {
      FlagKeptByExisting(s, op, n);
    } else if OnNames(op) {
      FlagKeptByNames(s, op, n);
    } else {
      FlagKeptByOthers(s, op, n);
    }
  }

  lemma {:induction false} FlagKeptByRun(s: Alloc, ops: seq<Op>, m: State, st: Store, n: string)
    requires Good(s, m, st) && LegalRun(s, ops) && ForgetOp(n) !in ops
    requires n in s.vars && s.vars[n].regable && s.vars[n].volatile
    ensures n in Run(s, ops).vars && Run(s, ops).vars[n] == s.vars[n] && RegInv(Run(s, ops))
    decreases ops
  {
    hide RegInv, Implements, SlotInv, HandInv, Apply, Legal, Effect, Exec;
    if ops != [] {
      FlagKept(s, ops[0], n);
      ApplyGood(s, m, st, ops[0]);
      FlagKeptByRun(Apply(s, ops[0]).value, ops[1..], m, Effect(s, ops[0], Exec(s.code, m), st), n);
    }
  }

  /** Once the address of a variable has been taken, in every state of a run in which
      it is not forgotten it is found in its slot alone: it is in no register, Register
      and UseRegister panic, Location and Indirect lead to the slot it had from the
      beginning, and whoever has the address may write any part of it. */
  lemma VolatileStaysInSlot(s: Alloc, ops: seq<Op>, m: State, st: Store, n: string, at: nat, val: seq<Byte>)
    requires Good(s, m, st) && n in s.vars && s.vars[n].regable
    requires LegalRun(s, [VolatileOp(n)] + ops) && ForgetOp(n) !in ops
    ensures var t := Run(s, [VolatileOp(n)] + ops);
            && OnlyInSlot(t, n, s.vars[n].offset, s.vars[n].size)
            && (at + |val| <= s.vars[n].size / 8 ==> Legal(t, WriteThrough(n, at, val)))
  {
    hide RegInv, Implements, SlotInv, HandInv, Exec, Legal, Effect, OnlyInSlot;
    var all := [VolatileOp(n)] + ops;
    assert all[0] == VolatileOp(n) && all[1..] == ops;
    ApplyGood(s, m, st, VolatileOp(n));
    VolatileSlot(s, n);
    FlagKeptByRun(Volatile(s, n), ops, m, Effect(s, VolatileOp(n), Exec(s.code, m), st), n);
    FlagHolds(Run(s, all), n);
    WriteIsLegal(Run(s, all), n, at, val);
  }

  lemma VolatileSlot(s: Alloc, n: string)
    requires n in s.vars && s.vars[n].regable
    ensures var v := Volatile(s, n).vars[n];
            v.regable && v.volatile && v.offset == s.vars[n].offset && v.size == s.vars[n].size
  {
  }

  lemma WriteIsLegal(s: Alloc, n: string, at: nat, val: seq<Byte>)
    requires n in s.vars && s.vars[n].regable && s.vars[n].volatile
    ensures at + |val| <= s.vars[n].size / 8 ==> Legal(s, WriteThrough(n, at, val))
  {
  }
}
