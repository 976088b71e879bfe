/** Which requests the allocator meets, and at whose cost: what it refuses, what it
    evicts, where it finds space, and which registers count as recently used. */
module AllocationAnswers {
  import opened Wrappers
  import opened Registers
  import opened RegisterFile
  import opened Bytes
  import opened Machine
  import opened Allocation
  import opened AllocationInvariant
  import opened AllocationRuns
  import opened AllocationJumps

  // ----- refusals -----

  /** A register that a request for some size can be answered with: a full one that
      nobody uses a part of, or the low byte of one but RSI and RDI. */
  ghost predicate Spare(size: int, used: set<Reg>) {
    if size == 8 then exists r: Reg :: HasByte(r) && IsFree(r, used)
    else exists r: Reg :: r.view.Qword? && IsFree(r, used)
  }

  /** A tracked register is wide enough to make room; for a byte it is the one that has
      been used least recently that must leave a byte register. */
  ghost predicate CanMakeRoom(s: Alloc, size: int) {
    if size == 8 then s.lru != [] && Spare(8, s.used - {s.lru[0]})
    else exists r <- s.regs.Keys :: Width(r) >= size
  }

  /** The size of the register that an allocation asks for. */
  function Wanted(v: Var): int { if v.regable then v.size else 64 }

  predicate HasByte(r: Reg) { r.view.Low8? && r.num != 6 && r.num != 7 }

  /** A byte register is found exactly if some low byte is free. */
  lemma ByteSucceeds(used: set<Reg>)
    ensures Choice(8, used).Some? <==> Spare(8, used)
  {
    hide IsFree, HasByte, FirstFree8;
    FirstByte(REGS8, used);
    BytesIn(REGS8);
  }

  lemma BytesIn(candidates: seq<Reg>)
    requires candidates == REGS8
    ensures forall r: Reg :: r in candidates <==> HasByte(r)
  {
    forall r: Reg ensures r in candidates <==> HasByte(r) { ByteInPriorityList(r); }
  }

  lemma ByteInPriorityList(r: Reg)
    ensures r in REGS8 <==> HasByte(r)
  {
    if HasByte(r) { assert r.num in [3, 1, 2, 0, 8, 9, 10, 11, 12, 13, 14, 15]; }
  }

  lemma {:induction false} FirstByte(candidates: seq<Reg>, used: set<Reg>)
    ensures FirstFree8(candidates, used).Some? <==> exists c <- candidates :: IsFree(c, used)
  {
    hide IsFree;
    if candidates != [] {
      FirstByte(candidates[1..], used);
      assert forall c: Reg :: c in candidates <==> c == candidates[0] || c in candidates[1..];
    }
  }

  /** A request for a register is met exactly if one is spare or room can be made, and
      only then and only there is anything evicted: the register that has been used
      least recently of those that are wide enough. */
  lemma ObtainSucceeds(s: Alloc, size: int)
    requires RegInv(s) && ValidSize(size)
    ensures Obtain(s, size).Some? <==> Spare(size, s.used) || CanMakeRoom(s, size)
    ensures Obtain(s, size).Some? ==> Stays(s, Obtain(s, size).value.0.regs.Keys, size)
  {
    hide IsFree, RegInv, EvictRegs, Choice;
    if size == 8 { ByteSucceeds(s.used); } else { ChoiceSucceeds(size, s.used); }
    if Choice(size, s.used).None? {
      VictimIsFirst(s.lru, size);
      if size == 8 { ByteRoom(s); } else { EvictForSucceeds(s, size); }
    }
  }

  /** All that is tracked stays so if a register is spare, and otherwise all but the
      first wide enough register of the list. */
  ghost predicate Stays(s: Alloc, kept: set<Reg>, size: int) {
    if Spare(size, s.used) then kept == s.regs.Keys
    else
      exists i :: 0 <= i < |s.lru| && Width(s.lru[i]) >= size && (forall j :: 0 <= j < i ==> Width(s.lru[j]) < size)
                  && kept == s.regs.Keys - {s.lru[i]}
  }

  lemma ByteRoom(s: Alloc)
    requires RegInv(s)
    ensures EvictFor(s, 8).Some? <==> s.lru != [] && Spare(8, s.used - {s.lru[0]})
    ensures EvictFor(s, 8).Some? ==> EvictFor(s, 8).value.0.regs.Keys == s.regs.Keys - {s.lru[0]}
  {
    hide IsFree;
    if s.lru != [] {
      var r := s.lru[0];
      assert Victim(s.lru, 8) == Some(r) && r in s.regs;
      EvictRegsKeeps(s, [r]);
      assert EvictRegs(s, [r]).used == s.used - {r};
      ByteSucceeds(s.used - {r});
    }
  }

  /** `Register` panics exactly for a volatile variable and where no register can be
      had. */
  lemma RegisterSucceeds(s: Alloc, n: string)
    requires RegInv(s) && n in s.vars
    ensures var v := s.vars[n];
            ToRegister(s, n).Some? <==>
              !(v.volatile && v.regable) && (v.inreg || Spare(Wanted(v), s.used) || CanMakeRoom(s, Wanted(v)))
  {
    var v := s.vars[n];
    hide RegInv, Obtain, Spare, Without, CanMakeRoom, Stays;
    if !v.inreg {
      WantedIsValid(s, n);
      ObtainSucceeds(s, Wanted(v));
      ObtainKeepsOther(s, Wanted(v), n);
    }
  }

  /** A variable that is in a register stays there, at no cost.  Otherwise no other is
      evicted if a register is spare, and if none is, only the least recently used one
      of those that are wide enough. */
  lemma RegisterCosts(s: Alloc, n: string)
    requires RegInv(s) && n in s.vars && ToRegister(s, n).Some?
    ensures var (t, r) := ToRegister(s, n).value;
            if s.vars[n].inreg then t.regs == s.regs && t.code == s.code && r == s.vars[n].reg
            else exists kept :: Stays(s, kept, Wanted(s.vars[n])) && t.regs.Keys == kept + {r}
  {
    var v := s.vars[n];
    hide RegInv, Obtain, Spare, Without, CanMakeRoom, Stays;
    if !v.inreg {
      WantedIsValid(s, n);
      ObtainSucceeds(s, Wanted(v));
      var (t, r) := ToRegister(s, n).value;
      assert t.regs.Keys == Obtain(s, Wanted(v)).value.0.regs.Keys + {r};
    }
  }

  lemma WantedIsValid(s: Alloc, n: string)
    requires RegInv(s) && n in s.vars
    ensures ValidSize(Wanted(s.vars[n]))
  {
    hide Tracks, Permutes, Apart;
    assert VarOk(s.vars[n]);
  }

  /** `UseRegister` panics exactly for a volatile variable and for a register of another
      width. */
  lemma UseRegisterSucceeds(s: Alloc, n: string, r: Reg)
    requires RegInv(s) && n in s.vars
    ensures var v := s.vars[n];
            UseRegister(s, n, r).Some? <==>
              !(v.volatile && v.regable) && ((v.inreg && v.reg == r) || !v.regable || v.size == Width(r))
  {
    hide Overlap, RegInv, IsFree, Without, EvictReg;
    EvictRegKeeps(s, r);
  }

  /** If the variable is there already nothing happens; otherwise exactly the registers
      that share bits with the one asked for, and the one that the variable was in, are
      given up. */
  lemma UseRegisterCosts(s: Alloc, n: string, r: Reg)
    requires RegInv(s) && n in s.vars && UseRegister(s, n, r).Some?
    ensures var v, t := s.vars[n], UseRegister(s, n, r).value;
            if v.inreg && v.reg == r then t == s
            else forall u: Reg :: u in t.regs <==> u == r || (u in s.regs && !Overlap(u, r) && !(v.inreg && u == v.reg))
  {
    var v := s.vars[n];
    hide RegInv, Without, EvictReg, Overlap;
    EvictRegKeeps(s, r);
    EvictRegStays(s, r, n);
    if !(v.inreg && v.reg == r) {
      if IsFree(r, s.used) { FreeIsApart(s, r); }
      var s1 := if IsFree(r, s.used) then s else EvictReg(s, r);
      assert forall u: Reg :: u in s1.regs <==> u in s.regs && !Overlap(u, r);
      SeatCosts(if IsFree(r, s1.used) then Take(s1, r) else s1, n, r);
    }
  }

  lemma FreeIsApart(s: Alloc, r: Reg)
    requires RegInv(s) && IsFree(r, s.used)
    ensures forall u: Reg :: u in s.regs ==> !Overlap(u, r)
  {
  }

  lemma SeatCosts(s: Alloc, n: string, r: Reg)
    requires Seat(s, n, r).Some?
    ensures forall u: Reg :: u in Seat(s, n, r).value.regs <==> u == r || (u in s.regs && !(s.vars[n].inreg && u == s.vars[n].reg))
  {
  }

  /** A variable stays in a register that shares no bits with one that is cleared. */
  lemma EvictRegStays(s: Alloc, r: Reg, n: string)
    requires RegInv(s) && n in s.vars
    ensures n in EvictReg(s, r).vars
    ensures !(s.vars[n].inreg && Overlap(s.vars[n].reg, r)) ==> EvictReg(s, r).vars[n] == s.vars[n]
    ensures s.vars[n].inreg && Overlap(s.vars[n].reg, r) ==> !EvictReg(s, r).vars[n].inreg
  {
    ConflictsAreOverlaps(r, s.used);
    EvictRegKeeps(s, r);
    EvictRegsKeeps(s, ConflictsOf(r, s.used));
    if !(s.vars[n].inreg && Overlap(s.vars[n].reg, r)) {
      EvictRegsLeaves(s, ConflictsOf(r, s.used), n);
    } else {
      forall x: Reg | x in EvictReg(s, r).regs ensures EvictReg(s, r).regs[x] != n { assert s.regs[x] == EvictReg(s, r).regs[x]; }
    }
  }

  /** `Location` answers with the register that an allocation is in; a variable that is
      in none, unless one is preferred, with its slot.  Neither costs any code, and only
      for the rest is a register asked for. */
  lemma LocationAnswers(s: Alloc, n: string, prefer: bool)
    requires RegInv(s) && n in s.vars
    ensures var v, got := s.vars[n], Location(s, n, prefer);
            if v.inreg then got.Some? && got.value.1 == InReg(v.reg) && got.value.0.code == s.code && got.value.0.regs == s.regs
            else if v.regable && !prefer then
              got.Some? && got.value.1 == InMem(v.offset, v.size) && got.value.0.code == s.code && got.value.0.regs == s.regs
            else
              && (got.Some? <==> !(v.volatile && v.regable) && (Spare(Wanted(v), s.used) || CanMakeRoom(s, Wanted(v))))
              && (got.Some? ==> got.value.1.InReg? && got.value.0.vars[n].inreg && got.value.0.vars[n].reg == got.value.1.reg)
  {
    hide RegInv, Spare, CanMakeRoom, ToRegister;
    RegisterSucceeds(s, n);
    ToRegisterKeeps(s, n);
  }

  // ----- what is given back -----

  /** A call evicts exactly the caller-saved registers. */
  lemma CallEvictsExactly(s: Alloc, u: Reg)
    requires RegInv(s)
    ensures u in EvictForCall(s).regs <==> u in s.regs && !CallerSaved(u.num)
  {
    hide EvictEach, RegInv;
    EvictEachKeeps(s, CALLER_SAVED);
    assert CallerSaved(u.num) ==> FullReg(u) in CALLER_SAVED && Overlap(u, FullReg(u));
    forall r <- CALLER_SAVED | Overlap(u, r) ensures CallerSaved(u.num) { }
  }

  /** What is forgotten gives back its register, and the others keep theirs. */
  lemma ForgetFreesRegister(s: Alloc, n: string)
    requires RegInv(s) && n in s.vars
    ensures var t, v := Forget(s, n), s.vars[n];
            && t.vars == s.vars - {n} && t.used == (if v.inreg then s.used - {v.reg} else s.used)
            && (forall u: Reg :: u in t.regs <==> u in s.regs && s.regs[u] != n)
            && (forall u: Reg :: u in t.lru <==> u in t.regs)
  {
    hide Apart, VarsOk, Without, FreedBytes;
    WithoutRemoves(s.lru, s.vars[n].reg);
  }

  /** A variable of the size of one that was forgotten takes no further space. */
  lemma ForgetFreesSlot(s: Alloc, n: string, k: string)
    requires RegInv(s) && n in s.vars && s.vars[n].regable && (k == n || k !in s.vars)
    ensures NewLocal(Forget(s, n), k, s.vars[n].size).localoff == s.localoff
  {
    var t, v := Forget(s, n), s.vars[n];
    WantedIsValid(s, n);
    assert t.freeSpace[|s.freeSpace|] == Slot(v.size / 8, v.offset);
    assert Slot(v.size / 8, v.offset) in t.freeSpace;
    hide RegInv, Forget, SlotIndex;
    FirstOfSize(t.freeSpace, Int32(v.size) / 8);
  }

  // ----- space -----

  /** The frame grows exactly if no freed slot has the size asked for; otherwise the
      first freed slot of that size is handed out, and the others stay as they are. */
  lemma SpaceReuses(s: Alloc, size: int)
    ensures var (t, off) := Space(s, size);
            if exists f <- s.freeSpace :: f.size == size then
              exists k :: && 0 <= k < |s.freeSpace| && s.freeSpace[k] == Slot(size, off)
                          && (forall j :: 0 <= j < k ==> s.freeSpace[j].size != size)
                          && t == s.(freeSpace := s.freeSpace[..k] + s.freeSpace[k + 1..])
            else t.freeSpace == s.freeSpace && t.localoff == Uint32(s.localoff + size) && off == Int32(-t.localoff)
  {
    FirstOfSize(s.freeSpace, size);
  }

  lemma {:induction false} FirstOfSize(free: seq<Slot>, size: int)
    ensures SlotIndex(free, size) < 0 <==> forall f <- free :: f.size != size
    ensures forall j :: 0 <= j < SlotIndex(free, size) ==> free[j].size != size
  {
    if free != [] && free[0].size != size {
      FirstOfSize(free[1..], size);
      assert forall f :: f in free <==> f == free[0] || f in free[1..];
    }
  }

  // ----- recent use -----

  /** The register whose use an operation notes, if any.  Nothing is noted when
      `UseRegister` is called for the register that the variable is in. */
  ghost function Noted(s: Alloc, op: Op): Option<Reg>
    requires Apply(s, op).Some?
  {
    var t := Apply(s, op).value;
    match op
    case RegisterOp(n) => if n in t.vars then Some(t.vars[n].reg) else None
    case UseRegisterOp(n, r) => if n in s.vars && s.vars[n].inreg && s.vars[n].reg == r then None else Some(r)
    case LocationOp(n, _) => if n in t.vars && t.vars[n].inreg then Some(t.vars[n].reg) else None
    case Write(n, _, _) => if n in t.vars && t.vars[n].inreg then Some(t.vars[n].reg) else None
    case ArgOp(n, r) => if n in s.vars then None else Some(r)
    case _ => None
  }

  /** When each register was last used: the number of the operation. */
  type Uses = map<Reg, nat>

  ghost function Note(s: Alloc, op: Op, now: nat, uses: Uses): Uses
    requires Apply(s, op).Some?
  {
    var r := Noted(s, op);
    if r.Some? then uses[r.value := now] else uses
  }

  ghost function LastUses(s: Alloc, ops: seq<Op>, now: nat, uses: Uses): Uses
    requires LegalRun(s, ops)
    decreases ops
  {
    if ops == [] then uses else LastUses(Apply(s, ops[0]).value, ops[1..], now + 1, Note(s, ops[0], now, uses))
  }

  /** The list names registers used so far, the one used longest ago first. */
  ghost predicate ByUse(lru: seq<Reg>, uses: Uses, now: nat) {
    && (forall r <- lru :: r in uses && uses[r] < now)
    && (forall i, j :: 0 <= i < j < |lru| ==> uses[lru[i]] < uses[lru[j]])
  }

  lemma {:induction false} WithoutByUse(lru: seq<Reg>, r: Reg, uses: Uses, now: nat)
    requires ByUse(lru, uses, now)
    ensures ByUse(Without(lru, r), uses, now)
  {
    if lru != [] {
      var rest := lru[1..];
      assert forall i :: 0 <= i < |rest| ==> rest[i] == lru[i + 1];
      WithoutByUse(rest, r, uses, now);
      WithoutRemoves(rest, r);
      forall x <- rest ensures uses[lru[0]] < uses[x] { var i :| 0 <= i < |rest| && rest[i] == x; }
    }
  }

  lemma TouchByUse(lru: seq<Reg>, r: Reg, uses: Uses, now: nat)
    requires ByUse(lru, uses, now)
    ensures ByUse(Without(lru, r) + [r], uses[r := now], now + 1)
  {
    WithoutByUse(lru, r, uses, now);
    WithoutRemoves(lru, r);
    var rest := Without(lru, r);
    forall x <- rest ensures x in uses && x != r { }
  }

  lemma {:induction false} EvictByUse(s: Alloc, rs: seq<Reg>, uses: Uses, now: nat)
    requires ByUse(s.lru, uses, now)
    ensures ByUse(EvictRegs(s, rs).lru, uses, now)
    decreases rs
  {
    hide ByUse;
    if rs != [] {
      if rs[0] in s.regs && s.regs[rs[0]] in s.vars {
        WithoutByUse(s.lru, s.vars[s.regs[rs[0]]].reg, uses, now);
        EvictByUse(EvictVar(s, s.regs[rs[0]]), rs[1..], uses, now);
      } else {
        EvictByUse(s, rs[1..], uses, now);
      }
    }
  }

  lemma {:induction false} EvictEachByUse(s: Alloc, rs: seq<Reg>, uses: Uses, now: nat)
    requires ByUse(s.lru, uses, now)
    ensures ByUse(EvictEach(s, rs).lru, uses, now)
    decreases rs
  {
    hide ByUse;
    if rs != [] {
      EvictByUse(s, ConflictsOf(rs[0], s.used), uses, now);
      EvictEachByUse(EvictReg(s, rs[0]), rs[1..], uses, now);
    }
  }

  lemma NamedByUse(s: Alloc, op: Op, uses: Uses, now: nat)
    requires ByUse(s.lru, uses, now) && OnNames(op)
    ensures ByUse(Apply(s, op).value.lru, Note(s, op, now, uses), now + 1)
  {
    hide ByUse, SlotIndex, Int32, Uint32, Without, FreedBytes, IsFree;
    if op.ArgOp? {
      TouchByUse(s.lru, op.r, uses, now);
    } else if op.ForgetOp? && op.n in s.vars {
      WithoutByUse(s.lru, s.vars[op.n].reg, uses, now);
      LaterByUse(Without(s.lru, s.vars[op.n].reg), uses, now);
    }
    LaterByUse(s.lru, uses, now);
  }

  lemma PlacedByUse(s: Alloc, n: string, r: Reg, uses: Uses, now: nat)
    requires ByUse(s.lru, uses, now) && n in s.vars
    ensures ByUse(Place(s, n, r).lru, uses[r := now], now + 1) && Place(s, n, r).vars[n].reg == r
    ensures s.vars[n].inreg ==> ByUse(Moved(s, n, r).lru, uses[r := now], now + 1)
  {
    hide ByUse, Without;
    TouchByUse(s.lru, r, uses, now);
    WithoutByUse(s.lru, s.vars[n].reg, uses, now);
    TouchByUse(Without(s.lru, s.vars[n].reg), r, uses, now);
  }

  lemma RegisterByUse(s: Alloc, n: string, uses: Uses, now: nat)
    requires ByUse(s.lru, uses, now) && n in s.vars && ToRegister(s, n).Some?
    ensures var (t, r) := ToRegister(s, n).value;
            n in t.vars && t.vars[n].reg == r && t.vars[n].inreg && ByUse(t.lru, uses[r := now], now + 1)
  {
    hide ByUse, Without, EvictRegs;
    var v := s.vars[n];
    if v.inreg {
      TouchByUse(s.lru, v.reg, uses, now);
    } else {
      var size := Wanted(v);
      if Victim(s.lru, size).Some? { EvictByUse(s, [Victim(s.lru, size).value], uses, now); }
      var (s1, r) := Obtain(s, size).value;
      var s2 := if !v.regable then Emit(s1, Lea(r, v.offset)) else if v.inmem then LoadInto(s1, v, r) else s1;
      PlacedByUse(s2, n, r, uses, now);
    }
  }

  lemma UseRegisterByUse(s: Alloc, n: string, r: Reg, uses: Uses, now: nat)
    requires ByUse(s.lru, uses, now) && n in s.vars && UseRegister(s, n, r).Some?
    ensures s.vars[n].inreg && s.vars[n].reg == r ==> UseRegister(s, n, r).value == s
    ensures !(s.vars[n].inreg && s.vars[n].reg == r) ==> ByUse(UseRegister(s, n, r).value.lru, uses[r := now], now + 1)
  {
    hide ByUse, Without, EvictRegs, ConflictsOf, IsFree;
    if !(s.vars[n].inreg && s.vars[n].reg == r) {
      EvictByUse(s, ConflictsOf(r, s.used), uses, now);
      var s1 := if IsFree(r, s.used) then s else EvictReg(s, r);
      var s2 := if IsFree(r, s1.used) then Take(s1, r) else s1;
      PlacedByUse(Emit(s2, Mov(r, s2.vars[n].reg)), n, r, uses, now);
      PlacedByUse(s2, n, r, uses, now);
    }
  }

  lemma {:induction false} LaterByUse(lru: seq<Reg>, uses: Uses, now: nat)
    requires ByUse(lru, uses, now)
    ensures ByUse(lru, uses, now + 1)
  {
  }

  lemma ExistingByUse(s: Alloc, op: Op, uses: Uses, now: nat)
    requires ByUse(s.lru, uses, now) && OnExisting(op) && Apply(s, op).Some?
    ensures ByUse(Apply(s, op).value.lru, Note(s, op, now, uses), now + 1)
  {
    hide ByUse, Without, ToRegister, UseRegister;
    LaterByUse(s.lru, uses, now);
    if op.n in s.vars {
      var v := s.vars[op.n];
      WithoutByUse(s.lru, v.reg, uses, now);
      LaterByUse(Without(s.lru, v.reg), uses, now);
      TouchByUse(s.lru, v.reg, uses, now);
      if ToRegister(s, op.n).Some? { RegisterByUse(s, op.n, uses, now); }
      if op.UseRegisterOp? { UseRegisterByUse(s, op.n, op.r, uses, now); }
    }
  }

  lemma OtherByUse(s: Alloc, op: Op, uses: Uses, now: nat)
    requires ByUse(s.lru, uses, now) && !OnExisting(op) && !OnNames(op) && Apply(s, op).Some?
    ensures ByUse(Apply(s, op).value.lru, Note(s, op, now, uses), now + 1)
  {
    hide ByUse, EvictRegs, EvictEach, ConflictsOf, Choice, IsFree;
    LaterByUse(s.lru, uses, now);
    match op {
    case EvictForOp(size) =>
      if Victim(s.lru, size).Some? { EvictByUse(s, [Victim(s.lru, size).value], uses, now); }
    case EvictRegOp(r) => EvictByUse(s, ConflictsOf(r, s.used), uses, now);
    case AcquireOp(r) => EvictByUse(s, ConflictsOf(r, s.used), uses, now);
    case LabelOp(_) => EvictByUse(s, s.lru, uses, now);
    case JumpOp(_) => EvictByUse(s, s.lru, uses, now);
    case CallOut(_, _) => EvictEachByUse(s, CALLER_SAVED, uses, now);
    case _ =>
    }
    LaterByUse(Apply(s, op).value.lru, uses, now);
  }

  /** After any run the list orders the tracked registers by their last use, the
      one not used for the longest time first. */
  lemma {:induction false} LruIsByUse(s: Alloc, ops: seq<Op>, now: nat, uses: Uses)
    requires LegalRun(s, ops) && ByUse(s.lru, uses, now)
    ensures ByUse(Run(s, ops).lru, LastUses(s, ops, now, uses), now + |ops|)
    decreases ops
  {
    hide ByUse, Apply, Legal, Note;
    if ops != [] {
      var op := ops[0];
      if OnExisting(op) { ExistingByUse(s, op, uses, now); }
      else if OnNames(op) { NamedByUse(s, op, uses, now); }
      else { OtherByUse(s, op, uses, now); }
      LruIsByUse(Apply(s, op).value, ops[1..], now + 1, Note(s, op, now, uses));
    }
  }

  /** The register that an eviction for some size takes, in any state of a function's
      compilation, is the one of those wide enough whose last use is the longest ago. */
  lemma VictimIsOldest(ops: seq<Op>, size: int)
    requires LegalRun(Initial(), ops) && Victim(Run(Initial(), ops).lru, size).Some?
    ensures var lru, uses := Run(Initial(), ops).lru, LastUses(Initial(), ops, 0, map[]);
            var u := Victim(lru, size).value;
            && u in lru && Width(u) >= size && u in uses
            && forall r <- lru :: r in uses && (Width(r) >= size && r != u ==> uses[u] < uses[r])
  {
    hide Run, LegalRun, LastUses;
    LruIsByUse(Initial(), ops, 0, map[]);
    VictimIsFirst(Run(Initial(), ops).lru, size);
  }
}
