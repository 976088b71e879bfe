/** The stack frame: live allocations and freed slots never share a byte and
    stay within the frame or the caller's argument area. */
module AllocationSlots {
  import opened Registers
  import opened RegisterFile
  import opened Bytes
  import opened Allocation
  import opened AllocationInvariant

  predicate Separate(off: int, n: int, off': int, n': int) { off + n <= off' || off' + n' <= off }

  /** Local slots lie below RBP within the frame; stack arguments lie past the
      six saved registers and the return address. */
  predicate InFrame(off: int, n: int, localoff: int) {
    n >= 0 && ((-localoff <= off && off + n <= 0) || off >= SAVED_SIZE + 8)
  }

  /** A slot that lies in the frame and apart from every live and freed one. */
  ghost predicate Fits(s: Alloc, off: int, n: int) {
    && InFrame(off, n, s.localoff)
    && (forall k :: k in s.vars ==> Separate(off, n, s.vars[k].offset, SlotBytes(s.vars[k])))
    && (forall i :: 0 <= i < |s.freeSpace| ==> Separate(off, n, s.freeSpace[i].offset, s.freeSpace[i].size))
  }

  ghost predicate SlotInv(s: Alloc) {
    && 0 <= s.localoff < TWO31
    && (forall k :: k in s.vars ==> InFrame(s.vars[k].offset, SlotBytes(s.vars[k]), s.localoff))
    && (forall i :: 0 <= i < |s.freeSpace| ==> InFrame(s.freeSpace[i].offset, s.freeSpace[i].size, s.localoff))
    && (forall k, l :: k in s.vars && l in s.vars && k != l ==>
          Separate(s.vars[k].offset, SlotBytes(s.vars[k]), s.vars[l].offset, SlotBytes(s.vars[l])))
    && (forall k, i :: k in s.vars && 0 <= i < |s.freeSpace| ==>
          Separate(s.vars[k].offset, SlotBytes(s.vars[k]), s.freeSpace[i].offset, s.freeSpace[i].size))
    && (forall i, j :: 0 <= i < j < |s.freeSpace| ==>
          Separate(s.freeSpace[i].offset, s.freeSpace[i].size, s.freeSpace[j].offset, s.freeSpace[j].size))
  }

  lemma SameSlotsKeep(s: Alloc, t: Alloc)
    requires SlotInv(s) && SameSlots(s, t)
    ensures SlotInv(t)
  {
  }

  /** Room for some more bytes without the 32-bit frame offset wrapping. */
  predicate HasRoom(s: Alloc, size: int) { size >= 0 && s.localoff + size < TWO31 }

  /** A slot handed out shares no byte with a live allocation or a freed slot. */
  lemma SpaceFits(s: Alloc, size: int)
    requires SlotInv(s) && HasRoom(s, size)
    ensures var (t, off) := Space(s, size);
            && SlotInv(t) && Fits(t, off, size)
            && t == s.(freeSpace := t.freeSpace, localoff := t.localoff)
            && s.localoff <= t.localoff <= s.localoff + size
  {
    if SlotIndex(s.freeSpace, size) >= 0 { FreedSlotFits(s, size); } else { NewSlotFits(s, size); }
  }

  lemma FreedSlotFits(s: Alloc, size: int)
    requires SlotInv(s) && SlotIndex(s.freeSpace, size) >= 0
    ensures var (t, off) := Space(s, size);
            SlotInv(t) && Fits(t, off, size) && t == s.(freeSpace := t.freeSpace)
  {
    var k := SlotIndex(s.freeSpace, size);
    var (t, off) := Space(s, size);
    assert s.freeSpace[k] == Slot(size, off);
    assert forall i :: 0 <= i < |t.freeSpace| ==> t.freeSpace[i] == s.freeSpace[if i < k then i else i + 1];
  }

  lemma NewSlotFits(s: Alloc, size: int)
    requires SlotInv(s) && HasRoom(s, size) && SlotIndex(s.freeSpace, size) < 0
    ensures var (t, off) := Space(s, size);
            SlotInv(t) && Fits(t, off, size) && t == s.(localoff := s.localoff + size)
  {
    var (t, off) := Space(s, size);
    assert t.localoff == s.localoff + size && off == -t.localoff;
  }

  lemma AddKeepsSlots(s: Alloc, n: string, v: Var)
    requires SlotInv(s) && n !in s.vars && Fits(s, v.offset, SlotBytes(v))
    ensures SlotInv(Add(s, n, v))
  {
  }

  lemma AddKeepsRegs(s: Alloc, n: string, v: Var)
    requires RegInv(s) && n !in s.vars && VarOk(v) && !v.inreg
    ensures RegInv(Add(s, n, v))
  {
  }

  lemma SmallInt32(x: int)
    requires 0 <= x < TWO31
    ensures Int32(x) == x && Uint32(x) == x && Int32(-x) == -x
  {
  }

  lemma AddInSpaceKeeps(s: Alloc, n: string, size: int, v: Var)
    requires RegInv(s) && SlotInv(s) && HasRoom(s, size) && n !in s.vars
    requires v.offset == Space(s, size).1 && SlotBytes(v) == size && VarOk(v) && !v.inreg
    ensures RegInv(Add(Space(s, size).0, n, v)) && SlotInv(Add(Space(s, size).0, n, v))
  {
    SpaceFits(s, size);
    AddKeepsSlots(Space(s, size).0, n, v);
    AddKeepsRegs(Space(s, size).0, n, v);
  }

  lemma NewLocalKeeps(s: Alloc, n: string, size: int)
    requires RegInv(s) && SlotInv(s) && ValidSize(size) && HasRoom(s, size / 8)
    ensures RegInv(NewLocal(s, n, size)) && SlotInv(NewLocal(s, n, size))
  {
    SmallInt32(size);
    if n !in s.vars {
      AddInSpaceKeeps(s, n, size / 8, Var(size, true, false, false, false, RAX, Space(s, size / 8).1));
    }
  }

  lemma AllocBytesKeeps(s: Alloc, n: string, size: int)
    requires RegInv(s) && SlotInv(s) && HasRoom(s, size)
    ensures RegInv(AllocBytes(s, n, size)) && SlotInv(AllocBytes(s, n, size))
  {
    SmallInt32(size);
    if n !in s.vars {
      var v := Var(size * 8, false, false, false, true, RAX, Space(s, size).1);
      assert SlotBytes(v) == size && v.size % 8 == 0;
      AddInSpaceKeeps(s, n, size, v);
    }
  }

  /** An argument register must be free, or held by hand as that very register:
      nothing is evicted, and what is tracked there would be lost. */
  ghost predicate Bindable(s: Alloc, r: Reg) {
    forall u <- s.used :: Overlap(u, r) ==> u == r && r !in s.regs
  }

  lemma BindingKeeps(s: Alloc, n: string, r: Reg, off: int)
    requires RegInv(s) && n !in s.vars && Bindable(s, r)
    ensures RegInv(Place(Take(Add(s, n, Var(Width(r), true, false, false, false, r, off)), r), n, r))
  {
    var idle := Var(Width(r), true, false, false, false, r, off);
    AddKeepsRegs(s, n, idle);
    var s2 := Add(s, n, idle);
    if IsFree(r, s.used) {
      TakeKeeps(s2, r);
    } else {
      var u :| u in s.used && Overlap(u, r);
      assert Take(s2, r) == s2;
    }
    PlaceKeeps(Take(s2, r), n, r);
  }

  lemma SameRegsKeep(s: Alloc, t: Alloc)
    requires RegInv(s) && t == s.(freeSpace := t.freeSpace, localoff := t.localoff)
    ensures RegInv(t)
  {
  }

  /** Binding an argument keeps the invariant exactly if its register is bindable. */
  lemma ArgKeeps(s: Alloc, n: string, r: Reg)
    requires RegInv(s) && SlotInv(s) && HasRoom(s, Width(r) / 8) && n !in s.vars
    ensures RegInv(Arg(s, n, r)) <==> Bindable(s, r)
    ensures SlotInv(Arg(s, n, r))
  {
    hide RegInv, SlotInv, Space, Fits;
    var (s1, off) := Space(s, Width(r) / 8);
    var idle := Var(Width(r), true, false, false, false, r, off);
    AddInSpaceKeeps(s, n, Width(r) / 8, idle);
    SpaceFits(s, Width(r) / 8);
    var t := Arg(s, n, r);
    SameSlotsKeep(Add(s1, n, idle), t);
    if Bindable(s, r) {
      SameRegsKeep(s, s1);
      BindingKeeps(s1, n, r, off);
      BindIsPlace(s1, n, r, off);
    } else {
      var u :| u in s.used && Overlap(u, r) && !(u == r && r !in s.regs);
      ArgLosesTracked(s, n, r, u);
    }
  }

  lemma BindIsPlace(s: Alloc, n: string, r: Reg, off: int)
    requires n !in s.vars && Bindable(s, r)
    ensures Bind(s, n, r, off) == Place(Take(Add(s, n, Var(Width(r), true, false, false, false, r, off)), r), n, r)
  {
  }

  lemma ArgLosesTracked(s: Alloc, n: string, r: Reg, u: Reg)
    requires RegInv(s) && n !in s.vars
    requires u in s.used && Overlap(u, r) && !(u == r && r !in s.regs)
    ensures !RegInv(Arg(s, n, r))
  {
    var t := Arg(s, n, r);
    assert t.regs[r] == n && u in t.used;
    if r in s.regs { assert t.vars[s.regs[r]] == s.vars[s.regs[r]]; }
    if RegInv(t) {
      assert r in t.used;
      assert u == r;
    }
  }

  lemma StackArgKeeps(s: Alloc, n: string, i: int)
    requires RegInv(s) && SlotInv(s) && HasRoom(s, 8) && 0 <= i && (i + 1) * 8 + SAVED_SIZE < TWO31
    requires n !in s.vars ==> Fits(s, (i + 1) * 8 + SAVED_SIZE, 8)
    ensures RegInv(StackArg(s, n, i)) && SlotInv(StackArg(s, n, i))
    ensures n !in s.vars ==> StackArg(s, n, i).vars[n].offset == 6 * 8 + 8 + 8 * i
  {
    SmallInt32((i + 1) * 8);
    SmallInt32(s.localoff + 8);
    if n !in s.vars {
      var v := Var(64, true, false, false, true, RAX, (i + 1) * 8 + SAVED_SIZE);
      assert StackArg(s, n, i) == Add(s.(localoff := s.localoff + 8), n, v);
      StackSlotKeeps(s, n, v);
    }
  }

  lemma StackSlotKeeps(s: Alloc, n: string, v: Var)
    requires RegInv(s) && SlotInv(s) && HasRoom(s, 8) && n !in s.vars
    requires VarOk(v) && !v.inreg && Fits(s, v.offset, SlotBytes(v))
    ensures RegInv(Add(s.(localoff := s.localoff + 8), n, v)) && SlotInv(Add(s.(localoff := s.localoff + 8), n, v))
  {
    var s1 := s.(localoff := s.localoff + 8);
    WiderFrame(s, s1, v.offset, SlotBytes(v));
    AddKeepsSlots(s1, n, v);
    AddKeepsRegs(s1, n, v);
  }

  lemma WiderFrame(s: Alloc, t: Alloc, off: int, n: int)
    requires SlotInv(s) && s.localoff <= t.localoff < TWO31 && t == s.(localoff := t.localoff)
    ensures SlotInv(t) && (Fits(s, off, n) ==> Fits(t, off, n))
  {
  }

  /** The size in bits of a variable is still positive when cut to 32 bits. */
  predicate Forgettable(s: Alloc, n: string) { n in s.vars ==> Int32(s.vars[n].size) >= 0 }

  lemma ForgetKeepsSlots(s: Alloc, n: string)
    requires RegInv(s) && SlotInv(s)
    ensures SlotInv(Forget(s, n)) <==> Forgettable(s, n)
  {
    if n in s.vars {
      var v := s.vars[n];
      if Forgettable(s, n) {
        FreedIsPart(v);
        PartFreed(s, n);
      } else {
        FreedIsNegative(v);
        assert Forget(s, n).freeSpace[|s.freeSpace|] == Slot(FreedBytes(v), v.offset);
      }
    }
  }

  lemma PartFreed(s: Alloc, n: string)
    requires SlotInv(s) && n in s.vars && 0 <= FreedBytes(s.vars[n]) <= SlotBytes(s.vars[n])
    ensures SlotInv(Forget(s, n))
  {
    hide FreedBytes, SlotBytes;
  }

  lemma FreedIsPart(v: Var)
    requires VarOk(v) && Int32(v.size) >= 0
    ensures 0 <= FreedBytes(v) <= SlotBytes(v)
  {
    assert v.size >= 0 && Int32(v.size) == v.size % TWO32;
  }

  lemma FreedIsNegative(v: Var)
    requires VarOk(v) && Int32(v.size) < 0
    ensures FreedBytes(v) < 0
  {
    assert v.size % 8 == 0;
    CutToBytes(v.size);
    hide Int32;
  }

  lemma CutToBytes(size: int)
    requires size % 8 == 0
    ensures Int32(size) % 8 == 0
  {
    var k := (size + TWO31) / TWO32;
    assert size + TWO31 == k * TWO32 + (size + TWO31) % TWO32;
    assert Int32(size) == 8 * (size / 8 - k * 0x2000_0000);
  }

  lemma ForgetKeepsRegs(s: Alloc, n: string)
    requires RegInv(s)
    ensures RegInv(Forget(s, n))
    ensures Forget(s, n).regs.Keys <= s.regs.Keys
    ensures forall r: Reg :: r in Forget(s, n).regs ==> s.regs[r] == Forget(s, n).regs[r] != n
    ensures forall u: Reg :: u in s.used && u !in s.regs ==> u in Forget(s, n).used && u !in Forget(s, n).regs
  {
    hide Permutes, Without, Overlap, VarOk;
    if n in s.vars {
      var v := s.vars[n];
      var t := Forget(s, n);
      if v.inreg {
        TouchPermutes(s.lru, s.regs.Keys, v.reg);
        assert t.regs.Keys == s.regs.Keys - {v.reg};
      }
      assert Tracks(t.regs, t.vars);
    }
  }

  lemma ForgetKeeps(s: Alloc, n: string)
    requires RegInv(s) && SlotInv(s)
    ensures RegInv(Forget(s, n)) && (SlotInv(Forget(s, n)) <==> Forgettable(s, n))
  {
    ForgetKeepsSlots(s, n);
    ForgetKeepsRegs(s, n);
  }

  /** The frame the prologue reserves: the patched size is a multiple of 16 that
      covers every local slot (function.go, Epilogue). */
  function FrameSize(localoff: int): int { (localoff + 0x10) / 0x10 * 0x10 }

  lemma FrameCoversSlots(s: Alloc, k: string)
    requires SlotInv(s) && k in s.vars && s.vars[k].offset < 0
    ensures FrameSize(s.localoff) % 16 == 0 && s.localoff < FrameSize(s.localoff) <= s.localoff + 16
    ensures -FrameSize(s.localoff) < s.vars[k].offset && s.vars[k].offset + SlotBytes(s.vars[k]) <= 0
  {
  }
}
