/** The in-use bits of the registers (regalloc.go).  The source keeps a bit and
    a size for every full register and a bit for every byte register; the
    abstraction is the set of registers handed out. */
module RegisterFile {
  import opened Wrappers
  import opened Registers

  datatype RState = RState(inuse: bool, size: int)

  /** The registers that have an entry of their own. */
  predicate HasEntry(r: Reg) { r.view.Qword? || Width(r) == 8 }

  /** No two registers of the set share bits. */
  ghost predicate Apart(used: set<Reg>) {
    forall a, b :: a in used && b in used && a != b ==> !Overlap(a, b)
  }

  /** r shares no bits with a register of the set. */
  predicate IsFree(r: Reg, used: set<Reg>) {
    forall u <- used :: !Overlap(u, r)
  }

  /** The registers of the set that stand in the way of r, low byte first. */
  function ConflictsOf(r: Reg, used: set<Reg>): seq<Reg> {
    if Width(r) == 8 then
      (if r in used then [r] else WiderConflict(r, used))
    else
      (if Named(GP(r.num, Low8)) && GP(r.num, Low8) in used then [GP(r.num, Low8)] else [])
      + (if Named(GP(r.num, High8)) && GP(r.num, High8) in used then [GP(r.num, High8)] else [])
      + WiderConflict(r, used)
  }

  function WiderConflict(r: Reg, used: set<Reg>): seq<Reg> {
    if GP(r.num, Word) in used then [GP(r.num, Word)]
    else if GP(r.num, Dword) in used then [GP(r.num, Dword)]
    else if GP(r.num, Qword) in used then [GP(r.num, Qword)]
    else []
  }

  /** The first register of a priority list with a free part of some size. */
  function FirstFree(candidates: seq<Reg>, size: int, used: set<Reg>): Option<Reg>
    requires forall c <- candidates :: c.view.Qword?
  {
    if candidates == [] then None
    else if IsFree(candidates[0], used) && Partial(candidates[0], size).Some? then Partial(candidates[0], size)
    else FirstFree(candidates[1..], size, used)
  }

  function FirstFree8(candidates: seq<Reg>, used: set<Reg>): Option<Reg> {
    if candidates == [] then None
    else if IsFree(candidates[0], used) then Some(candidates[0])
    else FirstFree8(candidates[1..], used)
  }

  /** The register that a request for some size is answered with. */
  function Choice(size: int, used: set<Reg>): Option<Reg> {
    if size == 8 then FirstFree8(REGS8, used) else FirstFree(REGS64, size, used)
  }

  lemma {:induction false} FirstFree8IsFree(candidates: seq<Reg>, used: set<Reg>)
    ensures FirstFree8(candidates, used).Some? ==>
              FirstFree8(candidates, used).value in candidates && IsFree(FirstFree8(candidates, used).value, used)
  {
    if candidates != [] { FirstFree8IsFree(candidates[1..], used); }
  }

  ghost predicate Complete(rs: map<Reg, RState>) { forall r: Reg :: HasEntry(r) ==> r in rs }

  /** A full register is in use when some part of it is. */
  ghost predicate FullBits(rs: map<Reg, RState>, used: set<Reg>)
    requires Complete(rs)
  {
    forall r: Reg :: r.view.Qword? ==> (rs[r].inuse <==> exists u <- used :: u.num == r.num)
  }

  ghost predicate ByteBits(rs: map<Reg, RState>, used: set<Reg>)
    requires Complete(rs)
  {
    forall r: Reg :: Width(r) == 8 ==> (rs[r].inuse <==> r in used)
  }

  ghost predicate Sizes(rs: map<Reg, RState>, used: set<Reg>)
    requires Complete(rs)
  {
    forall u <- used :: rs[FullReg(u)].size == Width(u)
  }

  /** The in-use bits and sizes say exactly that the registers of a set are in use. */
  ghost predicate Represents(rs: map<Reg, RState>, used: set<Reg>) {
    Apart(used) && Complete(rs) && FullBits(rs, used) && ByteBits(rs, used) && Sizes(rs, used)
  }

  /** Marks r as in use. */
  function Mark(rs: map<Reg, RState>, r: Reg): map<Reg, RState> {
    if Width(r) == 8 then rs[r := RState(true, 8)][FullReg(r) := RState(true, 8)]
    else rs[FullReg(r) := RState(true, Width(r))]
  }

  lemma MarkFullBits(rs: map<Reg, RState>, used: set<Reg>, r: Reg)
    requires Complete(rs) && FullBits(rs, used)
    ensures Complete(Mark(rs, r)) && FullBits(Mark(rs, r), used + {r})
  {
    var used', rs' := used + {r}, Mark(rs, r);
    forall f: Reg | f.view.Qword? ensures rs'[f].inuse <==> exists u <- used' :: u.num == f.num {
      if f.num == r.num {
        assert f == FullReg(r) && r in used';
      } else {
        assert rs'[f] == rs[f];
        if rs[f].inuse { var u :| u in used && u.num == f.num; assert u in used'; }
      }
    }
  }

  lemma MarkSizes(rs: map<Reg, RState>, used: set<Reg>, r: Reg)
    requires Complete(rs) && Sizes(rs, used) && IsFree(r, used)
    ensures Complete(Mark(rs, r)) && Sizes(Mark(rs, r), used + {r})
  {
    forall u <- used + {r} ensures Mark(rs, r)[FullReg(u)].size == Width(u) {
      if u != r && u.num == r.num { assert !Overlap(u, r); }
    }
  }

  lemma MarkRepresents(rs: map<Reg, RState>, used: set<Reg>, r: Reg)
    requires Represents(rs, used) && IsFree(r, used)
    ensures Represents(Mark(rs, r), used + {r})
  {
    MarkFullBits(rs, used, r);
    MarkSizes(rs, used, r);
    assert ByteBits(Mark(rs, r), used + {r}) by {
      hide FullBits, Sizes, Apart;
      assert Width(r) != 8 ==> forall e: Reg :: Width(e) == 8 ==> Mark(rs, r)[e] == rs[e];
    }
    assert Apart(used + {r}) by {
      hide FullBits, Sizes, ByteBits;
    }
  }

  /** A byte register with a byte brother in use leaves the full one in use. */
  function Unmark(rs: map<Reg, RState>, r: Reg): map<Reg, RState>
    requires Complete(rs)
  {
    assert HasEntry(FullReg(r));
    if Width(r) == 8 then
      assert HasEntry(r) && (Brother8(r).Some? ==> HasEntry(Brother8(r).value));
      var rs1 := rs[r := rs[r].(inuse := false)];
      var b := Brother8(r);
      rs1[FullReg(r) := rs1[FullReg(r)].(inuse := b.Some? && rs1[b.value].inuse)]
    else rs[FullReg(r) := rs[FullReg(r)].(inuse := false)]
  }

  lemma UnmarkFullBits(rs: map<Reg, RState>, used: set<Reg>, r: Reg)
    requires Represents(rs, used) && r in used
    ensures Complete(Unmark(rs, r)) && FullBits(Unmark(rs, r), used - {r})
  {
    var used', rs' := used - {r}, Unmark(rs, r);
    forall f: Reg | f.view.Qword? ensures rs'[f].inuse <==> exists u <- used' :: u.num == f.num {
      if f.num != r.num {
        assert rs'[f] == rs[f];
        if rs[f].inuse { var u :| u in used && u.num == f.num; assert u in used'; }
      } else {
        if rs'[f].inuse { assert Brother8(r).value in used'; }
        if u :| u in used' && u.num == f.num { assert !Overlap(u, r); assert Brother8(r) == Some(u); }
      }
    }
  }

  lemma UnmarkRepresents(rs: map<Reg, RState>, used: set<Reg>, r: Reg)
    requires Represents(rs, used) && r in used
    ensures Represents(Unmark(rs, r), used - {r})
  {
    UnmarkFullBits(rs, used, r);
  }

  lemma WideConflict(used: set<Reg>, u: Reg, r: Reg)
    requires Apart(used) && u in used && u.num == r.num && Width(u) != 8
    ensures ConflictsOf(r, used) == [u]
  {
    forall v | v in used && v.num == r.num ensures v == u { assert v != u ==> !Overlap(v, u); }
  }

  lemma NarrowConflict(used: set<Reg>, u: Reg, r: Reg)
    requires Apart(used) && u in used && u.num == r.num && Width(u) == 8
    ensures WiderConflict(r, used) == []
  {
    forall v | v in used && v.num == r.num ensures Width(v) == 8 { assert v != u ==> !Overlap(v, u); }
  }

  class RegisterBits {
    var rs: map<Reg, RState>
    ghost var used: set<Reg>

    ghost predicate Valid()
      reads this
    {
      Represents(rs, used)
    }

    method InUse(r: Reg) returns (b: bool)
      requires Valid()
      ensures b == !IsFree(r, used)
    {
      var full := rs[FullReg(r)];
      if Width(r) == 8 {
        b := rs[r].inuse || (full.inuse && full.size != 8);
      } else {
        b := full.inuse;
      }
    }

    constructor ()
      ensures Valid() && used == {}
    {
      var entries: map<Reg, RState> := map[];
      for i := 0 to 16
        invariant forall r: Reg :: r in entries <==> HasEntry(r) && r.num < i
        invariant forall r: Reg :: r in entries ==> !entries[r].inuse
      {
        entries := entries[GP(i, Qword) := RState(false, 0)];
        if i != 4 && i != 5 { entries := entries[GP(i, Low8) := RState(false, 0)]; }
        if i < 4 { entries := entries[GP(i, High8) := RState(false, 0)]; }
      }
      used := {};
      rs := entries;
    }

    /** The registers in use that would prevent r from being used.  An empty
        answer and `InUse` being false are the same thing. */
    method Conflicts(r: Reg) returns (ret: seq<Reg>)
      requires Valid()
      ensures ret == ConflictsOf(r, used)
    {
      var full := rs[FullReg(r)];
      if !full.inuse { return []; }
      if full.size == 8 {
        ghost var u :| u in used && u.num == r.num;
        NarrowConflict(used, u, r);
        var subrs := SubRegisters8(r).value;
        ret := [];
        for i := 0 to |subrs|
          invariant ret == (if i >= 1 && subrs[0] in used then [subrs[0]] else [])
                           + (if i >= 2 && subrs[1] in used then [subrs[1]] else [])
        {
          if rs[subrs[i]].inuse { ret := ret + [subrs[i]]; }
        }
        return;
      }
      ghost var u :| u in used && u.num == r.num;
      WideConflict(used, u, r);
      assert Partial(FullReg(r), full.size) == Some(u);
      ret := [Partial(FullReg(r), full.size).value];
    }

    method Release(r: Reg)
      requires Valid() && r in used
      modifies this
      ensures Valid() && used == old(used) - {r}
    {
      UnmarkRepresents(rs, used, r);
      used := used - {r};
      if Width(r) == 8 {
        rs := rs[r := rs[r].(inuse := false)];
        var brother := Brother8(r);
        if brother.Some? && rs[brother.value].inuse {
          rs := rs[FullReg(r) := rs[FullReg(r)].(inuse := true)];
          return;
        }
      }
      rs := rs[FullReg(r) := rs[FullReg(r)].(inuse := false)];
    }

    method Use(r: Reg) returns (ok: bool)
      requires Valid()
      modifies this
      ensures Valid() && ok == IsFree(r, old(used))
      ensures used == if ok then old(used) + {r} else old(used)
    {
      var full := rs[FullReg(r)];
      if Width(r) == 8 {
        ok := !rs[r].inuse && (!full.inuse || full.size == 8);
        if ok {
          MarkRepresents(rs, used, r);
          used := used + {r};
          rs := rs[r := RState(true, 8)][FullReg(r) := RState(true, 8)];
        }
      } else {
        ok := !full.inuse;
        if ok {
          MarkRepresents(rs, used, r);
          used := used + {r};
          rs := rs[FullReg(r) := RState(true, Width(r))];
        }
      }
    }

    method Unused8(candidates: seq<Reg>) returns (r: Option<Reg>)
      requires Valid() && forall c <- candidates :: Width(c) == 8
      ensures r == FirstFree8(candidates, used)
    {
      for i := 0 to |candidates|
        invariant FirstFree8(candidates, used) == FirstFree8(candidates[i..], used)
      {
        assert candidates[i..][0] == candidates[i] && candidates[i..][1..] == candidates[i + 1..];
        var full := rs[FullReg(candidates[i])];
        if !rs[candidates[i]].inuse && (!full.inuse || full.size == 8) { return Some(candidates[i]); }
      }
      return None;
    }

    /** Requests a register of some size: the first free one in priority order. */
    method Get(size: int) returns (r: Option<Reg>)
      requires Valid() && ValidSize(size)
      modifies this
      ensures Valid() && r == Choice(size, old(used))
      ensures used == if r.Some? then old(used) + {r.value} else old(used)
    {
      hide FirstFree, FirstFree8, IsFree, Represents;
      if size == 8 {
        r := Get8(REGS8);
      } else {
        r := GetFrom(REGS64, size);
      }
    }

    method Get8(candidates: seq<Reg>) returns (r: Option<Reg>)
      requires Valid() && forall c <- candidates :: Width(c) == 8
      modifies this
      ensures Valid() && r == FirstFree8(candidates, old(used))
      ensures used == if r.Some? then old(used) + {r.value} else old(used)
    {
      r := Unused8(candidates);
      if r.Some? {
        FirstFree8IsFree(candidates, used);
        MarkRepresents(rs, used, r.value);
        used := used + {r.value};
        rs := rs[r.value := RState(true, 8)][FullReg(r.value) := RState(true, 8)];
      }
    }

    method GetFrom(candidates: seq<Reg>, size: int) returns (r: Option<Reg>)
      requires Valid() && ValidSize(size) && size != 8 && forall c <- candidates :: c.view.Qword?
      modifies this
      ensures Valid() && r == FirstFree(candidates, size, old(used))
      ensures used == if r.Some? then old(used) + {r.value} else old(used)
    {
      for i := 0 to |candidates|
        invariant Valid() && used == old(used)
        invariant FirstFree(candidates, size, used) == FirstFree(candidates[i..], size, used)
      {
        assert candidates[i..][0] == candidates[i] && candidates[i..][1..] == candidates[i + 1..];
        if !rs[candidates[i]].inuse {
          r := Partial(candidates[i], size);
          if r.Some? {
            MarkRepresents(rs, used, r.value);
            used := used + {r.value};
            rs := rs[candidates[i] := RState(true, size)];
            return;
          }
        }
      }
      r := None;
    }
  }


  /** `Conflicts` answers exactly the registers in use that share bits with r. */
  lemma ConflictsAreOverlaps(r: Reg, used: set<Reg>)
    requires Apart(used)
    ensures forall u: Reg :: u in ConflictsOf(r, used) <==> u in used && Overlap(u, r)
    ensures ConflictsOf(r, used) == [] <==> IsFree(r, used)
    ensures forall i, j :: 0 <= i < j < |ConflictsOf(r, used)| ==> ConflictsOf(r, used)[i] != ConflictsOf(r, used)[j]
  {
    if u :| u in used && u.num == r.num && Width(u) != 8 {
      WideConflict(used, u, r);
    } else {
      forall u: Reg | u in used && Overlap(u, r) ensures u in ConflictsOf(r, used) {
        assert u.view.Low8? || u.view.High8?;
      }
    }
    if ConflictsOf(r, used) != [] { assert ConflictsOf(r, used)[0] in used; }
  }

  lemma {:induction false} FirstFreeIsFree(candidates: seq<Reg>, size: int, used: set<Reg>)
    requires ValidSize(size) && size != 8 && forall c <- candidates :: c.view.Qword?
    ensures FirstFree(candidates, size, used).Some? <==> exists c <- candidates :: IsFree(c, used)
    ensures FirstFree(candidates, size, used).Some? ==>
              var r := FirstFree(candidates, size, used).value;
              IsFree(r, used) && Width(r) == size
  {
    if candidates != [] {
      FirstFreeIsFree(candidates[1..], size, used);
      if IsFree(candidates[0], used) { assert candidates[0] in candidates; }
    }
  }

  /** A request is answered with a register of its size that shares no bits with
      one in use. */
  lemma ChoiceIsFree(size: int, used: set<Reg>)
    requires ValidSize(size)
    ensures Choice(size, used).Some? ==>
              IsFree(Choice(size, used).value, used) && Width(Choice(size, used).value) == size
    ensures Choice(size, used).Some? ==> !Choice(size, used).value.view.High8?
  {
    if size == 8 { FirstFree8IsFree(REGS8, used); } else { FirstFreeIsFree(REGS64, size, used); }
  }

  lemma AllInPriorityList(f: Reg)
    requires f.view.Qword?
    ensures f in REGS64
  {
    assert REGS64 == [R10, R11, RBX, R12, R13, R14, R15, RBP, RSP, R9, R8, RCX, RDX, RSI, RDI, RAX];
  }

  /** A request for 16, 32 or 64 bits succeeds exactly if some register is wholly
      free: every general-purpose register is in the priority list. */
  lemma ChoiceSucceeds(size: int, used: set<Reg>)
    requires ValidSize(size) && size != 8
    ensures Choice(size, used).Some? <==> exists f: Reg :: f.view.Qword? && IsFree(f, used)
  {
    SuccessIn(REGS64, size, used);
    forall f: Reg | f.view.Qword? ensures f in REGS64 { AllInPriorityList(f); }
  }

  lemma SuccessIn(candidates: seq<Reg>, size: int, used: set<Reg>)
    requires ValidSize(size) && size != 8 && forall c <- candidates :: c.view.Qword?
    ensures FirstFree(candidates, size, used).Some? <==> exists c <- candidates :: IsFree(c, used)
  {
    FirstFreeIsFree(candidates, size, used);
  }
}
