/** The invariant of the register allocator, kept by every operation: the
    register map, the LRU list, the in-use registers and the flags of the
    allocations describe the same situation. */
module AllocationInvariant {
  import opened Wrappers
  import opened Registers
  import opened RegisterFile
  import opened Machine
  import opened Allocation

  ghost predicate NoDuplicates(rs: seq<Reg>) {
    forall i, j :: 0 <= i < j < |rs| ==> rs[i] != rs[j]
  }

  /** A regable allocation fills its register; any other is its address there.
      A volatile one stays in memory. */
  predicate VarOk(v: Var) {
    && (v.regable ==> ValidSize(v.size))
    && (!v.regable ==> v.inmem && !v.volatile && v.size >= 0 && v.size % 8 == 0)
    && (v.inreg ==> Width(v.reg) == if v.regable then v.size else 64)
    && (v.volatile ==> v.inmem && !v.inreg)
  }

  /** The register map and the allocations agree on who is where. */
  ghost predicate Tracks(regs: map<Reg, string>, vars: map<string, Var>) {
    && (forall r: Reg :: r in regs ==> regs[r] in vars && vars[regs[r]].inreg && vars[regs[r]].reg == r)
    && (forall n :: n in vars && vars[n].inreg ==> vars[n].reg in regs && regs[vars[n].reg] == n)
  }

  /** The LRU list is a permutation of the tracked registers. */
  ghost predicate Permutes(lru: seq<Reg>, tracked: set<Reg>) {
    NoDuplicates(lru) && forall r: Reg :: r in lru <==> r in tracked
  }

  ghost predicate VarsOk(vars: map<string, Var>) {
    forall n :: n in vars ==> VarOk(vars[n])
  }

  /** No two registers in use overlap, and the tracked ones are among them. */
  ghost predicate RegInv(s: Alloc) {
    && Apart(s.used) && s.regs.Keys <= s.used
    && Tracks(s.regs, s.vars) && Permutes(s.lru, s.regs.Keys) && VarsOk(s.vars)
  }

  /** The stack slots are as before; only the flags and registers may differ. */
  ghost predicate SameSlots(s: Alloc, t: Alloc) {
    && s.vars.Keys == t.vars.Keys
    && (forall n :: n in s.vars ==>
          s.vars[n].size == t.vars[n].size && s.vars[n].offset == t.vars[n].offset && s.vars[n].regable == t.vars[n].regable)
    && s.freeSpace == t.freeSpace && s.localoff == t.localoff
  }

  lemma {:induction false} WithoutRemoves(lru: seq<Reg>, r: Reg)
    ensures forall x: Reg :: x in Without(lru, r) <==> x in lru && x != r
    ensures NoDuplicates(lru) ==> NoDuplicates(Without(lru, r))
  {
    if lru != [] {
      WithoutRemoves(lru[1..], r);
      assert forall x: Reg :: x in lru <==> x == lru[0] || x in lru[1..];
      if NoDuplicates(lru) {
        assert NoDuplicates(lru[1..]);
        assert lru[0] !in lru[1..];
      }
    }
  }

  lemma TouchKeeps(s: Alloc, r: Reg)
    requires RegInv(s) && r in s.regs
    ensures RegInv(Touch(s, r)) && SameSlots(s, Touch(s, r))
  {
    TouchPermutes(s.lru, s.regs.Keys, r);
    assert s.regs.Keys + {r} == s.regs.Keys;
  }

  lemma EvictVarKeeps(s: Alloc, n: string)
    requires RegInv(s) && n in s.vars && s.vars[n].inreg
    ensures RegInv(EvictVar(s, n)) && SameSlots(s, EvictVar(s, n))
  {
    TracksRemoved(s.regs, s.vars, n, EvictVar(s, n).vars[n]);
    TouchPermutes(s.lru, s.regs.Keys, s.vars[n].reg);
    assert EvictVar(s, n).regs.Keys == s.regs.Keys - {s.vars[n].reg};
  }

  /** Evicting a list of registers frees exactly the tracked ones in it. */
  lemma {:induction false} EvictRegsKeeps(s: Alloc, rs: seq<Reg>)
    requires RegInv(s)
    ensures RegInv(EvictRegs(s, rs)) && SameSlots(s, EvictRegs(s, rs))
    ensures forall r: Reg :: r in EvictRegs(s, rs).used <==> r in s.used && !(r in rs && r in s.regs)
    ensures forall r: Reg :: r in EvictRegs(s, rs).regs <==> r in s.regs && r !in rs
    ensures forall r: Reg :: r in EvictRegs(s, rs).regs ==> EvictRegs(s, rs).regs[r] == s.regs[r]
    decreases rs
  {
    if rs != [] {
      var s1 := if rs[0] in s.regs then EvictVar(s, s.regs[rs[0]]) else s;
      if rs[0] in s.regs { EvictVarKeeps(s, s.regs[rs[0]]); }
      EvictRegsKeeps(s1, rs[1..]);
      assert forall r: Reg :: r in rs <==> r == rs[0] || r in rs[1..];
    }
  }

  lemma EvictRegKeeps(s: Alloc, r: Reg)
    requires RegInv(s)
    ensures RegInv(EvictReg(s, r)) && SameSlots(s, EvictReg(s, r))
    ensures forall u: Reg :: u in EvictReg(s, r).used <==> u in s.used && !(Overlap(u, r) && u in s.regs)
    ensures forall u: Reg :: u in EvictReg(s, r).regs <==> u in s.regs && !Overlap(u, r)
  {
    EvictRegsKeeps(s, ConflictsOf(r, s.used));
    ConflictsAreOverlaps(r, s.used);
  }

  lemma {:induction false} EvictEachKeeps(s: Alloc, rs: seq<Reg>)
    requires RegInv(s)
    ensures RegInv(EvictEach(s, rs)) && SameSlots(s, EvictEach(s, rs))
    ensures forall u: Reg :: u in EvictEach(s, rs).regs <==> u in s.regs && !exists r: Reg :: r in rs && Overlap(u, r)
    ensures forall u: Reg :: u in EvictEach(s, rs).used <==>
              u in s.used && !(u in s.regs && exists r: Reg :: r in rs && Overlap(u, r))
    decreases rs
  {
    if rs != [] {
      EvictRegKeeps(s, rs[0]);
      EvictEachKeeps(EvictReg(s, rs[0]), rs[1..]);
      assert forall r: Reg :: r in rs <==> r == rs[0] || r in rs[1..];
    }
  }

  lemma TakeKeeps(s: Alloc, r: Reg)
    requires RegInv(s) && IsFree(r, s.used)
    ensures RegInv(Take(s, r)) && SameSlots(s, Take(s, r)) && r !in s.regs
  {
  }

  lemma TracksPlaced(regs: map<Reg, string>, vars: map<string, Var>, n: string, r: Reg)
    requires Tracks(regs, vars) && n in vars && !vars[n].inreg && r !in regs
    ensures Tracks(regs[r := n], vars[n := vars[n].(reg := r, inreg := true)])
  {
  }

  lemma TracksRemoved(regs: map<Reg, string>, vars: map<string, Var>, n: string, v: Var)
    requires Tracks(regs, vars) && n in vars && vars[n].inreg && !v.inreg
    ensures Tracks(regs - {vars[n].reg}, vars[n := v])
  {
  }

  lemma TouchPermutes(lru: seq<Reg>, tracked: set<Reg>, r: Reg)
    requires Permutes(lru, tracked)
    ensures Permutes(Without(lru, r) + [r], tracked + {r})
    ensures Permutes(Without(lru, r), tracked - {r})
  {
    WithoutRemoves(lru, r);
  }

  lemma PlaceKeeps(s: Alloc, n: string, r: Reg)
    requires RegInv(s) && n in s.vars && !s.vars[n].inreg && !s.vars[n].volatile
    requires r in s.used && r !in s.regs
    requires Width(r) == if s.vars[n].regable then s.vars[n].size else 64
    ensures RegInv(Place(s, n, r)) && SameSlots(s, Place(s, n, r))
  {
    TracksPlaced(s.regs, s.vars, n, r);
    TouchPermutes(s.lru, s.regs.Keys, r);
    assert Place(s, n, r).regs.Keys == s.regs.Keys + {r};
  }

  lemma {:induction false} VictimIsFirst(lru: seq<Reg>, size: int)
    ensures Victim(lru, size).None? <==> forall r <- lru :: Width(r) < size
    ensures Victim(lru, size).Some? ==>
              exists i :: 0 <= i < |lru| && lru[i] == Victim(lru, size).value && Width(lru[i]) >= size &&
                          forall j :: 0 <= j < i ==> Width(lru[j]) < size
  {
    if lru != [] && Width(lru[0]) < size {
      VictimIsFirst(lru[1..], size);
      if Victim(lru, size).Some? {
        var i :| 0 <= i < |lru[1..]| && lru[1..][i] == Victim(lru, size).value && Width(lru[1..][i]) >= size &&
                 forall j :: 0 <= j < i ==> Width(lru[1..][j]) < size;
        forall j | 0 <= j < i + 1 ensures Width(lru[j]) < size { if j > 0 { assert lru[j] == lru[1..][j - 1]; } }
        assert lru[i + 1] == Victim(lru, size).value;
      }
    } else if lru != [] {
      assert lru[0] in lru;
    }
  }

  lemma VictimMakesRoom(s: Alloc, size: int)
    requires RegInv(s) && ValidSize(size) && size != 8 && Victim(s.lru, size).Some?
    requires Victim(s.lru, size).value in s.regs && Width(Victim(s.lru, size).value) >= size
    ensures EvictFor(s, size).Some?
    ensures EvictFor(s, size).value.0.regs.Keys == s.regs.Keys - {Victim(s.lru, size).value}
  {
    var v := Victim(s.lru, size).value;
    EvictRegsKeeps(s, [v]);
    var s1 := EvictRegs(s, [v]);
    forall u | u in s1.used ensures !Overlap(u, FullReg(v)) { assert u != v && !Overlap(u, v); }
    assert IsFree(FullReg(v), s1.used);
    ChoiceSucceeds(size, s1.used);
  }

  /** Requests beyond 8 bits can be met by eviction exactly if some tracked
      register is wide enough; the victim is the least recently used such one. */
  lemma EvictForSucceeds(s: Alloc, size: int)
    requires RegInv(s) && ValidSize(size) && size != 8
    ensures EvictFor(s, size).Some? <==> exists r <- s.regs.Keys :: Width(r) >= size
    ensures EvictFor(s, size).Some? ==>
              exists i :: 0 <= i < |s.lru| && Width(s.lru[i]) >= size && (forall j :: 0 <= j < i ==> Width(s.lru[j]) < size) &&
                          EvictFor(s, size).value.0.regs.Keys == s.regs.Keys - {s.lru[i]}
  {
    VictimIsFirst(s.lru, size);
    var v := Victim(s.lru, size);
    if v.Some? {
      assert v.value in s.lru;
      VictimMakesRoom(s, size);
    } else {
      forall r | r in s.regs.Keys ensures Width(r) < size { assert r in s.lru; }
    }
  }

  /** What a successful request for a register guarantees. */
  lemma ObtainKeeps(s: Alloc, size: int)
    requires RegInv(s) && ValidSize(size)
    ensures Obtain(s, size).Some? ==>
              var (s1, r) := Obtain(s, size).value;
              && RegInv(s1) && SameSlots(s, s1) && r in s1.used && r !in s1.regs && Width(r) == size && !r.view.High8?
              && s1.regs.Keys <= s.regs.Keys
              && (forall u: Reg :: u in s.used && u !in s.regs ==> u in s1.used && u !in s1.regs && !Overlap(u, r))
  {
    ChoiceIsFree(size, s.used);
    var c := Choice(size, s.used);
    if c.Some? {
      TakeKeeps(s, c.value);
    } else if Victim(s.lru, size).Some? {
      var rs := [Victim(s.lru, size).value];
      EvictRegsKeeps(s, rs);
      var s1 := EvictRegs(s, rs);
      ChoiceIsFree(size, s1.used);
      if Choice(size, s1.used).Some? { TakeKeeps(s1, Choice(size, s1.used).value); }
    }
  }

  lemma ToRegisterKeeps(s: Alloc, n: string)
    requires RegInv(s) && n in s.vars
    ensures ToRegister(s, n).Some? ==>
              var (t, r) := ToRegister(s, n).value;
              RegInv(t) && SameSlots(s, t) && t.vars[n].inreg && t.vars[n].reg == r
  {
    var v := s.vars[n];
    if v.inreg {
      TouchKeeps(s, v.reg);
    } else if !v.volatile {
      var size := if v.regable then v.size else 64;
      ObtainKeeps(s, size);
      var got := Obtain(s, size);
      if got.Some? {
        var (s1, r) := got.value;
        ObtainKeepsOther(s, size, n);
        var s2 := if !v.regable then Emit(s1, Lea(r, v.offset)) else if v.inmem then LoadInto(s1, v, r) else s1;
        PlaceKeeps(s2, n, r);
      }
    }
  }

  /** Eviction leaves alone what is not in a register. */
  lemma {:induction false} EvictRegsLeaves(s: Alloc, rs: seq<Reg>, n: string)
    requires RegInv(s) && n in s.vars && (s.vars[n].inreg ==> s.vars[n].reg !in rs)
    ensures n in EvictRegs(s, rs).vars && EvictRegs(s, rs).vars[n] == s.vars[n]
    decreases rs
  {
    if rs != [] {
      if rs[0] in s.regs { EvictVarKeeps(s, s.regs[rs[0]]); EvictRegsLeaves(EvictVar(s, s.regs[rs[0]]), rs[1..], n); }
      else { EvictRegsLeaves(s, rs[1..], n); }
    }
  }

  lemma ObtainKeepsOther(s: Alloc, size: int, n: string)
    requires RegInv(s) && n in s.vars && !s.vars[n].inreg
    ensures Obtain(s, size).Some? ==> n in Obtain(s, size).value.0.vars && Obtain(s, size).value.0.vars[n] == s.vars[n]
  {
    if Choice(size, s.used).None? && Victim(s.lru, size).Some? {
      EvictRegsLeaves(s, [Victim(s.lru, size).value], n);
    }
  }

  /** What `UseRegister` asks of its caller: nothing that is held by hand stands
      in the way, other than the register itself, and an address needs a 64-bit
      register. */
  ghost predicate Usable(s: Alloc, n: string, r: Reg) {
    && n in s.vars
    && Clearable(s, r)
    && (!s.vars[n].regable ==> r.view.Qword?)
  }

  ghost predicate Clearable(s: Alloc, r: Reg) { forall u: Reg :: u in s.used && Overlap(u, r) ==> u in s.regs || u == r }

  /** The state in which the chosen register has been cleared and taken. */
  function Cleared(s: Alloc, r: Reg): Alloc {
    Take(if IsFree(r, s.used) then s else EvictReg(s, r), r)
  }

  lemma ClearedKeeps(s: Alloc, n: string, r: Reg)
    requires RegInv(s) && Usable(s, n, r)
    ensures RegInv(Cleared(s, r)) && SameSlots(s, Cleared(s, r)) && r in Cleared(s, r).used && r !in Cleared(s, r).regs
    ensures var s1 := if IsFree(r, s.used) then s else EvictReg(s, r);
            (if IsFree(r, s1.used) then Take(s1, r) else s1) == Cleared(s, r)
    ensures Cleared(s, r).vars[n].volatile == s.vars[n].volatile
  {
    EvictRegKeeps(s, r);
    EvictKeepsVolatile(s, ConflictsOf(r, s.used), n);
    var s1 := if IsFree(r, s.used) then s else EvictReg(s, r);
    if IsFree(r, s1.used) {
      TakeKeeps(s1, r);
    } else {
      assert r in s1.used && s1.used + {r} == s1.used;
    }
  }

  lemma {:induction false} EvictKeepsVolatile(s: Alloc, rs: seq<Reg>, n: string)
    requires n in s.vars
    ensures n in EvictRegs(s, rs).vars && EvictRegs(s, rs).vars[n].volatile == s.vars[n].volatile
    decreases rs
  {
    if rs != [] {
      EvictKeepsVolatile(if rs[0] in s.regs && s.regs[rs[0]] in s.vars then EvictVar(s, s.regs[rs[0]]) else s, rs[1..], n);
    }
  }

  lemma SeatKeeps(s: Alloc, n: string, r: Reg)
    requires RegInv(s) && n in s.vars && !s.vars[n].volatile && r in s.used && r !in s.regs
    requires !s.vars[n].regable ==> r.view.Qword?
    ensures Seat(s, n, r).Some? ==>
              var t := Seat(s, n, r).value;
              RegInv(t) && SameSlots(s, t) && t.vars[n].inreg && t.vars[n].reg == r
  {
    hide Permutes, Tracks, Without;
    var v := s.vars[n];
    if Seat(s, n, r).Some? {
      if v.inreg { MoveKeeps(Emit(s, Mov(r, v.reg)), n, r); }
      else {
        PlaceKeeps(s, n, r);
        var i := if v.regable then Load(r, v.offset, RegSize(v)) else Lea(r, v.offset);
        PlaceKeeps(Emit(s, i), n, r);
      }
    }
  }

  lemma UseRegisterKeeps(s: Alloc, n: string, r: Reg)
    requires RegInv(s) && Usable(s, n, r)
    ensures UseRegister(s, n, r).Some? ==>
              var t := UseRegister(s, n, r).value;
              RegInv(t) && SameSlots(s, t) && t.vars[n].inreg && t.vars[n].reg == r
  {
    hide Permutes, Tracks, Without, Seat, EvictReg;
    if UseRegister(s, n, r).Some? && !(s.vars[n].inreg && s.vars[n].reg == r) {
      ClearedKeeps(s, n, r);
      SeatKeeps(Cleared(s, r), n, r);
    }
  }

  /** The invariant survives exactly if nothing that is held by hand, other than the
      register itself, stands in the way. */
  lemma UseRegisterExactly(s: Alloc, n: string, r: Reg)
    requires RegInv(s) && n in s.vars && UseRegister(s, n, r).Some? && (!s.vars[n].regable ==> r.view.Qword?)
    ensures RegInv(UseRegister(s, n, r).value) <==> Clearable(s, r)
  {
    hide Permutes, VarsOk, Without;
    if Clearable(s, r) {
      UseRegisterKeeps(s, n, r);
    } else if !(s.vars[n].inreg && s.vars[n].reg == r) {
      var u: Reg :| u in s.used && Overlap(u, r) && u !in s.regs && u != r;
      EvictRegKeeps(s, r);
      var t := UseRegister(s, n, r).value;
      var s1 := EvictReg(s, r);
      assert u in s1.used && (s1.vars[n].inreg ==> s1.vars[n].reg != u);
      assert u in t.used && r in t.regs;
    }
  }

  /** A move between registers: out of the old one, into the new one. */
  lemma MoveKeeps(s: Alloc, n: string, r: Reg)
    requires RegInv(s) && n in s.vars && s.vars[n].inreg && r in s.used && r !in s.regs
    requires Width(r) == if s.vars[n].regable then s.vars[n].size else 64
    ensures RegInv(Moved(s, n, r)) && SameSlots(s, Moved(s, n, r))
    ensures Moved(s, n, r).vars == s.vars[n := s.vars[n].(reg := r)]
  {
    hide Permutes, Tracks, Without;
    var t, from := Moved(s, n, r), s.vars[n].reg;
    MovedTracks(s.regs, s.vars, n, r);
    TouchPermutes(s.lru, s.regs.Keys, from);
    TouchPermutes(Without(s.lru, from), s.regs.Keys - {from}, r);
    assert t.regs.Keys == s.regs.Keys - {from} + {r};
    assert t.vars[n] == s.vars[n].(reg := r);
    assert Tracks(t.regs, t.vars);
    assert t.used == s.used - {from} && Apart(t.used);
    assert VarsOk(t.vars);
  }

  lemma MovedTracks(regs: map<Reg, string>, vars: map<string, Var>, n: string, r: Reg)
    requires Tracks(regs, vars) && n in vars && vars[n].inreg && r !in regs
    ensures vars[n].reg in regs
    ensures Tracks((regs - {vars[n].reg})[r := n], vars[n := vars[n].(reg := r, inreg := true)])
  {
  }

  lemma LocationKeeps(s: Alloc, n: string, preferRegister: bool)
    requires RegInv(s) && n in s.vars
    ensures Location(s, n, preferRegister).Some? ==>
              var (t, o) := Location(s, n, preferRegister).value;
              && RegInv(t) && SameSlots(s, t)
              && (match o
                  case InReg(r) => t.vars[n].inreg && t.vars[n].reg == r
                  case InMem(off, size) =>
                    t.vars[n].regable && !t.vars[n].inreg && t.vars[n].inmem && off == t.vars[n].offset && size == t.vars[n].size)
  {
    if s.vars[n].inreg { TouchKeeps(s, s.vars[n].reg); } else { ToRegisterKeeps(s, n); }
    FlagsKeep(s, n, s.vars[n].(inmem := true));
  }

  lemma FlagsKeep(s: Alloc, n: string, v: Var)
    requires RegInv(s) && n in s.vars && VarOk(v)
    requires v.inreg == s.vars[n].inreg && v.reg == s.vars[n].reg
    ensures RegInv(s.(vars := s.vars[n := v]))
  {
  }

  lemma AddressOfKeeps(s: Alloc, n: string)
    requires RegInv(s) && n in s.vars
    ensures RegInv(Indirect(s, n)) && SameSlots(s, Indirect(s, n)) && !Indirect(s, n).vars[n].inreg
    ensures RegInv(AddressOf(s, n)) && SameSlots(s, AddressOf(s, n))
    ensures RegInv(Volatile(s, n)) && SameSlots(s, Volatile(s, n))
  {
    if s.vars[n].inreg { EvictVarKeeps(s, n); }
    FlagsKeep(s, n, s.vars[n].(inmem := true));
    var s1 := Indirect(s, n);
    if s.vars[n].regable { FlagsKeep(s1, n, s1.vars[n].(volatile := true, inmem := true)); }
  }

  /** `Acquire` panics exactly if a register held by hand stands in the way: once
      the tracked conflicts are evicted, the register can be taken. */
  lemma AcquireKeeps(s: Alloc, r: Reg)
    requires RegInv(s)
    ensures Acquire(s, r).Some? <==> forall u: Reg :: u in s.used && Overlap(u, r) ==> u in s.regs
    ensures Acquire(s, r).Some? ==>
              var t := Acquire(s, r).value;
              RegInv(t) && SameSlots(s, t) && r in t.used && r !in t.regs
  {
    ConflictsAreOverlaps(r, s.used);
    var conflicts := ConflictsOf(r, s.used);
    if !exists c <- conflicts :: c !in s.regs {
      EvictRegsKeeps(s, conflicts);
      var s1 := EvictRegs(s, conflicts);
      forall u | u in s1.used ensures !Overlap(u, r) { assert u in s.used; }
      TakeKeeps(s1, r);
    }
  }
}
