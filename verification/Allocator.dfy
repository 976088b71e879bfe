/** The register and stack-slot allocator as the assembler runs it
    (function.go): objects for the allocations, linked to the register map, the
    name map, the LRU list and the free slots, all updated in place while
    instructions are appended.  Every method is proved to act on the state as
    the function of the same operation in `Allocation` says. */
module Allocator {
  import opened Wrappers
  import opened Registers
  import opened RegisterFile
  import opened Bytes
  import opened Machine
  import opened Allocation
  import opened AllocationInvariant
  import opened AllocationSlots

  /** The instructions of a function body. */
  class Code {
    var instrs: seq<Instr>

    constructor ()
      ensures instrs == []
    {
      instrs := [];
    }

    method Instr(i: Instr)
      modifies this
      ensures instrs == old(instrs) + [i]
    {
      instrs := instrs + [i];
    }
  }

  class Ralloc {
    const sym: string
    const size: int
    const regable: bool
    const offset: int
    const rallocs: Rallocs
    var inreg: bool
    var inmem: bool
    var reg: Reg
    var volatile: bool

    constructor (rallocs: Rallocs, sym: string, v: Var)
      ensures this.rallocs == rallocs && this.sym == sym && View() == v
    {
      this.sym, this.size, this.regable, this.offset, this.rallocs := sym, v.size, v.regable, v.offset, rallocs;
      inreg, inmem, reg, volatile := v.inreg, v.inmem, v.reg, v.volatile;
    }

    function View(): Var
      reads this
    {
      Var(size, regable, volatile, inreg, inmem, reg, offset)
    }

    ghost predicate Live()
      reads rallocs
    {
      sym in rallocs.names && rallocs.names[sym] == this
    }

    method RegSize() returns (n: int)
      ensures n == Allocation.RegSize(View())
    {
      if inreg { return Width(reg); }
      if regable { return size; }
      return 64;
    }

    /** Stores the value and gives back the register. */
    method Evict()
      requires rallocs.Valid() && Live() && inreg
      modifies this, rallocs`regs, rallocs`lru, rallocs`model, rallocs.rs, rallocs.f
      ensures rallocs.Valid()
      ensures rallocs.model == EvictVar(old(rallocs.model), sym)
    {
      hide RegInv, Represents, NamesTied, RegsTied, Without, SameSlots, Width, SlotBytes, Overlap, IsFree, HasEntry;
      ghost var s := rallocs.model;
      rallocs.Detach(this);
      EvictVarKeeps(s, sym);
      TrackedInUse(s, sym);
      if regable {
        var n := RegSize();
        rallocs.f.Instr(Store(offset, n, reg));
        inmem := true;
      }
      inreg := false;
      rallocs.Untrack(reg);
      RegsRemoved(old(rallocs.regs), rallocs.names, s.regs, reg);
      rallocs.model := EvictVar(s, sym);
      rallocs.Attach(this, s.vars);
    }

    /** Lives in a register that has been taken for it from here on. */
    method Occupy(r: Reg)
      requires rallocs.Valid() && Live() && !inreg && !volatile
      requires r in rallocs.model.used && r !in rallocs.model.regs && Width(r) == if regable then size else 64
      modifies this, rallocs`regs, rallocs`lru, rallocs`model
      ensures rallocs.Valid() && rallocs.model == Place(old(rallocs.model), sym, r)
    {
      hide RegInv, Represents, NamesTied, RegsTied, Without, SameSlots, Width, SlotBytes, Overlap, IsFree, HasEntry;
      ghost var s := rallocs.model;
      rallocs.Detach(this);
      PlaceKeeps(s, sym, r);
      reg := r;
      RegsAdded(rallocs.regs, rallocs.names, s.regs, r, sym);
      rallocs.regs := rallocs.regs[r := this];
      rallocs.UpdateLRU(r);
      inreg := true;
      rallocs.model := Place(s, sym, r);
      rallocs.Attach(this, s.vars);
    }

    /** Leaves its register for another that has been taken for it. */
    method MoveTo(r: Reg)
      requires rallocs.Valid() && Live() && inreg
      requires r in rallocs.model.used && r !in rallocs.model.regs && Width(r) == if regable then size else 64
      modifies this, rallocs`regs, rallocs`lru, rallocs`model, rallocs.rs, rallocs.f
      ensures rallocs.Valid() && rallocs.model == Moved(Emit(old(rallocs.model), Mov(r, old(reg))), sym, r)
    {
      hide RegInv, Represents, NamesTied, RegsTied, Without, SameSlots, Width, SlotBytes, Overlap, IsFree, HasEntry;
      ghost var s := Emit(rallocs.model, Mov(r, reg));
      rallocs.Detach(this);
      EmitKeepsRegs(rallocs.model, Mov(r, reg));
      MoveKeeps(s, sym, r);
      TrackedInUse(s, sym);
      RegsMoved(rallocs.regs, rallocs.names, s.regs, reg, r, sym);
      rallocs.f.Instr(Mov(r, reg));
      rallocs.Untrack(reg);
      reg := r;
      rallocs.regs := rallocs.regs[r := this];
      rallocs.UpdateLRU(r);
      inreg := true;
      rallocs.model := Moved(s, sym, r);
      rallocs.Attach(this, s.vars);
    }

    method Register() returns (r: Option<Reg>)
      requires rallocs.Valid() && Live()
      modifies rallocs`regs, rallocs`lru, rallocs`model, rallocs.rs, rallocs.f, rallocs.objects
      ensures rallocs.Valid()
      ensures r.Some? == ToRegister(old(rallocs.model), sym).Some?
      ensures r.Some? ==> ToRegister(old(rallocs.model), sym).value == (rallocs.model, r.value)
    {
      hide RegInv, Represents, NamesTied, RegsTied, Without, SameSlots, Width, SlotBytes, Obtain, Place;
      rallocs.Detach(this);
      if volatile && regable { return None; }
      ghost var s := rallocs.model;
      if inreg {
        rallocs.Use(this);
        return Some(reg);
      }
      WellFormed(s, sym);
      ObtainKeepsOther(s, if regable then size else 64, sym);
      ObtainKeeps(s, if regable then size else 64);
      if !regable {
        r := rallocs.Obtain(64);
        if r.None? { return; }
        rallocs.Detach(this);
        rallocs.Emits(Lea(r.value, offset));
      } else {
        r := rallocs.Obtain(size);
        if r.None? { return; }
        rallocs.Detach(this);
        if inmem {
          if Width(r.value) < 64 { rallocs.Emits(Zero(FullReg(r.value))); }
          var n := RegSize();
          rallocs.Emits(Load(r.value, offset, n));
        }
      }
      Occupy(r.value);
    }

    /** Moves or loads the value into one particular register, which is cleared
        first; false is a panic. */
    method UseRegister(r: Reg) returns (ok: bool)
      requires rallocs.Valid() && Live() && Usable(rallocs.model, sym, r)
      modifies rallocs`regs, rallocs`lru, rallocs`model, rallocs.rs, rallocs.f, rallocs.objects
      ensures rallocs.Valid() && ok == Allocation.UseRegister(old(rallocs.model), sym, r).Some?
      ensures ok ==> rallocs.model == Allocation.UseRegister(old(rallocs.model), sym, r).value
    {
      hide RegInv, Represents, NamesTied, RegsTied, Without, SameSlots, SlotBytes, Seat, EvictReg, IsFree;
      rallocs.Detach(this);
      if volatile && regable { return false; }
      if inreg && reg == r { return true; }
      ghost var s := rallocs.model;
      WellFormed(s, sym);
      ClearedKeeps(s, sym, r);
      var inUse := rallocs.rs.InUse(r);
      if inUse { rallocs.EvictReg(r); }
      var _ := rallocs.Hold(r);
      ok := SeatIn(r);
    }

    method SeatIn(r: Reg) returns (ok: bool)
      requires rallocs.Valid() && Live() && !rallocs.model.vars[sym].volatile
      requires r in rallocs.model.used && r !in rallocs.model.regs && (!regable ==> r.view.Qword?)
      modifies rallocs`regs, rallocs`lru, rallocs`model, rallocs.rs, rallocs.f, rallocs.objects
      ensures rallocs.Valid() && ok == Seat(old(rallocs.model), sym, r).Some?
      ensures ok ==> rallocs.model == Seat(old(rallocs.model), sym, r).value
    {
      hide RegInv, Represents, NamesTied, RegsTied, Without, SameSlots, SlotBytes, Place, Moved;
      rallocs.Detach(this);
      WellFormed(rallocs.model, sym);
      if regable && size != Width(r) { return false; }
      if inreg {
        MoveTo(r);
        return true;
      }
      if inmem {
        if !regable {
          rallocs.Emits(Lea(r, offset));
        } else {
          var n := RegSize();
          rallocs.Emits(Load(r, offset, n));
        }
      }
      Occupy(r);
      return true;
    }

    /** Where the value can be moved to or from; `None` is a panic. */
    method Location(preferRegister: bool) returns (o: Option<Operand>)
      requires rallocs.Valid() && Live()
      modifies rallocs`regs, rallocs`lru, rallocs`model, rallocs.rs, rallocs.f, rallocs.objects
      ensures rallocs.Valid() && o.Some? == Allocation.Location(old(rallocs.model), sym, preferRegister).Some?
      ensures o.Some? ==> Allocation.Location(old(rallocs.model), sym, preferRegister).value == (rallocs.model, o.value)
    {
      hide RegInv, Represents, NamesTied, RegsTied, Without, ToRegister, SlotBytes;
      rallocs.Detach(this);
      if inreg {
        rallocs.Use(this);
        return Some(InReg(reg));
      }
      if !regable || preferRegister {
        var r := Register();
        return if r.Some? then Some(InReg(r.value)) else None;
      }
      var n := RegSize();
      ghost var s := rallocs.model;
      WellFormed(s, sym);
      if !inmem { SetFlags(true, volatile); }
      assert s.vars[sym := s.vars[sym]] == s.vars;
      return Some(InMem(offset, n));
    }

    /** The slot, to which the value is stored first. */
    method Indirect() returns (off: int)
      requires rallocs.Valid() && Live()
      modifies this, rallocs`regs, rallocs`lru, rallocs`model, rallocs.rs, rallocs.f
      ensures rallocs.Valid() && rallocs.model == Allocation.Indirect(old(rallocs.model), sym)
      ensures off == old(rallocs.model).vars[sym].offset
    {
      hide RegInv, Represents, NamesTied, RegsTied, EvictVar;
      rallocs.Detach(this);
      if inreg { Evict(); }
      return offset;
    }

    method SetFlags(inmem: bool, volatile: bool)
      requires rallocs.Valid() && Live()
      requires VarOk(View().(inmem := inmem, volatile := volatile))
      modifies this, rallocs`model
      ensures rallocs.Valid()
      ensures rallocs.model == old(rallocs.model).(
                vars := old(rallocs.model).vars[sym := old(View()).(inmem := inmem, volatile := volatile)])
    {
      hide RegInv, Represents, NamesTied, RegsTied;
      ghost var s := rallocs.model;
      rallocs.Detach(this);
      FlagsKeep(s, sym, View().(inmem := inmem, volatile := volatile));
      this.inmem, this.volatile := inmem, volatile;
      rallocs.model := s.(vars := s.vars[sym := View()]);
      rallocs.Attach(this, s.vars);
    }
  }

  lemma RegsAdded(regs: map<Reg, Ralloc>, names: map<string, Ralloc>, tracked: map<Reg, string>, r: Reg, n: string)
    requires RegsTied(regs, names, tracked) && n in names
    ensures RegsTied(regs[r := names[n]], names, tracked[r := n])
  {
  }

  lemma RegsGrown(regs: map<Reg, Ralloc>, names: map<string, Ralloc>, tracked: map<Reg, string>, n: string, r: Ralloc)
    requires RegsTied(regs, names, tracked) && n !in names
    ensures RegsTied(regs, names[n := r], tracked)
  {
  }

  lemma RegsRemoved(regs: map<Reg, Ralloc>, names: map<string, Ralloc>, tracked: map<Reg, string>, r: Reg)
    requires RegsTied(regs, names, tracked)
    ensures RegsTied(regs - {r}, names, tracked - {r})
  {
  }

  lemma RegsMoved(regs: map<Reg, Ralloc>, names: map<string, Ralloc>, tracked: map<Reg, string>, r: Reg, to: Reg, n: string)
    requires RegsTied(regs, names, tracked) && n in names
    ensures RegsTied((regs - {r})[to := names[n]], names, (tracked - {r})[to := n])
  {
    RegsRemoved(regs, names, tracked, r);
    RegsAdded(regs - {r}, names, tracked - {r}, to, n);
  }

  lemma EmitKeepsRegs(s: Alloc, i: Instr)
    requires RegInv(s)
    ensures RegInv(Emit(s, i))
  {
  }

  lemma WellFormed(s: Alloc, n: string)
    requires RegInv(s) && n in s.vars
    ensures VarOk(s.vars[n])
  {
  }

  lemma TrackedInUse(s: Alloc, n: string)
    requires RegInv(s) && n in s.vars && s.vars[n].inreg
    ensures s.vars[n].reg in s.regs && s.regs[s.vars[n].reg] == n && s.vars[n].reg in s.used
  {
  }

  /** The map by name holds one object for each allocation. */
  ghost predicate NamesTied(names: map<string, Ralloc>, objects: set<Ralloc>, owner: Rallocs, vars: map<string, Var>)
    reads objects
  {
    && names.Keys == vars.Keys
    && forall n :: n in names ==>
         names[n] in objects && names[n].sym == n && names[n].rallocs == owner && names[n].View() == vars[n]
  }

  /** The map by register holds the objects that the map by name does. */
  ghost predicate RegsTied(regs: map<Reg, Ralloc>, names: map<string, Ralloc>, tracked: map<Reg, string>) {
    regs.Keys == tracked.Keys && forall r: Reg :: r in regs ==> tracked[r] in names && regs[r] == names[tracked[r]]
  }

  class Rallocs {
    const rs: RegisterBits
    const f: Code
    var regs: map<Reg, Ralloc>
    var names: map<string, Ralloc>
    var lru: seq<Reg>
    var localoff: int
    var freeSpace: seq<Slot>
    ghost var objects: set<Ralloc>
    ghost var model: Alloc
    ghost var before: seq<Instr>

    constructor (rs: RegisterBits, f: Code)
      requires rs.Valid() && rs.used == {} && f.instrs == []
      ensures Valid() && this.rs == rs && this.f == f && objects == {}
      ensures model == Alloc({}, map[], map[], [], 0, [], [])
    {
      this.rs, this.f := rs, f;
      regs, names, lru, localoff, freeSpace := map[], map[], [], 0, [];
      objects, before, model := {}, [], Alloc({}, map[], map[], [], 0, [], []);
    }

    /** The objects describe the state `model`; `before` is the code that was
        there before the allocator's own. */
    ghost predicate Tied()
      reads this, rs, f, objects
    {
      && rs.Valid() && rs.used == model.used && f.instrs == before + model.code
      && lru == model.lru && localoff == model.localoff && freeSpace == model.freeSpace
      && NamesTied(names, objects, this, model.vars) && RegsTied(regs, names, model.regs)
    }

    ghost predicate Valid()
      reads this, rs, f, objects
    {
      Tied() && RegInv(model)
    }

    /** Sets one allocation apart: the others do not depend on its fields. */
    lemma Detach(r: Ralloc)
      requires NamesTied(names, objects, this, model.vars) && r.sym in names && names[r.sym] == r
      ensures r.rallocs == this && r in objects && names.Keys == model.vars.Keys && r.sym in model.vars &&
              r.View() == model.vars[r.sym]
      ensures NamesTied(names - {r.sym}, objects - {r}, this, model.vars - {r.sym})
    {
    }

    lemma Attach(r: Ralloc, vars: map<string, Var>)
      requires r.rallocs == this && r.sym in names && names[r.sym] == r && r in objects
      requires names.Keys == vars.Keys && NamesTied(names - {r.sym}, objects - {r}, this, vars - {r.sym})
      ensures NamesTied(names, objects, this, vars[r.sym := r.View()])
    {
      forall n | n in names && n != r.sym
        ensures names[n] in objects && names[n].sym == n && names[n].rallocs == this && names[n].View() == vars[n]
      {
        assert n in names - {r.sym};
      }
    }

    method RemoveLRU(r: Reg)
      modifies this`lru
      ensures lru == Without(old(lru), r)
    {
      var k := 0;
      for i := 0 to |lru|
        invariant k <= i <= |lru| == |old(lru)|
        invariant lru[..k] == Without(old(lru)[..i], r) && lru[i..] == old(lru)[i..]
      {
        WithoutSnoc(old(lru)[..i], r, old(lru)[i]);
        assert old(lru)[..i + 1] == old(lru)[..i] + [old(lru)[i]];
        assert lru[i] == lru[i..][0] && old(lru)[i..][0] == old(lru)[i] && lru[i..][1..] == old(lru)[i..][1..];
        if lru[i] == r { continue; }
        lru := lru[k := lru[i]];
        k := k + 1;
      }
      assert old(lru)[..|lru|] == old(lru);
      lru := lru[..k];
    }

    /** Gives back a register that an allocation has left. */
    method Untrack(r: Reg)
      requires rs.Valid() && r in rs.used
      modifies this`lru, this`regs, rs
      ensures rs.Valid() && rs.used == old(rs.used) - {r}
      ensures lru == Without(old(lru), r) && regs == old(regs) - {r}
    {
      hide Represents;
      rs.Release(r);
      RemoveLRU(r);
      regs := regs - {r};
    }

    /** Appends an instruction. */
    method Emits(i: Instr)
      requires Valid()
      modifies this`model, f
      ensures Valid() && model == Emit(old(model), i)
    {
      hide RegInv, Represents, NamesTied, RegsTied;
      EmitKeepsRegs(model, i);
      f.Instr(i);
      model := Emit(model, i);
    }

    /** Makes the register of an allocation the most recently used one. */
    method Use(r: Ralloc)
      requires Valid() && r.rallocs == this && r.Live() && r.inreg
      modifies this`lru, this`model
      ensures Valid() && model == Touch(old(model), r.reg)
    {
      hide RegInv, Represents, NamesTied, RegsTied, Without, SameSlots;
      Detach(r);
      TrackedInUse(model, r.sym);
      TouchKeeps(model, r.reg);
      UpdateLRU(r.reg);
      model := Touch(model, r.reg);
    }

    /** A register of some size: a free one, or one that is evicted for it. */
    method Obtain(size: int) returns (r: Option<Reg>)
      requires Valid() && ValidSize(size)
      modifies this`regs, this`lru, this`model, rs, f, objects
      ensures Valid()
      ensures r.Some? == Allocation.Obtain(old(model), size).Some?
      ensures r.Some? ==> Allocation.Obtain(old(model), size).value == (model, r.value)
    {
      hide RegInv, Represents, NamesTied, RegsTied, Choice, EvictFor, IsFree;
      r := rs.Get(size);
      if r.Some? {
        ChoiceIsFree(size, model.used);
        TakeKeeps(model, r.value);
        model := Take(model, r.value);
      } else {
        r := Evict(size);
      }
    }

    /** Evicts the least recently used register that is wide enough and answers
        the request from what is then free. */
    method Evict(size: int) returns (r: Option<Reg>)
      requires Valid() && ValidSize(size)
      modifies this`regs, this`lru, this`model, rs, f, objects
      ensures Valid()
      ensures r.Some? == EvictFor(old(model), size).Some?
      ensures r.Some? ==> EvictFor(old(model), size).value == (model, r.value)
      ensures model == AfterEvictFor(old(model), size)
    {
      hide RegInv, Represents, NamesTied, RegsTied, Choice, EvictVar, EvictRegs;
      for i := 0 to |lru|
        invariant Valid() && model == old(model) && lru == old(lru)
        invariant Victim(lru, size) == Victim(lru[i..], size)
      {
        assert lru[i..][1..] == lru[i + 1..] && lru[i] in lru;
        if Width(lru[i]) >= size {
          ghost var s := model;
          Occupant(lru[i]);
          EvictOne(s, lru[i]);
          regs[lru[i]].Evict();
          r := rs.Get(size);
          if r.Some? {
            ChoiceIsFree(size, model.used);
            TakeKeeps(model, r.value);
            model := Take(model, r.value);
          }
          return;
        }
      }
      return None;
    }

    lemma Occupant(r: Reg)
      requires Valid() && (r in lru || r in regs)
      ensures r in regs && regs[r] in objects && regs[r].rallocs == this && regs[r].Live() && regs[r].inreg
      ensures r in model.regs && regs[r].sym == model.regs[r] && regs[r].reg == r
    {
    }

    /** Marks a register as in use, if it is free. */
    method Hold(r: Reg) returns (ok: bool)
      requires Valid()
      modifies this`model, rs
      ensures Valid() && ok == IsFree(r, old(model).used)
      ensures model == if ok then Take(old(model), r) else old(model)
    {
      hide RegInv, Represents, NamesTied, RegsTied;
      ok := rs.Use(r);
      if ok {
        TakeKeeps(model, r);
        model := Take(model, r);
      }
    }

    /** Evicts whatever allocations are in the way of a register. */
    method EvictReg(r: Reg)
      requires Valid()
      modifies this`regs, this`lru, this`model, rs, f, objects
      ensures Valid() && model == Allocation.EvictReg(old(model), r)
    {
      hide RegInv, Represents, NamesTied, EvictVar, ConflictsOf, EvictRegs;
      var conflicts := rs.Conflicts(r);
      for i := 0 to |conflicts|
        invariant Valid()
        invariant EvictRegs(old(model), conflicts) == EvictRegs(model, conflicts[i..])
      {
        EvictStep(model, conflicts, i);
        if conflicts[i] in regs {
          Occupant(conflicts[i]);
          regs[conflicts[i]].Evict();
        }
      }
      assert conflicts[|conflicts|..] == [];
      EvictNone(model);
    }

    method EvictAll()
      requires Valid()
      modifies this`regs, this`lru, this`model, rs, f, objects
      ensures Valid() && model == Allocation.EvictAll(old(model))
    {
      hide RegInv, Represents, NamesTied, EvictVar, EvictRegs;
      var order := lru;
      Permuted(model);
      for i := 0 to |order|
        invariant Valid() && lru == order[i..]
        invariant EvictRegs(old(model), order) == EvictRegs(model, order[i..])
      {
        EvictStep(model, order, i);
        assert lru[0] == order[i] && lru[1..] == order[i + 1..];
        Occupant(order[i]);
        EvictFirst(model, order[i]);
        regs[order[i]].Evict();
      }
      assert order[|order|..] == [];
      EvictNone(model);
    }

    method EvictForCall()
      requires Valid()
      modifies this`regs, this`lru, this`model, rs, f, objects
      ensures Valid() && model == Allocation.EvictForCall(old(model))
    {
      hide RegInv, Represents, NamesTied, RegsTied, Allocation.EvictReg;
      EvictEachOf(CALLER_SAVED);
    }

    method EvictEachOf(rs: seq<Reg>)
      requires Valid()
      modifies this`regs, this`lru, this`model, this.rs, f, objects
      ensures Valid() && model == EvictEach(old(model), rs)
    {
      hide RegInv, Represents, NamesTied, RegsTied, Allocation.EvictReg;
      for i := 0 to |rs|
        invariant Valid() && EvictEach(old(model), rs) == EvictEach(model, rs[i..])
      {
        assert rs[i..][0] == rs[i] && rs[i..][1..] == rs[i + 1..];
        EvictReg(rs[i]);
      }
    }

    /** Evicts what is in the way of a register and takes it; false is a panic. */
    method Acquire(r: Reg) returns (ok: bool)
      requires Valid()
      modifies this`regs, this`lru, this`model, rs, f, objects
      ensures Valid() && ok == Allocation.Acquire(old(model), r).Some?
      ensures ok ==> model == Allocation.Acquire(old(model), r).value
    {
      hide RegInv, Represents, NamesTied, EvictVar, ConflictsOf, IsFree, EvictRegs;
      ConflictsDistinct(model, r);
      var conflicts := rs.Conflicts(r);
      for i := 0 to |conflicts|
        invariant Valid()
        invariant EvictRegs(old(model), conflicts) == EvictRegs(model, conflicts[i..])
        invariant forall j :: 0 <= j < i ==> conflicts[j] in old(model).regs
        invariant forall j :: i <= j < |conflicts| ==> (conflicts[j] in model.regs <==> conflicts[j] in old(model).regs)
      {
        EvictStep(model, conflicts, i);
        if conflicts[i] !in regs { return false; }
        Occupant(conflicts[i]);
        EvictVarRegs(model, conflicts[i]);
        regs[conflicts[i]].Evict();
      }
      assert conflicts[|conflicts|..] == [];
      EvictNone(model);
      ok := Hold(r);
    }

    method Space(size: int) returns (off: int)
      modifies this`localoff, this`freeSpace, this`model
      requires localoff == model.localoff && freeSpace == model.freeSpace
      ensures Allocation.Space(old(model), size) == (model, off)
      ensures localoff == model.localoff && freeSpace == model.freeSpace
    {
      var out := -1;
      for i := 0 to |freeSpace|
        invariant SlotIndex(freeSpace, size) ==
                  if SlotIndex(freeSpace[i..], size) < 0 then -1 else i + SlotIndex(freeSpace[i..], size)
        invariant out == -1
      {
        assert freeSpace[i..][1..] == freeSpace[i + 1..];
        if freeSpace[i].size == size {
          out := i;
          break;
        }
      }
      assert out == -1 ==> freeSpace[|freeSpace|..] == [];
      if out >= 0 {
        off := freeSpace[out].offset;
        freeSpace := freeSpace[..out] + freeSpace[out + 1..];
        model := model.(freeSpace := freeSpace);
      } else {
        localoff := Uint32(localoff + size);
        off := Int32(-localoff);
        model := model.(localoff := localoff);
      }
    }

    method ReturnSpace(size: int, offset: int)
      modifies this`freeSpace
      ensures freeSpace == old(freeSpace) + [Slot(size, offset)]
    {
      freeSpace := freeSpace + [Slot(size, offset)];
    }

    /** Enters a new allocation under its name. */
    method Enter(name: string, v: Var) returns (r: Ralloc)
      requires Tied() && name !in names
      modifies this`names, this`objects, this`model
      ensures fresh(r) && names == old(names)[name := r] && objects == old(objects) + {r}
      ensures Tied() && r.Live() && r.rallocs == this && model == Add(old(model), name, v)
    {
      hide Represents, NamesTied, RegsTied;
      r := new Ralloc(this, name, v);
      SameKeys();
      RegsGrown(regs, names, model.regs, name, r);
      names := names[name := r];
      objects := objects + {r};
      model := Add(model, name, v);
      assert names - {name} == old(names) && objects - {r} == old(objects) && model.vars - {name} == old(model).vars;
      Attach(r, model.vars);
      assert model.vars[name := v] == model.vars;
    }

    /** A new local of some bits; `null` if the name is taken. */
    method NewLocal(name: string, size: int) returns (r: Ralloc?)
      requires Valid() && ValidSize(size)
      modifies this
      ensures Valid() && model == Allocation.NewLocal(old(model), name, size)
      ensures (r == null) == (name in old(names))
      ensures if r == null then names == old(names) && objects == old(objects) else
                fresh(r) && names == old(names)[name := r] && objects == old(objects) + {r} && r.rallocs == this
    {
      hide Represents, RegInv, NamesTied, RegsTied, Allocation.Space, Int32;
      if name in names {
        SameKeys();
        return null;
      }
      SameKeys();
      ghost var s := model;
      var off := Space(Int32(size) / 8);
      SpaceKeepsRegs(s, Int32(size) / 8);
      var v := Var(size, true, false, false, false, RAX, off);
      AddKeepsRegs(model, name, v);
      r := Enter(name, v);
    }

    lemma SameKeys()
      requires Tied()
      ensures names.Keys == model.vars.Keys
    {
    }

    /** A new area of some bytes; `null` if the name is taken. */
    method AllocBytes(name: string, size: nat) returns (r: Ralloc?)
      requires Valid()
      modifies this
      ensures Valid() && model == Allocation.AllocBytes(old(model), name, size)
      ensures (r == null) == (name in old(names))
      ensures if r == null then names == old(names) && objects == old(objects) else
                fresh(r) && names == old(names)[name := r] && objects == old(objects) + {r} && r.rallocs == this
    {
      hide Represents, RegInv, NamesTied, RegsTied, Allocation.Space, Int32;
      SameKeys();
      if name in names { return null; }
      ghost var s := model;
      var off := Space(Int32(size));
      SpaceKeepsRegs(s, Int32(size));
      var v := Var(size * 8, false, false, false, true, RAX, off);
      AddKeepsRegs(model, name, v);
      r := Enter(name, v);
    }

    /** Keeps a local in memory from now on; false if there is none. */
    method VolatileLocal(name: string) returns (ok: bool)
      requires Valid()
      modifies this`regs, this`lru, this`model, rs, f, objects
      ensures Valid() && ok == (name in names)
      ensures model == if ok then Volatile(old(model), name) else old(model)
    {
      hide Represents, RegInv, NamesTied, RegsTied, EvictVar;
      if name !in names { return false; }
      var r := Named(name);
      ok := true;
      Detach(r);
      if !r.regable { return; }
      var _ := r.Indirect();
      Detach(r);
      WellFormed(model, name);
      NotInRegister(old(model), name);
      r.SetFlags(true, true);
    }

    method Named(name: string) returns (r: Ralloc)
      requires Tied() && name in names
      ensures r == names[name] && r in objects && r.rallocs == this && r.Live() && r.sym == name
    {
      r := names[name];
    }

    /** Gives up an allocation, its register and its slot; false if there is none. */
    method Forget(name: string) returns (ok: bool)
      requires Valid()
      modifies this, rs
      ensures Valid() && model == Allocation.Forget(old(model), name)
      ensures ok == (name in old(names)) && names == old(names) - {name} && objects <= old(objects)
    {
      hide Represents, RegInv, NamesTied, RegsTied, Without, Width, Overlap;
      SameKeys();
      if name !in names {
        assert names - {name} == names;
        return false;
      }
      var r := Named(name);
      ghost var s := model;
      Detach(r);
      ForgetKeepsRegs(s, name);
      if r.inreg {
        TrackedInUse(s, name);
        Untrack(r.reg);
        RegsRemoved(old(regs), names, s.regs, r.reg);
        model := s.(lru := lru, regs := s.regs - {r.reg}, used := rs.used);
      }
      Delete(r);
      return true;
    }

    method Delete(r: Ralloc)
      requires Tied() && r.rallocs == this && r.Live() && forall u: Reg :: u in model.regs ==> model.regs[u] != r.sym
      modifies this`names, this`freeSpace, this`objects, this`model
      ensures Tied() && names == old(names) - {r.sym} && objects <= old(objects)
      ensures var s := old(model);
              model == s.(vars := s.vars - {r.sym}, freeSpace := s.freeSpace + [Slot(Quotient(Int32(r.size), 8), r.offset)])
    {
      hide Represents, NamesTied, RegsTied;
      Detach(r);
      RegsForgotten(regs, names, model.regs, r.sym);
      names := names - {r.sym};
      ReturnSpace(Quotient(Int32(r.size), 8), r.offset);
      objects := objects - {r};
      model := model.(vars := model.vars - {r.sym}, freeSpace := freeSpace);
    }

    /** An argument that arrives in a register, which must be bindable. */
    method Arg(name: string, reg: Reg) returns (r: Ralloc?)
      requires Valid()
      modifies this, rs
      ensures Tied() && model == Allocation.Arg(old(model), name, reg)
      ensures name in old(names) || Bindable(old(model), reg) ==> Valid()
      ensures (r == null) == (name in old(names))
      ensures if r == null then names == old(names) && objects == old(objects) else
                fresh(r) && names == old(names)[name := r] && objects == old(objects) + {r} && r.rallocs == this
    {
      hide Represents, RegInv, NamesTied, RegsTied, Allocation.Space, Without, IsFree;
      SameKeys();
      if name in names { return null; }
      ghost var s := model;
      var off := Space(Width(reg) / 8);
      SpaceKeepsRegs(s, Width(reg) / 8);
      ghost var s1 := model;
      r := Enter(name, Var(Width(reg), true, false, true, false, reg, off));
      RegsAdded(regs, names, model.regs, reg, name);
      regs := regs[reg := r];
      UpdateLRU(reg);
      var _ := rs.Use(reg);
      model := Bind(s1, name, reg, off);
      if Bindable(s1, reg) {
        BindingKeeps(s1, name, reg, off);
        BindIsPlace(s1, name, reg, off);
      }
    }

    method UpdateLRU(r: Reg)
      modifies this`lru
      ensures lru == Without(old(lru), r) + [r]
    {
      RemoveLRU(r);
      lru := lru + [r];
    }
  }

  lemma ConflictsDistinct(s: Alloc, r: Reg)
    requires RegInv(s)
    ensures forall i, j :: 0 <= i < j < |ConflictsOf(r, s.used)| ==> ConflictsOf(r, s.used)[i] != ConflictsOf(r, s.used)[j]
  {
    ConflictsAreOverlaps(r, s.used);
  }

  lemma EvictVarRegs(s: Alloc, r: Reg)
    requires RegInv(s) && r in s.regs
    ensures EvictVar(s, s.regs[r]).regs == s.regs - {r}
  {
  }

  lemma Permuted(s: Alloc)
    requires RegInv(s)
    ensures NoDuplicates(s.lru)
  {
  }

  lemma EvictFirst(s: Alloc, r: Reg)
    requires RegInv(s) && s.lru != [] && s.lru[0] == r && r in s.regs
    ensures EvictVar(s, s.regs[r]).lru == s.lru[1..]
  {
    WithoutAbsent(s.lru[1..], r);
  }

  lemma {:induction false} WithoutAbsent(lru: seq<Reg>, r: Reg)
    requires r !in lru
    ensures Without(lru, r) == lru
  {
    if lru != [] { WithoutAbsent(lru[1..], r); }
  }

  lemma EvictStep(s: Alloc, rs: seq<Reg>, i: nat)
    requires RegInv(s) && i < |rs|
    ensures EvictRegs(s, rs[i..]) == EvictRegs(if rs[i] in s.regs then EvictVar(s, s.regs[rs[i]]) else s, rs[i + 1..])
  {
    assert rs[i..][0] == rs[i] && rs[i..][1..] == rs[i + 1..];
  }

  lemma EvictNone(s: Alloc)
    ensures EvictRegs(s, []) == s
  {
  }

  lemma SpaceKeepsRegs(s: Alloc, size: int)
    requires RegInv(s)
    ensures RegInv(Space(s, size).0)
    ensures Space(s, size).0 == s.(freeSpace := Space(s, size).0.freeSpace, localoff := Space(s, size).0.localoff)
  {
  }

  lemma NotInRegister(s: Alloc, n: string)
    requires n in s.vars
    ensures !Indirect(s, n).vars[n].inreg
  {
  }

  /** Forgetting a name: no register is tracked for it any more. */
  lemma RegsForgotten(regs: map<Reg, Ralloc>, names: map<string, Ralloc>, tracked: map<Reg, string>, n: string)
    requires RegsTied(regs, names, tracked) && forall r: Reg :: r in tracked ==> tracked[r] != n
    ensures RegsTied(regs, names - {n}, tracked)
  {
  }

  lemma EvictOne(s: Alloc, r: Reg)
    requires RegInv(s) && r in s.regs
    ensures EvictRegs(s, [r]) == EvictVar(s, s.regs[r])
  {
  }

  lemma {:induction false} WithoutSnoc(lru: seq<Reg>, r: Reg, x: Reg)
    ensures Without(lru + [x], r) == Without(lru, r) + (if x == r then [] else [x])
  {
    if lru == [] {
      assert [] + [x] == [x] && [x][1..] == [];
    } else {
      WithoutSnoc(lru[1..], r, x);
      assert (lru + [x])[1..] == lru[1..] + [x];
    }
  }
}
