/** The register and stack-slot allocator (function.go) as functions on its
    state.  `None` is a panic of the source. */
module Allocation {
  import opened Wrappers
  import opened Registers
  import opened RegisterFile
  import opened Bytes
  import opened Machine

  /** An allocation.  `size` is in bits; `offset` is relative to RBP; `reg` only
      means something when `inreg` holds. */
  datatype Var = Var(size: int, regable: bool, volatile: bool, inreg: bool, inmem: bool, reg: Reg, offset: int)

  datatype Slot = Slot(size: int, offset: int)

  /** `used` holds every register handed out; those in `regs` hold the named
      allocation, the others are held by hand. */
  datatype Alloc = Alloc(
    used: set<Reg>,
    regs: map<Reg, string>,
    vars: map<string, Var>,
    lru: seq<Reg>,
    localoff: int,
    freeSpace: seq<Slot>,
    code: seq<Instr>)

  /** A place that a value can be moved to or from. */
  datatype Operand = InReg(reg: Reg) | InMem(off: int, size: int)

  function RegSize(v: Var): int {
    if v.inreg then Width(v.reg) else if v.regable then v.size else 64
  }

  function SlotBytes(v: Var): int { v.size / 8 }

  function Emit(s: Alloc, i: Instr): Alloc { s.(code := s.code + [i]) }

  // ----- the LRU list -----

  function Without(lru: seq<Reg>, r: Reg): seq<Reg> {
    if lru == [] then []
    else if lru[0] == r then Without(lru[1..], r)
    else [lru[0]] + Without(lru[1..], r)
  }

  function Touch(s: Alloc, r: Reg): Alloc { s.(lru := Without(s.lru, r) + [r]) }

  // ----- eviction -----

  /** Stores a register-resident allocation to its slot and frees its register. */
  function EvictVar(s: Alloc, n: string): Alloc
    requires n in s.vars
  {
    var v := s.vars[n];
    var s1 := if v.regable then Emit(s, Store(v.offset, RegSize(v), v.reg)) else s;
    s1.(vars := s.vars[n := v.(inreg := false, inmem := v.inmem || v.regable)],
        used := s.used - {v.reg},
        lru := Without(s.lru, v.reg),
        regs := s.regs - {v.reg})
  }

  /** Evicts the allocations in some registers, skipping those held by hand. */
  function EvictRegs(s: Alloc, rs: seq<Reg>): Alloc
    decreases rs
  {
    if rs == [] then s
    else if rs[0] in s.regs && s.regs[rs[0]] in s.vars then EvictRegs(EvictVar(s, s.regs[rs[0]]), rs[1..])
    else EvictRegs(s, rs[1..])
  }

  function EvictReg(s: Alloc, r: Reg): Alloc { EvictRegs(s, ConflictsOf(r, s.used)) }

  function EvictAll(s: Alloc): Alloc { EvictRegs(s, s.lru) }

  function EvictEach(s: Alloc, rs: seq<Reg>): Alloc
    decreases rs
  {
    if rs == [] then s else EvictEach(EvictReg(s, rs[0]), rs[1..])
  }

  function EvictForCall(s: Alloc): Alloc { EvictEach(s, CALLER_SAVED) }

  // ----- requests for registers -----

  function Take(s: Alloc, r: Reg): Alloc { s.(used := s.used + {r}) }

  /** The least recently used register of at least some size. */
  function Victim(lru: seq<Reg>, size: int): Option<Reg> {
    if lru == [] then None else if Width(lru[0]) >= size then Some(lru[0]) else Victim(lru[1..], size)
  }

  function EvictFor(s: Alloc, size: int): Option<(Alloc, Reg)> {
    var victim := Victim(s.lru, size);
    if victim.None? then None
    else
      var s1 := EvictRegs(s, [victim.value]);
      var r := Choice(size, s1.used);
      if r.None? then None else Some((Take(s1, r.value), r.value))
  }

  /** The state that it leaves, whether or not a register was found in the end. */
  function AfterEvictFor(s: Alloc, size: int): Alloc {
    var victim := Victim(s.lru, size);
    if victim.None? then s
    else
      var s1 := EvictRegs(s, [victim.value]);
      AfterGet(s1, size)
  }

  function AfterGet(s: Alloc, size: int): Alloc {
    var r := Choice(size, s.used);
    if r.None? then s else Take(s, r.value)
  }

  function Obtain(s: Alloc, size: int): Option<(Alloc, Reg)> {
    var r := Choice(size, s.used);
    if r.Some? then Some((Take(s, r.value), r.value)) else EvictFor(s, size)
  }

  /** Lets an allocation live in a register that has been taken for it. */
  function Place(s: Alloc, n: string, r: Reg): Alloc
    requires n in s.vars
  {
    Touch(s.(vars := s.vars[n := s.vars[n].(reg := r, inreg := true)], regs := s.regs[r := n]), r)
  }

  /** Brings an allocation (for a non-regable one, its address) into a register. */
  function ToRegister(s: Alloc, n: string): Option<(Alloc, Reg)>
    requires n in s.vars
  {
    var v := s.vars[n];
    if v.volatile && v.regable then None
    else if v.inreg then Some((Touch(s, v.reg), v.reg))
    else
      var got := Obtain(s, if v.regable then v.size else 64);
      if got.None? || n !in got.value.0.vars then None
      else
        var (s1, r) := got.value;
        var s2 := if !v.regable then Emit(s1, Lea(r, v.offset)) else if v.inmem then LoadInto(s1, v, r) else s1;
        Some((Place(s2, n, r), r))
  }

  function LoadInto(s: Alloc, v: Var, r: Reg): Alloc {
    var s1 := if Width(r) < 64 then Emit(s, Zero(FullReg(r))) else s;
    Emit(s1, Load(r, v.offset, RegSize(v)))
  }

  /** Brings an allocation into one particular register. */
  function UseRegister(s: Alloc, n: string, r: Reg): Option<Alloc>
    requires n in s.vars
  {
    var v := s.vars[n];
    if v.volatile && v.regable then None
    else if v.inreg && v.reg == r then Some(s)
    else
      var s1 := if IsFree(r, s.used) then s else EvictReg(s, r);
      Seat(if IsFree(r, s1.used) then Take(s1, r) else s1, n, r)
  }

  /** Moves or loads an allocation into a register that has been cleared. */
  function Seat(s: Alloc, n: string, r: Reg): Option<Alloc> {
    if n !in s.vars then None
    else
      var v := s.vars[n];
      if v.regable && v.size != Width(r) then None
      else if v.inreg then Some(Moved(Emit(s, Mov(r, v.reg)), n, r))
      else if v.inmem then
        Some(Place(Emit(s, if v.regable then Load(r, v.offset, RegSize(v)) else Lea(r, v.offset)), n, r))
      else Some(Place(s, n, r))
  }

  /** The allocation leaves its register, which is given back, for another. */
  function Moved(s: Alloc, n: string, r: Reg): Alloc
    requires n in s.vars
  {
    var v := s.vars[n];
    Place(s.(used := s.used - {v.reg}, lru := Without(s.lru, v.reg), regs := s.regs - {v.reg}), n, r)
  }

  function MarkInMem(s: Alloc, n: string): Alloc
    requires n in s.vars
  {
    s.(vars := s.vars[n := s.vars[n].(inmem := true)])
  }

  /** A location that the value of an allocation can be read from or written to. */
  function Location(s: Alloc, n: string, preferRegister: bool): Option<(Alloc, Operand)>
    requires n in s.vars
  {
    var v := s.vars[n];
    if v.inreg then Some((Touch(s, v.reg), InReg(v.reg)))
    else if !v.regable || preferRegister then
      var got := ToRegister(s, n);
      if got.None? then None else Some((got.value.0, InReg(got.value.1)))
    else Some((MarkInMem(s, n), InMem(v.offset, RegSize(v))))
  }

  /** The slot of an allocation, its value being stored there first. */
  function Indirect(s: Alloc, n: string): Alloc
    requires n in s.vars
  {
    if s.vars[n].inreg then EvictVar(s, n) else s
  }

  /** `LEA` of an allocation: its value must be in memory from here on. */
  function AddressOf(s: Alloc, n: string): Alloc
    requires n in s.vars
  {
    if s.vars[n].inreg then EvictVar(s, n) else MarkInMem(s, n)
  }

  function Volatile(s: Alloc, n: string): Alloc
    requires n in s.vars
  {
    if !s.vars[n].regable then s
    else
      var s1 := Indirect(s, n);
      s1.(vars := s1.vars[n := s1.vars[n].(volatile := true, inmem := true)])
  }

  /** Takes a register by hand. */
  function Acquire(s: Alloc, r: Reg): Option<Alloc> {
    var conflicts := ConflictsOf(r, s.used);
    if exists c <- conflicts :: c !in s.regs then None
    else
      var s1 := EvictRegs(s, conflicts);
      if IsFree(r, s1.used) then Some(Take(s1, r)) else None
  }

  // ----- stack slots -----

  function SlotIndex(free: seq<Slot>, size: int): int
    ensures -1 <= SlotIndex(free, size) < |free|
    ensures SlotIndex(free, size) >= 0 ==> free[SlotIndex(free, size)].size == size
  {
    if free == [] then -1
    else if free[0].size == size then 0
    else
      var k := SlotIndex(free[1..], size);
      if k < 0 then -1 else k + 1
  }

  /** A slot of some bytes: a freed one of exactly that size, or new space. */
  function Space(s: Alloc, size: int): (Alloc, int) {
    var k := SlotIndex(s.freeSpace, size);
    if k >= 0 then (s.(freeSpace := s.freeSpace[..k] + s.freeSpace[k + 1..]), s.freeSpace[k].offset)
    else
      var off := Uint32(s.localoff + size);
      (s.(localoff := off), Int32(-off))
  }

  function Add(s: Alloc, n: string, v: Var): Alloc { s.(vars := s.vars[n := v]) }

  function NewLocal(s: Alloc, n: string, size: int): Alloc {
    if n in s.vars then s
    else
      var (s1, off) := Space(s, Int32(size) / 8);
      Add(s1, n, Var(size, true, false, false, false, RAX, off))
  }

  function AllocBytes(s: Alloc, n: string, size: int): Alloc {
    if n in s.vars then s
    else
      var (s1, off) := Space(s, Int32(size));
      Add(s1, n, Var(size * 8, false, false, false, true, RAX, off))
  }

  /** Lets a new argument take over the register it arrives in. */
  function Bind(s: Alloc, n: string, r: Reg, off: int): Alloc {
    var s2 := Add(s, n, Var(Width(r), true, false, true, false, r, off));
    var s3 := Touch(s2.(regs := s2.regs[r := n]), r);
    if IsFree(r, s3.used) then Take(s3, r) else s3
  }

  /** An argument that arrives in a register. */
  function Arg(s: Alloc, n: string, r: Reg): Alloc {
    if n in s.vars then s
    else
      var (s1, off) := Space(s, Width(r) / 8);
      Bind(s1, n, r, off)
  }

  /** What the prologue pushes between the arguments and the frame. */
  const SAVED_SIZE: int := 6 * 8

  /** An argument that arrives on the stack. */
  function StackArg(s: Alloc, n: string, i: int): Alloc {
    if n in s.vars then s
    else
      var v := Var(64, true, false, false, true, RAX, Int32((i + 1) * 8) + SAVED_SIZE);
      Add(s.(localoff := Uint32(s.localoff + 8)), n, v)
  }

  /** Division as the source rounds it, towards zero. */
  function Quotient(x: int, d: int): int
    requires d > 0
  {
    if x >= 0 then x / d else -((-x) / d)
  }

  /** What is given back of a slot: its size in bits is first cut to 32 bits. */
  function FreedBytes(v: Var): int { Quotient(Int32(v.size), 8) }

  /** Gives up an allocation, its register and its slot. */
  function Forget(s: Alloc, n: string): Alloc {
    if n !in s.vars then s
    else
      var v := s.vars[n];
      var s1 := if v.inreg
                then s.(lru := Without(s.lru, v.reg), regs := s.regs - {v.reg}, used := s.used - {v.reg})
                else s;
      s1.(vars := s.vars - {n}, freeSpace := s.freeSpace + [Slot(FreedBytes(v), v.offset)])
  }
}
