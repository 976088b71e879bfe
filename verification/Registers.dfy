/** The general-purpose registers of x86-64 and their sub-registers (reg.go).
    A register is a hardware number together with the part of it that is named. */
module Registers {
  import opened Wrappers

  datatype View = Low8 | High8 | Word | Dword | Qword

  datatype Register = GP(num: nat, view: View)

  /** The registers that have a name: AH, CH, DH and BH are the only high bytes,
      and the low bytes of RSP and RBP are not named by the assembler. */
  predicate Named(r: Register) {
    r.num < 16 && (r.view.High8? ==> r.num < 4) && (r.view.Low8? ==> r.num != 4 && r.num != 5)
  }

  type Reg = r: Register | Named(r) witness GP(0, Qword)

  const RAX: Reg := GP(0, Qword)
  const RCX: Reg := GP(1, Qword)
  const RDX: Reg := GP(2, Qword)
  const RBX: Reg := GP(3, Qword)
  const RSP: Reg := GP(4, Qword)
  const RBP: Reg := GP(5, Qword)
  const RSI: Reg := GP(6, Qword)
  const RDI: Reg := GP(7, Qword)
  const R8: Reg := GP(8, Qword)
  const R9: Reg := GP(9, Qword)
  const R10: Reg := GP(10, Qword)
  const R11: Reg := GP(11, Qword)
  const R12: Reg := GP(12, Qword)
  const R13: Reg := GP(13, Qword)
  const R14: Reg := GP(14, Qword)
  const R15: Reg := GP(15, Qword)

  function Width(r: Reg): int {
    match r.view
    case Low8 => 8
    case High8 => 8
    case Word => 16
    case Dword => 32
    case Qword => 64
  }

  function FullReg(r: Reg): Reg { GP(r.num, Qword) }

  /** The other byte register within the same full register. */
  function Brother8(r: Reg): Option<Reg> {
    if r.num >= 4 then None
    else if r.view.Low8? then Some(GP(r.num, High8))
    else if r.view.High8? then Some(GP(r.num, Low8))
    else None
  }

  function SubRegisters8(r: Reg): Option<seq<Reg>> {
    if Width(r) == 8 then Some([r])
    else if r.num < 4 then Some([GP(r.num, Low8), GP(r.num, High8)])
    else if r.num == 4 || r.num == 5 then None
    else Some([GP(r.num, Low8)])
  }

  /** The low part of a full register of some size in bits.  R8 to R15 answer a
      size they do not have with the full register. */
  function Partial(r: Reg, size: int): Option<Reg>
    requires r.view.Qword?
  {
    if size == 8 then (if r.num == 4 || r.num == 5 then None else Some(GP(r.num, Low8)))
    else if size == 16 then Some(GP(r.num, Word))
    else if size == 32 then Some(GP(r.num, Dword))
    else if size == 64 || r.num >= 8 then Some(GP(r.num, Qword))
    else None
  }

  /** Two registers that share bits. */
  predicate Overlap(a: Reg, b: Reg) {
    a.num == b.num && (a == b || Width(a) != 8 || Width(b) != 8)
  }

  // ----- allocation order (regalloc.go) -----

  const REGS8: seq<Reg> := [
    GP(3, Low8), GP(1, Low8), GP(2, Low8), GP(0, Low8), GP(8, Low8), GP(9, Low8),
    GP(10, Low8), GP(11, Low8), GP(12, Low8), GP(13, Low8), GP(14, Low8), GP(15, Low8)]

  const FUNC_ARG_REGS: seq<Reg> := [R9, R8, RCX, RDX, RSI, RDI, RAX]

  const CALLEE_SAVED: seq<Reg> := [RBX, R12, R13, R14, R15, RBP, RSP]

  const OTHER_REGS: seq<Reg> := [R10, R11]

  const CALLER_SAVED: seq<Reg> := [RAX, RCX, RDX, RSI, RDI, R8, R9, R10, R11]

  const REGS64: seq<Reg> := OTHER_REGS + CALLEE_SAVED + FUNC_ARG_REGS

  predicate ValidSize(size: int) { size == 8 || size == 16 || size == 32 || size == 64 }
}
