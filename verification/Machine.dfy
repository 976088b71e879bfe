/** A machine that executes the instructions the register allocator and the
    function prologue emit: sixteen 64-bit registers, byte-addressed memory, operands relative to RBP. */
module Machine {
  import opened Bytes
  import opened Registers

  datatype Cpu = Cpu(gpr: seq<seq<Byte>>, mem: int -> Byte)

  predicate IsState(m: Cpu) {
    |m.gpr| == 16 && forall i :: 0 <= i < 16 ==> |m.gpr[i]| == 8
  }

  type State = m: Cpu | IsState(m) ghost witness
    Cpu(seq(16, _ => [0, 0, 0, 0, 0, 0, 0, 0]), _ => 0)

  /** What the allocator emits, and what its clients do between its calls:
      `Put`/`PutMem` write a value to a location it handed out, `Call` runs a
      callee that may leave anything in the caller-saved registers and in
      memory below the frame. */
  datatype Instr =
    | Mov(dst: Reg, src: Reg)
    | Load(dst: Reg, off: int, size: int)
    | Store(off: int, size: int, src: Reg)
    | Lea(dst: Reg, off: int)
    | Zero(full: Reg)
    | Put(dst: Reg, val: seq<Byte>)
    | PutMem(off: int, val: seq<Byte>)
    | Call(gpr: seq<seq<Byte>>, mem: int -> Byte, frame: int)
    | Push(src: Reg)
    | Pop(dst: Reg)
    | LowerSp(n: int)
    | Jump(target: string)
    | Label(target: string)

  function ReadReg(m: State, r: Reg): (v: seq<Byte>)
    ensures |v| == Width(r) / 8
  {
    match r.view
    case Low8 => m.gpr[r.num][..1]
    case High8 => m.gpr[r.num][1..2]
    case Word => m.gpr[r.num][..2]
    case Dword => m.gpr[r.num][..4]
    case Qword => m.gpr[r.num]
  }

  /** 8- and 16-bit writes keep the rest of the register, 32-bit ones clear the
      upper half. */
  function WriteReg(m: State, r: Reg, v: seq<Byte>): State
    requires |v| == Width(r) / 8
  {
    var current := m.gpr[r.num];
    var updated :=
      match r.view
      case Low8 => v + current[1..]
      case High8 => current[..1] + v + current[2..]
      case Word => v + current[2..]
      case Dword => v + [0, 0, 0, 0]
      case Qword => v;
    m.(gpr := m.gpr[r.num := updated])
  }

  lemma ReadWritten(m: State, r: Reg, v: seq<Byte>)
    requires |v| == Width(r) / 8
    ensures ReadReg(WriteReg(m, r, v), r) == v
  {
  }

  lemma WriteKeepsOthers(m: State, r: Reg, v: seq<Byte>, other: Reg)
    requires |v| == Width(r) / 8 && !Overlap(r, other)
    ensures ReadReg(WriteReg(m, r, v), other) == ReadReg(m, other)
  {
  }

  lemma WriteKeepsMemory(m: State, r: Reg, v: seq<Byte>)
    requires |v| == Width(r) / 8
    ensures WriteReg(m, r, v).mem == m.mem
  {
  }

  function Base(m: State): int { Value(ReadReg(m, RBP)) }

  function ReadMem(m: State, addr: int, n: nat): (v: seq<Byte>)
    ensures |v| == n
  {
    seq(n, i requires 0 <= i < n => m.mem(addr + i))
  }

  function WriteMem(m: State, addr: int, v: seq<Byte>): State {
    m.(mem := a => if addr <= a < addr + |v| then v[a - addr] else m.mem(a))
  }

  lemma ReadMemWritten(m: State, addr: int, v: seq<Byte>)
    ensures ReadMem(WriteMem(m, addr, v), addr, |v|) == v
  {
  }

  /** The bytes of an address. */
  function Address(a: int): seq<Byte> { LittleEndian(a, 8) }

  /** The stack pointer. */
  function Sp(m: State): int { Value(ReadReg(m, RSP)) }

  predicate CallerSaved(num: nat) { num < 12 && num != 3 && num != 4 && num != 5 }

  /** One instruction.  Malformed ones (operand widths that differ) do nothing;
      the allocator never emits them. */
  function Step(i: Instr, m: State): State {
    match i
    case Mov(dst, src) => if Width(dst) == Width(src) then WriteReg(m, dst, ReadReg(m, src)) else m
    case Load(dst, off, size) =>
      if Width(dst) == size then WriteReg(m, dst, ReadMem(m, Base(m) + off, size / 8)) else m
    case Store(off, size, src) =>
      if Width(src) == size then WriteMem(m, Base(m) + off, ReadReg(m, src)) else m
    case Lea(dst, off) => if Width(dst) == 64 then WriteReg(m, dst, Address(Base(m) + off)) else m
    case Zero(full) => if Width(full) == 64 then WriteReg(m, full, [0, 0, 0, 0, 0, 0, 0, 0]) else m
    case Put(dst, val) => if |val| == Width(dst) / 8 then WriteReg(m, dst, val) else m
    case PutMem(off, val) => WriteMem(m, Base(m) + off, val)
    case Call(gpr, mem, frame) =>
      if IsState(Cpu(gpr, mem)) then
        Cpu(seq(16, i requires 0 <= i < 16 => if CallerSaved(i) then gpr[i] else m.gpr[i]),
            a => if a < Base(m) - frame then mem(a) else m.mem(a))
      else m
    case Push(src) =>
      if Width(src) == 64 then WriteReg(WriteMem(m, Sp(m) - 8, ReadReg(m, src)), RSP, Address(Sp(m) - 8)) else m
    case Pop(dst) =>
      if Width(dst) == 64 then WriteReg(WriteReg(m, RSP, Address(Sp(m) + 8)), dst, ReadMem(m, Sp(m), 8)) else m
    case LowerSp(n) => WriteReg(m, RSP, Address(Sp(m) - n))
    case Jump(_) => m
    case Label(_) => m
  }

  function Exec(code: seq<Instr>, m: State): State {
    if code == [] then m else Step(code[|code| - 1], Exec(code[..|code| - 1], m))
  }

  lemma {:induction false} ExecAppend(a: seq<Instr>, b: seq<Instr>, m: State)
    ensures Exec(a + b, m) == Exec(b, Exec(a, m))
  {
    if b == [] {
      assert a + b == a;
    } else {
      var rest := b[..|b| - 1];
      ExecAppend(a, rest, m);
      assert (a + b)[..|a + b| - 1] == a + rest;
    }
  }

  lemma ExecSnoc(code: seq<Instr>, i: Instr, m: State)
    ensures Exec(code + [i], m) == Step(i, Exec(code, m))
  {
  }
}
