/** A function under construction (function.go): its code, registers and
    allocations, from the prologue to the epilogue. */
module FunctionBody {
  import opened Registers
  import opened RegisterFile
  import opened Bytes
  import opened Machine
  import opened Allocation
  import opened AllocationInvariant
  import opened AllocationSlots
  import opened Allocator
  import opened CodePositions
  import AllocationRuns
  import Frame
  import ObjectFile

  class Function {
    const size: Instr -> nat
    const bs: Code
    const rs: RegisterBits
    const rallocs: Rallocs
    var labels: map<string, nat>
    var jumps: seq<ObjectFile.Relocation>
    var localsLocation: nat

    ghost predicate Valid()
      reads this, rallocs, rs, bs, rallocs.objects
    {
      rallocs.rs == rs && rallocs.f == bs && rallocs.Valid() && Lengths(size)
    }

    /** How many bytes have been emitted. */
    function Len(): nat
      reads bs
    {
      Extent(size, bs.instrs)
    }

    constructor (size: Instr -> nat)
      requires Lengths(size)
      ensures Valid() && fresh(rallocs) && fresh(rs) && fresh(bs) && rallocs.objects == {}
      ensures bs.instrs == [] && rallocs.before == [] && rallocs.model == Alloc({}, map[], map[], [], 0, [], [])
    {
      this.size := size;
      var code := new Code();
      var bits := new RegisterBits();
      bs, rs := code, bits;
      rallocs := new Rallocs(bits, code);
      labels, jumps, localsLocation := map[], [], 0;
    }

    /** Saves the registers of the caller and sets up an empty frame. */
    method Prologue()
      requires Valid() && bs.instrs == [] && rallocs.model == Alloc({}, map[], map[], [], 0, [], [])
      modifies this`localsLocation, rallocs`model, rallocs`before, rs, bs
      ensures Valid() && rallocs.model == AllocationRuns.Initial() && rallocs.before == Frame.Prologue(0)
      ensures localsLocation == 7
    {
      hide Represents, RegInv, NamesTied, RegsTied, Frame.Prologue;
      var _ := rallocs.Hold(RBP);
      var _ := rallocs.Hold(RSP);
      SaveRegisters();
      Frame.PrologueIs(0);
      rallocs.before := bs.instrs;
      assert {} + {RBP} + {RSP} == {RBP, RSP};
    }

    method SaveRegisters()
      modifies this`localsLocation, bs
      ensures bs.instrs == old(bs.instrs) + Frame.Prologue(0) && localsLocation == |bs.instrs| - 1
    {
      bs.Instr(Push(RBP));
      bs.Instr(Push(RBX));
      bs.Instr(Push(R12));
      bs.Instr(Push(R13));
      bs.Instr(Push(R14));
      bs.Instr(Push(R15));
      bs.Instr(Mov(RBP, RSP));
      bs.Instr(LowerSp(0));
      localsLocation := |bs.instrs| - 1;
      Frame.PrologueIs(0);
    }

    /** Patches the frame size into the prologue and restores the registers. */
    method Epilogue()
      requires Valid() && RBP in rallocs.model.used && RSP in rallocs.model.used
      requires rallocs.before == Frame.Prologue(0) && localsLocation == 7 && SlotInv(rallocs.model)
      modifies rs, bs
      ensures bs.instrs == Frame.Prologue(FrameSize(rallocs.localoff)) + rallocs.model.code + Frame.Epilogue()
    {
      hide Represents, RegInv, NamesTied, RegsTied;
      Frame.PrologueIs(0);
      rs.Release(RBP);
      rs.Release(RSP);
      var localoff := Uint32(rallocs.localoff + 0x10) / 0x10 * 0x10;
      Frame.PrologueIs(localoff);
      bs.instrs := bs.instrs[localsLocation := LowerSp(localoff)];
      ghost var patched := bs.instrs;
      bs.Instr(Mov(RSP, RBP));
      bs.Instr(Pop(R15));
      bs.Instr(Pop(R14));
      bs.Instr(Pop(R13));
      bs.Instr(Pop(R12));
      bs.Instr(Pop(RBX));
      bs.Instr(Pop(RBP));
      Frame.EpilogueIs();
      assert bs.instrs == patched + Frame.Epilogue();
      assert patched == Frame.Prologue(localoff) + rallocs.model.code;
    }

    /** An argument that arrives on the stack; `null` if the name is taken. */
    method StackArg(name: string, stacki: nat) returns (r: Ralloc?)
      requires Valid()
      modifies rallocs
      ensures Valid() && rallocs.model == Allocation.StackArg(old(rallocs.model), name, stacki)
      ensures (r == null) == (name in old(rallocs.names))
      ensures if r == null then rallocs.names == old(rallocs.names) && rallocs.objects == old(rallocs.objects) else
                fresh(r) && rallocs.names == old(rallocs.names)[name := r] && rallocs.objects == old(rallocs.objects) + {r}
    {
      hide Represents, RegInv, NamesTied, RegsTied;
      rallocs.SameKeys();
      if name in rallocs.names { return null; }
      var v := Allocation.Var(64, true, false, false, true, RAX, Int32((stacki + 1) * 8) + SAVED_SIZE);
      rallocs.localoff := Uint32(rallocs.localoff + 8);
      rallocs.model := rallocs.model.(localoff := rallocs.localoff);
      FrameKeepsRegs(old(rallocs.model), rallocs.localoff);
      AddKeepsRegs(rallocs.model, name, v);
      r := rallocs.Enter(name, v);
    }

    /** Nothing may be left in a register where control can come from anywhere;
        false if the label exists. */
    method Label(l: string) returns (ok: bool)
      requires Valid()
      modifies this`labels, rallocs`regs, rallocs`lru, rallocs`model, rs, bs, rallocs.objects
      ensures Valid() && ok == (l !in old(labels))
      ensures rallocs.model ==
              if ok then Emit(EvictAll(old(rallocs.model)), Machine.Label(l)) else EvictAll(old(rallocs.model))
      ensures labels == if ok then old(labels)[l := Len()] else old(labels)
    {
      hide Represents, RegInv, NamesTied, RegsTied, EvictAll;
      rallocs.EvictAll();
      if l in labels { return false; }
      labels := labels[l := Len()];
      ghost var code := bs.instrs;
      ExtentSnoc(size, code, Machine.Label(l));
      rallocs.Emits(Machine.Label(l));
      assert bs.instrs == code + [Machine.Label(l)];
      return true;
    }

    /** A jump or call; the last two arguments stand for what a callee leaves in
        the caller-saved registers and below the frame. */
    method Jump(instr: string, target: string, gpr: seq<seq<Byte>>, mem: int -> Byte)
      requires Valid()
      modifies this`jumps, rallocs`regs, rallocs`lru, rallocs`model, rs, bs, rallocs.objects
      ensures Valid() && Len() >= 4 && jumps == old(jumps) + [ObjectFile.Relocation(Len() - 4, target, 0)]
      ensures var s := old(rallocs.model);
              rallocs.model == if instr == "CALL" then Emit(EvictForCall(s), Call(gpr, mem, s.localoff))
                               else Emit(EvictAll(s), Machine.Jump(target))
    {
      hide Represents, RegInv, NamesTied, RegsTied, EvictAll, EvictForCall;
      if instr == "CALL" {
        rallocs.EvictForCall();
        ExtentSnoc(size, bs.instrs, Call(gpr, mem, rallocs.localoff));
        rallocs.Emits(Call(gpr, mem, rallocs.localoff));
      } else {
        rallocs.EvictAll();
        ExtentSnoc(size, bs.instrs, Machine.Jump(target));
        rallocs.Emits(Machine.Jump(target));
      }
      jumps := jumps + [ObjectFile.Relocation(Len() - 4, target, 0)];
    }
  }

  /** Patching the frame size in place moves no label and no jump. */
  lemma PatchKeepsPositions(size: Instr -> nat, frame: int, code: seq<Instr>)
    requires Lengths(size)
    ensures Extent(size, Frame.Prologue(frame) + code) == Extent(size, Frame.Prologue(0) + code)
  {
    Frame.PrologueIs(frame);
    Frame.PrologueIs(0);
    var saves := [Push(RBP), Push(RBX), Push(R12), Push(R13), Push(R14), Push(R15), Mov(RBP, RSP)];
    assert Frame.Prologue(frame) == saves + [LowerSp(frame)] && Frame.Prologue(0) == saves + [LowerSp(0)];
    ExtentSnoc(size, saves, LowerSp(frame));
    ExtentSnoc(size, saves, LowerSp(0));
    ExtentAppend(size, Frame.Prologue(frame), code);
    ExtentAppend(size, Frame.Prologue(0), code);
  }

  lemma FrameKeepsRegs(s: Alloc, localoff: int)
    requires RegInv(s)
    ensures RegInv(s.(localoff := localoff))
  {
  }
}
