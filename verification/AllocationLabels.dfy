/** What is found at a label of a value that was brought there in its slot: by its
    slot always, by a register exactly if the allocator expects it in memory. */
module AllocationLabels {
  import opened Wrappers
  import opened Registers
  import opened RegisterFile
  import opened Bytes
  import opened Machine
  import opened Allocation
  import opened AllocationInvariant
  import opened AllocationSlots
  import opened AllocationRefinement
  import opened AllocationRuns
  import opened AllocationJumps

  /** A machine that may arrive where c does, with other registers. */
  ghost predicate Arrival(c: State, d: State) { d.mem == c.mem && Base(d) == Base(c) }

  /** The register that `Register` answers with holds the value, whatever the
      registers held on arrival. */
  ghost predicate RegisterFinds(s: Alloc, n: string, c: State, val: seq<Byte>)
    requires n in s.vars && ToRegister(Bare(s), n).Some?
  {
    var (t, r) := ToRegister(Bare(s), n).value;
    forall d: State :: Arrival(c, d) ==> ReadReg(Exec(t.code, d), r) == val
  }

  /** And so does the register that `UseRegister` is asked for. */
  ghost predicate UseRegisterFinds(s: Alloc, n: string, r: Reg, c: State, val: seq<Byte>)
    requires n in s.vars && UseRegister(Bare(s), n, r).Some?
  {
    forall d: State :: Arrival(c, d) ==> ReadReg(Exec(UseRegister(Bare(s), n, r).value.code, d), r) == val
  }

  /** The places that `Location` and `Indirect` answer with hold the value, without
      any code. */
  ghost predicate SlotFinds(s: Alloc, n: string, c: State, val: seq<Byte>)
    requires n in s.vars
  {
    var got, slot := Location(Bare(s), n, false), s.vars[n].offset;
    && got.Some? && got.value.0.code == [] && got.value.1.InMem? && got.value.1.off == slot
    && Indirect(Bare(s), n).code == [] && ReadMem(c, Base(c) + slot, |val|) == val
  }

  /** An allocation of a state as it is at a label, its value being in its slot. */
  ghost predicate Brought(s: Alloc, n: string, c: State, val: seq<Byte>) {
    && RegInv(s) && HandInv(s) && s.regs == map[] && n in s.vars && s.vars[n].regable
    && |val| == SlotBytes(s.vars[n]) && ReadMem(c, Base(c) + s.vars[n].offset, |val|) == val
  }

  lemma NothingTracked(s: Alloc)
    requires RegInv(s) && s.regs == map[]
    ensures s.lru == [] && forall n :: n in s.vars ==> !s.vars[n].inreg
  {
    HasFirst(s.lru);
  }

  lemma HasFirst(rs: seq<Reg>)
    ensures rs != [] ==> exists r: Reg :: r in rs
  {
    if rs != [] { assert rs[0] in rs; }
  }

  lemma ExecTwo(i: Instr, j: Instr, d: State)
    ensures Exec([i], d) == Step(i, d) && Exec([i, j], d) == Step(j, Step(i, d))
  {
    assert [i][..0] == [] && [i, j][..1] == [i];
  }

  /** The load that fits a register brings the value there. */
  lemma LoadFinds(v: Var, r: Reg, c: State, d: State, val: seq<Byte>)
    requires Arrival(c, d) && !v.inreg && v.regable && Width(r) == v.size && |val| == SlotBytes(v) && !Overlap(FullReg(r), RBP)
    requires ReadMem(c, Base(c) + v.offset, |val|) == val
    ensures ReadReg(Exec([Load(r, v.offset, RegSize(v))], d), r) == val
    ensures Width(r) < 64 ==> ReadReg(Exec([Zero(FullReg(r)), Load(r, v.offset, RegSize(v))], d), r) == val
  {
    hide ReadReg, WriteReg, ReadMem, Base;
    var zeros := [0, 0, 0, 0, 0, 0, 0, 0];
    var zero, load := Zero(FullReg(r)), Load(r, v.offset, RegSize(v));
    ExecTwo(load, load, d);
    ExecTwo(zero, load, d);
    WriteKeepsOthers(d, FullReg(r), zeros, RBP);
    WriteKeepsMemory(d, FullReg(r), zeros);
    assert Base(Step(zero, d)) == Base(d) by { SameBase(d, Step(zero, d)); }
    SameMemory(c, d, Base(c) + v.offset, |val|);
    SameMemory(c, Step(zero, d), Base(c) + v.offset, |val|);
    ReadWritten(d, r, val);
    ReadWritten(Step(zero, d), r, val);
  }

  lemma SameBase(c: State, d: State)
    requires ReadReg(c, RBP) == ReadReg(d, RBP)
    ensures Base(c) == Base(d)
  {
  }

  /** Any register beside RBP may have held something else. */
  lemma OtherArrival(r: Reg, c: State, val: seq<Byte>) returns (d: State)
    requires !Overlap(r, RBP) && |val| == Width(r) / 8
    ensures Arrival(c, d) && ReadReg(d, r) != val
  {
    hide ReadReg, WriteReg;
    var other := [if val[0] == 0 then 1 else 0] + val[1..];
    d := WriteReg(c, r, other);
    ReadWritten(c, r, other);
    WriteKeepsOthers(c, r, other, RBP);
    WriteKeepsMemory(c, r, other);
    SameBase(c, d);
  }

  lemma SlotIsFound(s: Alloc, n: string, c: State, val: seq<Byte>)
    requires Brought(s, n, c, val)
    ensures SlotFinds(s, n, c, val)
  {
    NothingTracked(s);
  }

  lemma RegisterIsFree(s: Alloc, n: string)
    requires RegInv(s) && HandInv(s) && s.regs == map[] && n in s.vars && s.vars[n].regable && ToRegister(Bare(s), n).Some?
    ensures var (t, r) := ToRegister(Bare(s), n).value;
            var v := s.vars[n];
            && Width(r) == v.size && !Overlap(FullReg(r), RBP) && !Overlap(r, RBP)
            && t.code == if !v.inmem then [] else if Width(r) < 64 then [Zero(FullReg(r)), Load(r, v.offset, RegSize(v))]
                         else [Load(r, v.offset, RegSize(v))]
  {
    NothingTracked(s);
    var v := s.vars[n];
    ChoiceIsFree(v.size, s.used);
    var r := ToRegister(Bare(s), n).value.1;
    assert IsFree(r, s.used) && RBP in s.used;
    assert Overlap(RBP, r) <==> r.num == RBP.num;
    var zero, load := Zero(FullReg(r)), Load(r, v.offset, RegSize(v));
    assert [] + [zero] + [load] == [zero, load] && [] + [load] == [load];
  }

  /** Through a register a value is found exactly if it is expected in memory. */
  lemma RegisterFindsExactly(s: Alloc, n: string, c: State, val: seq<Byte>)
    requires Brought(s, n, c, val) && ToRegister(Bare(s), n).Some?
    ensures RegisterFinds(s, n, c, val) <==> s.vars[n].inmem
  {
    hide ReadReg, ReadMem, Base, Exec, RegInv, HandInv, Overlap, ToRegister;
    NothingTracked(s);
    RegisterIsFree(s, n);
    var (t, r) := ToRegister(Bare(s), n).value;
    if s.vars[n].inmem {
      forall d: State | Arrival(c, d) ensures ReadReg(Exec(t.code, d), r) == val {
        LoadFinds(s.vars[n], r, c, d, val);
      }
    } else {
      var d := OtherArrival(r, c, val);
      assert Exec([], d) == d by { ExecNone(d); }
    }
  }

  lemma ExecNone(d: State)
    ensures Exec([], d) == d
  {
  }

  lemma AskedRegister(s: Alloc, n: string, r: Reg)
    requires RegInv(s) && HandInv(s) && s.regs == map[] && Usable(s, n, r) && r != RBP && s.vars[n].regable
    requires UseRegister(Bare(s), n, r).Some?
    ensures var v, t := s.vars[n], UseRegister(Bare(s), n, r).value;
            && Width(r) == v.size && !Overlap(FullReg(r), RBP) && !Overlap(r, RBP)
            && t.code == if v.inmem then [Load(r, v.offset, RegSize(v))] else []
  {
    NothingTracked(s);
    NoneToEvict(Bare(s), ConflictsOf(r, s.used));
    assert RBP in s.used;
    assert Overlap(RBP, r) <==> r.num == RBP.num;
    var load := Load(r, s.vars[n].offset, RegSize(s.vars[n]));
    assert [] + [load] == [load];
  }

  lemma {:induction false} NoneToEvict(s: Alloc, rs: seq<Reg>)
    requires s.regs == map[]
    ensures EvictRegs(s, rs) == s
  {
    if rs != [] { NoneToEvict(s, rs[1..]); }
  }

  lemma UseRegisterFindsExactly(s: Alloc, n: string, r: Reg, c: State, val: seq<Byte>)
    requires Brought(s, n, c, val) && Usable(s, n, r) && r != RBP && UseRegister(Bare(s), n, r).Some?
    ensures UseRegisterFinds(s, n, r, c, val) <==> s.vars[n].inmem
  {
    hide ReadReg, ReadMem, Base, Exec, RegInv, HandInv, Overlap, UseRegister, Usable;
    NothingTracked(s);
    AskedRegister(s, n, r);
    if s.vars[n].inmem {
      forall d: State | Arrival(c, d) ensures ReadReg(Exec(UseRegister(Bare(s), n, r).value.code, d), r) == val {
        LoadFinds(s.vars[n], r, c, d, val);
      }
    } else {
      var d := OtherArrival(r, c, val);
      assert Exec([], d) == d by { ExecNone(d); }
    }
  }

  // ----- at a jump -----

  /** A jump that is taken to a label, with a value for an allocation that the label
      knows in the same slot. */
  ghost predicate Brings(b: Body, x: Config, again: Op, y: Config, n: string) {
    && Compiled(b) && (forall i :: 0 <= i < |b.states| ==> Inv(b.states[i]))
    && Moves(b, x, again, y) && again.JumpOp? && 0 < y.at && b.ops[y.at - 1] == LabelOp(again.target)
    && Implements(b.states[x.at].vars, x.cpu, x.st)
    && n in x.st && n in b.states[x.at + 1].vars && n in b.states[y.at].vars
    && SameSlot(b.states[x.at + 1].vars[n], b.states[y.at].vars[n]) && b.states[y.at].vars[n].regable
  }

  lemma ValueIsBrought(b: Body, x: Config, again: Op, y: Config, n: string)
    requires Brings(b, x, again, y, n)
    ensures Brought(b.states[y.at], n, y.cpu, x.st[n])
  {
    hide Implements, Legal, Apart, Tracks, Permutes, SlotInv, HandInv, EvictRegs, Exec, VarOk, Lands;
    VisitGood(b.states[x.at], again, x.cpu, x.st);
    EvictAllEmpties(b.states[x.at]);
    EvictAllEmpties(b.states[y.at - 1]);
    InSlot(b.states[x.at + 1].vars, y.cpu, x.st, n);
  }

  lemma InSlot(vars: map<string, Var>, c: State, st: Store, n: string)
    requires Implements(vars, c, st) && n in st && n in vars && !vars[n].inreg
    ensures |st[n]| == SlotBytes(vars[n]) && ReadMem(c, Base(c) + vars[n].offset, |st[n]|) == st[n]
  {
  }

  /** At the label the slot finds the value, and a register finds it exactly if the
      allocator there expects it in memory. */
  lemma JumpKeepsExactly(b: Body, x: Config, again: Op, y: Config, n: string)
    requires Brings(b, x, again, y, n)
    ensures var s, val := b.states[y.at], x.st[n];
            && SlotFinds(s, n, y.cpu, val)
            && (ToRegister(Bare(s), n).Some? ==> (RegisterFinds(s, n, y.cpu, val) <==> s.vars[n].inmem))
            && (forall r: Reg :: Usable(s, n, r) && r != RBP && UseRegister(Bare(s), n, r).Some? ==>
                  (UseRegisterFinds(s, n, r, y.cpu, val) <==> s.vars[n].inmem))
  {
    var s, val := b.states[y.at], x.st[n];
    ValueIsBrought(b, x, again, y, n);
    hide *;
    SlotIsFound(s, n, y.cpu, val);
    if ToRegister(Bare(s), n).Some? { RegisterFindsExactly(s, n, y.cpu, val); }
    forall r: Reg | Usable(s, n, r) && r != RBP && UseRegister(Bare(s), n, r).Some?
      ensures UseRegisterFinds(s, n, r, y.cpu, val) <==> s.vars[n].inmem
    {
      UseRegisterFindsExactly(s, n, r, y.cpu, val);
    }
  }

  // ----- a value that comes late -----

  function Late(inmem: bool, code: seq<Instr>): Alloc {
    Alloc({RBP, RSP}, map[], map["x" := Var(64, true, false, false, inmem, RAX, -8)], [], 8, [], code)
  }

  /** What the callee of `LateLoop` leaves in the registers. */
  function Leftovers(other: seq<Byte>): seq<seq<Byte>> { seq(16, _ => other) }

  /** `var x  loop { ...  x = val  f() }`: the body gives x its first value. */
  ghost function LateLoop(val: seq<Byte>, other: seq<Byte>, mem: int -> Byte): Body {
    var write, call, jump := PutMem(-8, val), Call(Leftovers(other), mem, 8), Jump("l");
    Body([NewLocalOp("x", 64), LabelOp("l"), Write("x", false, val), CallOut(Leftovers(other), mem), JumpOp("l")],
         [Initial(), Late(false, []), Late(false, [Label("l")]), Late(true, [Label("l"), write]),
          Late(true, [Label("l"), write, call]), Late(true, [Label("l"), write, call, jump])])
  }

  function LatePath(m: State, val: seq<Byte>, other: seq<Byte>, mem: int -> Byte): seq<Config> {
    var c := WriteMem(m, Base(m) - 8, val);
    var d := Step(Call(Leftovers(other), mem, 8), c);
    var st: Store := map["x" := val];
    [Config(0, m, map[]), Config(1, m, map[]), Config(2, m, map[]), Config(3, c, st), Config(4, d, st), Config(2, d, map[])]
  }

  lemma LateDeclares(val: seq<Byte>, other: seq<Byte>, mem: int -> Byte)
    ensures var b := LateLoop(val, other, mem); Apply(b.states[0], b.ops[0]) == Some(b.states[1])
  {
    assert Space(Initial(), Int32(64) / 8) == (Initial().(localoff := 8), -8);
    assert NewLocal(Initial(), "x", 64) == Late(false, []);
  }

  lemma LateWrites(val: seq<Byte>, other: seq<Byte>, mem: int -> Byte)
    requires |val| == 8
    ensures var b := LateLoop(val, other, mem); Apply(b.states[2], b.ops[2]) == Some(b.states[3])
  {
    var b := LateLoop(val, other, mem);
    assert MarkInMem(b.states[2], "x").vars == b.states[3].vars;
    assert Location(b.states[2], "x", false) == Some((Late(true, [Label("l")]), InMem(-8, 64)));
    assert [Label("l")] + [PutMem(-8, val)] == [Label("l"), PutMem(-8, val)];
  }

  lemma {:induction false} NoneToEvictEach(s: Alloc, rs: seq<Reg>)
    requires s.regs == map[]
    ensures EvictEach(s, rs) == s
  {
    if rs != [] {
      NoneToEvict(s, ConflictsOf(rs[0], s.used));
      NoneToEvictEach(s, rs[1..]);
    }
  }

  lemma LateLeaves(val: seq<Byte>, other: seq<Byte>, mem: int -> Byte)
    ensures var b := LateLoop(val, other, mem);
            && Apply(b.states[1], b.ops[1]) == Some(b.states[2]) && Apply(b.states[3], b.ops[3]) == Some(b.states[4])
            && Apply(b.states[4], b.ops[4]) == Some(b.states[5])
  {
    hide EvictRegs, EvictEach;
    var b := LateLoop(val, other, mem);
    NoneToEvict(b.states[1], []);
    NoneToEvict(b.states[4], []);
    NoneToEvictEach(b.states[3], CALLER_SAVED);
    var write, call, jump := PutMem(-8, val), Call(Leftovers(other), mem, 8), Jump("l");
    assert [] + [Label("l")] == [Label("l")];
    assert [Label("l"), write] + [call] == [Label("l"), write, call];
    assert [Label("l"), write, call] + [jump] == [Label("l"), write, call, jump];
  }

  lemma LateCompiles(val: seq<Byte>, other: seq<Byte>, mem: int -> Byte)
    requires |val| == 8
    ensures Compiled(LateLoop(val, other, mem))
  {
    hide Apply;
    LateDeclares(val, other, mem);
    LateWrites(val, other, mem);
    LateLeaves(val, other, mem);
  }

  lemma LatePieces(val: seq<Byte>, other: seq<Byte>, mem: int -> Byte)
    requires |val| == 8
    ensures Compiled(LateLoop(val, other, mem))
    ensures var b := LateLoop(val, other, mem);
            && (forall i :: 0 <= i < 5 ==> Apply(Bare(b.states[i]), b.ops[i]).Some?)
            && Piece(b.states[0], b.ops[0]) == [] && Piece(b.states[1], b.ops[1]) == [Label("l")]
            && Piece(b.states[2], b.ops[2]) == [PutMem(-8, val)]
            && Piece(b.states[3], b.ops[3]) == [Call(Leftovers(other), mem, 8)] && Piece(b.states[4], b.ops[4]) == [Jump("l")]
  {
    hide Apply, Piece;
    LateCompiles(val, other, mem);
    var b := LateLoop(val, other, mem);
    forall i | 0 <= i < 5
      ensures Apply(Bare(b.states[i]), b.ops[i]).Some?
      ensures b.states[i + 1].code == b.states[i].code + Piece(b.states[i], b.ops[i])
    {
      assert Apply(b.states[i], b.ops[i]) == Some(b.states[i + 1]);
      PieceIsEmitted(b.states[i], b.ops[i]);
    }
    assert Piece(b.states[0], b.ops[0]) == b.states[1].code[0..];
    assert Piece(b.states[1], b.ops[1]) == b.states[2].code[0..];
    assert Piece(b.states[2], b.ops[2]) == b.states[3].code[1..];
    assert Piece(b.states[3], b.ops[3]) == b.states[4].code[2..];
    assert Piece(b.states[4], b.ops[4]) == b.states[5].code[3..];
  }

  lemma LateMoves(m: State, val: seq<Byte>, other: seq<Byte>, mem: int -> Byte, i: nat)
    requires |val| == 8 && i < 5
    ensures Compiled(LateLoop(val, other, mem))
    ensures var b, path := LateLoop(val, other, mem), LatePath(m, val, other, mem);
            Moves(b, path[i], b.ops[i], path[i + 1])
  {
    hide Base, Apply, Piece, IsFree, ReadMem, WriteMem, Legal, Exec;
    LatePieces(val, other, mem);
    var b, path := LateLoop(val, other, mem), LatePath(m, val, other, mem);
    ExecOne(Piece(b.states[i], b.ops[i]), path[i].cpu);
  }

  lemma ExecOne(code: seq<Instr>, c: State)
    requires |code| <= 1
    ensures Exec(code, c) == if code == [] then c else Step(code[0], c)
  {
  }

  lemma LateRegister(code: seq<Instr>)
    ensures ToRegister(Late(false, code), "x").Some?
    ensures ToRegister(Late(false, code), "x").value.1 == R10 && ToRegister(Late(false, code), "x").value.0.code == code
  {
    hide Without;
    assert IsFree(R10, {RBP, RSP});
    assert REGS64[0] == R10;
  }

  /** On that path control comes back to the label with the value in x's slot; the
      register that `Register` then answers with has what the callee left there. */
  lemma LateValueIsLost(m: State, val: seq<Byte>, other: seq<Byte>, mem: int -> Byte)
    requires |val| == |other| == 8 && val != other
    ensures var b, path := LateLoop(val, other, mem), LatePath(m, val, other, mem);
            && Compiled(b) && b.states[0] == Initial() && Path(b, path, b.ops) && path[0] == Config(0, m, map[])
            && path[5].at == 2 && SlotFinds(b.states[2], "x", path[5].cpu, val)
            && ToRegister(Bare(b.states[2]), "x").Some?
            && var (t, r) := ToRegister(Bare(b.states[2]), "x").value;
               ReadReg(Exec(t.code, path[5].cpu), r) == other
  {
    var b, path := LateLoop(val, other, mem), LatePath(m, val, other, mem);
    LateArrives(m, val, other, mem);
    LateRegister([]);
    hide Base, ToRegister, ReadMem, WriteMem, Moves, Compiled, ReadReg;
    LateCompiles(val, other, mem);
    forall i | 0 <= i < 5 ensures Moves(b, path[i], b.ops[i], path[i + 1]) { LateMoves(m, val, other, mem, i); }
    ExecNone(path[5].cpu);
  }

  lemma LateArrives(m: State, val: seq<Byte>, other: seq<Byte>, mem: int -> Byte)
    requires |val| == |other| == 8
    ensures var c := LatePath(m, val, other, mem)[5].cpu;
            ReadReg(c, R10) == other && ReadMem(c, Base(c) - 8, 8) == val
  {
    var i, c := Call(Leftovers(other), mem, 8), WriteMem(m, Base(m) - 8, val);
    CallKeepsSlot(c, i, -8, 8);
    CallKeepsRegister(c, i, RBP);
    SameRegisters(m, c, RBP);
    ReadMemWritten(m, Base(m) - 8, val);
    assert IsState(Cpu(Leftovers(other), mem));
  }
}
