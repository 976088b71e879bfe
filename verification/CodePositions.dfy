/** Byte positions in a function's code: where its labels and jumps are, and that a
    patched jump lands where the allocator's runs go on. */
module CodePositions {
  import opened Wrappers
  import opened Bytes
  import opened Machine
  import opened Allocation
  import opened AllocationInvariant
  import opened AllocationRefinement
  import opened AllocationRuns
  import opened AllocationJumps
  import opened ObjectFile
  import Relocating
  import Resolving

  /** Lengths of the instructions' encodings: a label has no bytes, a jump or call
      ends in a displacement of four, and that of the frame is patched in place. */
  ghost predicate Lengths(size: Instr -> nat) {
    && (forall l :: size(Label(l)) == 0) && (forall l :: size(Jump(l)) >= 4)
    && (forall gpr, mem, frame :: size(Call(gpr, mem, frame)) >= 4) && (forall n :: size(LowerSp(n)) == size(LowerSp(0)))
  }

  /** How many bytes the code has. */
  function Extent(size: Instr -> nat, code: seq<Instr>): nat {
    if code == [] then 0 else Extent(size, code[..|code| - 1]) + size(code[|code| - 1])
  }

  lemma {:induction false} ExtentAppend(size: Instr -> nat, a: seq<Instr>, b: seq<Instr>)
    ensures Extent(size, a + b) == Extent(size, a) + Extent(size, b)
  {
    if b == [] {
      assert a + b == a;
    } else {
      assert (a + b)[..|a + b| - 1] == a + b[..|b| - 1];
      ExtentAppend(size, a, b[..|b| - 1]);
    }
  }

  lemma ExtentSnoc(size: Instr -> nat, code: seq<Instr>, i: Instr)
    ensures Extent(size, code + [i]) == Extent(size, code) + size(i)
  {
    assert (code + [i])[..|code|] == code;
  }

  /** Where the code of the k-th operation begins, behind the prologue. */
  function Position(size: Instr -> nat, before: seq<Instr>, b: Body, k: nat): nat
    requires k < |b.states|
  {
    Extent(size, before + b.states[k].code)
  }

  /** The labels and jumps that the first k operations record. */
  function Labels(size: Instr -> nat, before: seq<Instr>, b: Body, k: nat): map<string, int>
    requires k <= |b.ops| && |b.states| == |b.ops| + 1
  {
    if k == 0 then map[]
    else
      var labels := Labels(size, before, b, k - 1);
      match b.ops[k - 1]
      case LabelOp(l) => labels[l := Position(size, before, b, k)]
      case _ => labels
  }

  function Jumps(size: Instr -> nat, before: seq<Instr>, b: Body, k: nat): seq<Relocation>
    requires k <= |b.ops| && |b.states| == |b.ops| + 1
  {
    if k == 0 then []
    else
      var jumps, end := Jumps(size, before, b, k - 1), Position(size, before, b, k);
      match b.ops[k - 1]
      case JumpOp(l) => jumps + [Relocation(if end >= 4 then end - 4 else 0, l, 0)]
      case _ => jumps
  }

  /** The source refuses a label that exists. */
  ghost predicate LabelsOnce(b: Body) {
    forall i, j :: 0 <= i < j < |b.ops| && b.ops[i].LabelOp? && b.ops[j].LabelOp? ==> b.ops[i] != b.ops[j]
  }

  /** An operation only appends. */
  lemma Appends(size: Instr -> nat, before: seq<Instr>, b: Body, k: nat)
    requires Compiled(b) && k < |b.ops|
    ensures Position(size, before, b, k) <= Position(size, before, b, k + 1)
    ensures Lengths(size) && b.ops[k].JumpOp? ==> Position(size, before, b, k) + 4 <= Position(size, before, b, k + 1)
  {
    hide Apply, Legal, Piece;
    var s, t, op := b.states[k], b.states[k + 1], b.ops[k];
    assert Apply(s, op) == Some(t);
    PieceIsEmitted(s, op);
    assert before + t.code == before + s.code + Piece(s, op);
    ExtentAppend(size, before + s.code, Piece(s, op));
    if op.JumpOp? {
      JumpEndsPiece(s, op);
      var stores := Piece(s, op)[..|Piece(s, op)| - 1];
      assert Piece(s, op) == stores + [Jump(op.target)];
      ExtentSnoc(size, stores, Jump(op.target));
    }
  }

  lemma JumpEndsPiece(s: Alloc, op: Op)
    requires op.JumpOp?
    ensures Apply(Bare(s), op).Some? && Piece(s, op) != [] && Piece(s, op)[|Piece(s, op)| - 1] == Jump(op.target)
  {
    hide EvictAll;
  }

  /** What `Resolve` asks of the jumps: their slots lie in the code, and apart. */
  lemma {:induction false} SlotsApart(size: Instr -> nat, before: seq<Instr>, b: Body, k: nat)
    requires Compiled(b) && |b.states| == |b.ops| + 1 && Lengths(size) && k <= |b.ops|
    ensures Resolving.JumpSlots(Jumps(size, before, b, k), Position(size, before, b, k))
  {
    hide Compiled, Lengths, Position;
    if k > 0 {
      hide Resolving.JumpSlots;
      SlotsApart(size, before, b, k - 1);
      Appends(size, before, b, k - 1);
      var jumps, end := Jumps(size, before, b, k - 1), Position(size, before, b, k - 1);
      if b.ops[k - 1].JumpOp? {
        OneMoreSlot(jumps, end, Position(size, before, b, k), b.ops[k - 1].target);
      } else {
        MoreRoom(jumps, end, Position(size, before, b, k));
      }
    }
  }

  lemma MoreRoom(jumps: seq<Relocation>, end: nat, more: nat)
    requires Resolving.JumpSlots(jumps, end) && end <= more
    ensures Resolving.JumpSlots(jumps, more)
  {
  }

  lemma OneMoreSlot(jumps: seq<Relocation>, end: nat, more: nat, l: string)
    requires Resolving.JumpSlots(jumps, end) && end + 4 <= more
    ensures Resolving.JumpSlots(jumps + [Relocation(more - 4, l, 0)], more)
  {
  }

  lemma {:induction false} LabelRecorded(size: Instr -> nat, before: seq<Instr>, b: Body, k: nat, j: nat)
    requires |b.states| == |b.ops| + 1 && LabelsOnce(b) && j < k <= |b.ops| && b.ops[j].LabelOp?
    ensures var l := b.ops[j].target;
            l in Labels(size, before, b, k) && Labels(size, before, b, k)[l] == Position(size, before, b, j + 1)
  {
    if j < k - 1 {
      LabelRecorded(size, before, b, k - 1, j);
      assert b.ops[k - 1].LabelOp? ==> b.ops[j] != b.ops[k - 1];
    }
  }

  lemma {:induction false} JumpRecorded(size: Instr -> nat, before: seq<Instr>, b: Body, k: nat, i: nat) returns (q: nat)
    requires Compiled(b) && |b.states| == |b.ops| + 1 && Lengths(size) && i < k <= |b.ops| && b.ops[i].JumpOp?
    ensures q < |Jumps(size, before, b, k)| && Position(size, before, b, i + 1) >= 4
    ensures Jumps(size, before, b, k)[q] == Relocation(Position(size, before, b, i + 1) - 4, b.ops[i].target, 0)
  {
    hide Compiled, Position, Lengths;
    if i < k - 1 {
      q := JumpRecorded(size, before, b, k - 1, i);
    } else {
      Appends(size, before, b, i);
      q := |Jumps(size, before, b, k)| - 1;
    }
  }

  /** In the resolved bytes of a function, a jump that control takes leads from its end
      to the first byte of the code that is run next. */
  lemma TakenJumpLands(size: Instr -> nat, before: seq<Instr>, b: Body, bytes: seq<Byte>, x: Config, again: Op, y: Config)
    requires Compiled(b) && Lengths(size) && LabelsOnce(b)
    requires var labels, jumps := Labels(size, before, b, |b.ops|), Jumps(size, before, b, |b.ops|);
             forall q :: 0 <= q < |jumps| && jumps[q].symbol in labels ==>
               Resolving.Lands(bytes, jumps[q], labels[jumps[q].symbol])
    requires Moves(b, x, again, y) && y.at != x.at + 1
    ensures var end := Position(size, before, b, x.at + 1);
            && 4 <= end <= |bytes| && y.at < |b.states|
            && Congruent(end + Value(bytes[end - 4..end]), Position(size, before, b, y.at), TWO32)
  {
    hide Apply, Legal, Piece, Effect, Lands;
    var q := JumpRecorded(size, before, b, |b.ops|, x.at);
    LabelRecorded(size, before, b, |b.ops|, y.at - 1);
  }
}
