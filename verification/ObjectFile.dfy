/** Object-file contents that the linker works on, and the patching of their
    address slots (ofile.go). */
module ObjectFile {
  import opened Bytes

  /** A 32-bit slot of code that holds the distance to a symbol. */
  datatype Relocation = Relocation(offset: nat, symbol: string, addend: int)

  /** A 64-bit slot of data that holds the address of a symbol. */
  datatype DataReloc = DataReloc(offset: nat, symbol: string, addend: int)

  datatype Function = Function(name: string, pkgname: string, body: seq<Byte>, relocations: seq<Relocation>)

  datatype Var = Var(val: seq<Byte>, relocs: seq<DataReloc>)

  datatype OFile = OFile(pkgname: string, funcs: map<string, Function>, data: map<string, Var>, vars: map<string, Var>)

  /** Bytes to be written at an offset. */
  datatype Patch = Patch(at: nat, bytes: seq<Byte>)

  predicate Inside(p: Patch, n: nat) { p.at + |p.bytes| <= n }

  predicate Disjoint(p: Patch, q: Patch) { p.at + |p.bytes| <= q.at || q.at + |q.bytes| <= p.at }

  predicate Covers(p: Patch, i: int) { p.at <= i < p.at + |p.bytes| }

  /** What a relocation writes when its symbol lies `value` bytes into the section. */
  function Displacement(r: Relocation, value: int): int { Int32(Int32(value) - Int32(r.offset) - 4 + r.addend) }

  function CodePatch(r: Relocation, value: int): Patch { Patch(r.offset, LittleEndian(Displacement(r, value), 4)) }

  /** What a data relocation writes, in a variable that lies at `loc`. */
  function DataPatch(r: DataReloc, loc: nat, targetVA: int): Patch {
    Patch(loc + r.offset, LittleEndian(targetVA + r.addend, 8))
  }

  /** Writes the bytes of a patch over those in a section. */
  method Write(bs: array<Byte>, p: Patch)
    requires Inside(p, bs.Length)
    modifies bs
    ensures bs[p.at..p.at + |p.bytes|] == p.bytes
    ensures forall i :: 0 <= i < bs.Length && !Covers(p, i) ==> bs[i] == old(bs[i])
  {
    for i := 0 to |p.bytes|
      invariant forall j :: 0 <= j < i ==> bs[p.at + j] == p.bytes[j]
      invariant forall j :: 0 <= j < bs.Length && !(p.at <= j < p.at + i) ==> bs[j] == old(bs[j])
    {
      bs[p.at + i] := p.bytes[i];
    }
  }

  method ApplyRelocation(r: Relocation, bs: array<Byte>, value: int)
    requires r.offset + 4 <= bs.Length
    modifies bs
    ensures bs[r.offset..r.offset + 4] == CodePatch(r, value).bytes
    ensures forall i :: 0 <= i < bs.Length && !Covers(CodePatch(r, value), i) ==> bs[i] == old(bs[i])
  {
    var target := Int32(Int32(value) - Int32(r.offset) - 4 + r.addend);
    Write(bs, Patch(r.offset, LittleEndian(target, 4)));
  }

  method ApplyDataReloc(r: DataReloc, bs: array<Byte>, loc: nat, targetVA: int)
    requires loc + r.offset + 8 <= bs.Length
    modifies bs
    ensures bs[loc + r.offset..loc + r.offset + 8] == DataPatch(r, loc, targetVA).bytes
    ensures forall i :: 0 <= i < bs.Length && !Covers(DataPatch(r, loc, targetVA), i) ==> bs[i] == old(bs[i])
  {
    Write(bs, Patch(loc + r.offset, LittleEndian(targetVA + r.addend, 8)));
  }

  ghost predicate Congruent(x: int, y: int, modulus: nat) { exists k: int :: x == y + k * modulus }

  lemma CongruentSum(x: int, y: int, z: int, modulus: nat)
    requires Congruent(x, y, modulus) && Congruent(y, z, modulus)
    ensures Congruent(x, z, modulus)
  {
    var j: int :| x == y + j * modulus;
    var k: int :| y == z + k * modulus;
    assert x == z + (j + k) * modulus;
  }

  /** The value of a slot is congruent to what was encoded in it. */
  lemma SlotValue(x: int, n: nat)
    ensures Congruent(Value(LittleEndian(x, n)), x, Pow256(n))
  {
    ValueIsCongruent(x, n);
  }

  /** A code slot at `textoff + r.offset` leads exactly to its target: the address
      after the slot plus its contents is the target's address plus the addend,
      modulo the width of the slot. */
  lemma SlotLeadsToTarget(r: Relocation, value: int, textoff: int)
    ensures Congruent(textoff + r.offset + 4 + Value(CodePatch(r, value).bytes), textoff + value + r.addend, TWO32)
  {
    var d := Displacement(r, value);
    assert Pow256(4) == TWO32;
    SlotValue(d, 4);
    var j: int :| Value(CodePatch(r, value).bytes) == d + j * TWO32;
    Int32Congruent(value);
    Int32Congruent(r.offset);
    Int32Congruent(Int32(value) - Int32(r.offset) - 4 + r.addend);
    var a: int :| Int32(value) == value + a * TWO32;
    var b: int :| Int32(r.offset) == r.offset + b * TWO32;
    var c: int :| d == Int32(value) - Int32(r.offset) - 4 + r.addend + c * TWO32;
    assert textoff + r.offset + 4 + Value(CodePatch(r, value).bytes) ==
           textoff + value + r.addend + (a - b + c + j) * TWO32;
  }

  lemma Int32Congruent(x: int)
    ensures Congruent(Int32(x), x, TWO32)
  {
    var r := Int32(x);
    assert r == x + ((r - x) / TWO32) * TWO32;
  }
}
