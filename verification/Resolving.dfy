/** Resolving the jumps of a function to its labels (function.go, Resolve). */
module Resolving {
  import opened Bytes
  import opened ObjectFile
  import opened Linkage
  import opened Relocating

  /** The jumps to labels that the function does not define. */
  function Outward(jumps: seq<Relocation>, labels: map<string, int>): seq<Relocation> {
    if jumps == [] then []
    else Outward(jumps[..|jumps| - 1], labels) +
         if jumps[|jumps| - 1].symbol in labels then [] else [jumps[|jumps| - 1]]
  }

  ghost predicate JumpSlots(jumps: seq<Relocation>, n: nat) {
    && (forall i :: 0 <= i < |jumps| ==> jumps[i].offset + 4 <= n)
    && forall i, j :: 0 <= i < j < |jumps| ==> Apart(jumps[i], jumps[j])
  }

  /** A jump whose slot leads from the next instruction to its label. */
  ghost predicate Lands(code: seq<Byte>, jump: Relocation, label': int) {
    jump.offset + 4 <= |code| &&
    Congruent(jump.offset + 4 + Value(code[jump.offset..jump.offset + 4]), label' + jump.addend, TWO32)
  }

  ghost predicate JumpSlot(jumps: seq<Relocation>, labels: map<string, int>, k: int) {
    exists i :: 0 <= i < |jumps| && jumps[i].symbol in labels && jumps[i].offset <= k < jumps[i].offset + 4
  }

  lemma PatchLands(code: seq<Byte>, jump: Relocation, target: int)
    requires Written(code, CodePatch(jump, target))
    ensures Lands(code, jump, target)
  {
    SlotLeadsToTarget(jump, target, 0);
  }

  /** Patches the jumps to the function's own labels; the others become
      relocations, and every bare target is qualified with the package. */
  method Resolve(bs: array<Byte>, jumps: seq<Relocation>, labels: map<string, int>, pkgname: string, relocations: seq<Relocation>)
    returns (resolved: seq<Relocation>)
    requires JumpSlots(jumps, bs.Length)
    modifies bs
    ensures forall i :: 0 <= i < |jumps| && jumps[i].symbol in labels ==> Lands(bs[..], jumps[i], labels[jumps[i].symbol])
    ensures forall k :: 0 <= k < bs.Length && !JumpSlot(jumps, labels, k) ==> bs[k] == old(bs[k])
    ensures var all := relocations + Outward(jumps, labels);
            |resolved| == |all| && forall i :: 0 <= i < |all| ==>
              resolved[i].offset == all[i].offset && resolved[i].addend == all[i].addend &&
              if pkgname == "" || '.' in all[i].symbol then resolved[i].symbol == all[i].symbol
              else resolved[i].symbol == pkgname + "." + all[i].symbol
  {
    resolved := PatchJumps(bs, jumps, labels, relocations);
    ghost var all := resolved;
    if pkgname != "" {
      for i := 0 to |resolved|
        invariant |resolved| == |all| && resolved[i..] == all[i..]
        invariant forall j :: 0 <= j < i ==> resolved[j] == all[j].(symbol := QualifyTarget(pkgname, all[j].symbol))
      {
        assert resolved[i] == resolved[i..][0] && all[i] == all[i..][0];
        assert resolved[i + 1..] == resolved[i..][1..] && all[i + 1..] == all[i..][1..];
        if '.' !in resolved[i].symbol {
          resolved := resolved[i := resolved[i].(symbol := pkgname + "." + resolved[i].symbol)];
        }
      }
    }
  }

  method PatchJumps(bs: array<Byte>, jumps: seq<Relocation>, labels: map<string, int>, relocations: seq<Relocation>)
    returns (all: seq<Relocation>)
    requires JumpSlots(jumps, bs.Length)
    modifies bs
    ensures forall i :: 0 <= i < |jumps| && jumps[i].symbol in labels ==> Lands(bs[..], jumps[i], labels[jumps[i].symbol])
    ensures forall k :: 0 <= k < bs.Length && !JumpSlot(jumps, labels, k) ==> bs[k] == old(bs[k])
    ensures all == relocations + Outward(jumps, labels)
  {
    hide CodePatch, Lands;
    all := relocations;
    for i := 0 to |jumps|
      invariant forall j :: 0 <= j < i && jumps[j].symbol in labels ==> Written(bs[..], JumpPatch(jumps[j], labels))
      invariant forall k :: 0 <= k < bs.Length && !JumpSlot(jumps, labels, k) ==> bs[k] == old(bs[k])
      invariant all == relocations + Outward(jumps[..i], labels)
    {
      assert jumps[..i + 1][..i] == jumps[..i];
      ghost var before := bs[..];
      var rel := jumps[i];
      if rel.symbol in labels {
        ApplyRelocation(rel, bs, labels[rel.symbol]);
        JustPatched(rel, labels, bs[..]);
        forall j | 0 <= j < i && jumps[j].symbol in labels ensures Written(bs[..], JumpPatch(jumps[j], labels)) {
          StaysWritten(before, bs[..], JumpPatch(jumps[j], labels), JumpPatch(rel, labels));
        }
        forall k | 0 <= k < bs.Length && !JumpSlot(jumps, labels, k) ensures bs[k] == before[k] {
          assert !Covers(JumpPatch(rel, labels), k);
        }
      } else {
        all := all + [rel];
      }
    }
    assert jumps[..|jumps|] == jumps;
    forall i | 0 <= i < |jumps| && jumps[i].symbol in labels ensures Lands(bs[..], jumps[i], labels[jumps[i].symbol]) {
      PatchLands(bs[..], jumps[i], labels[jumps[i].symbol]);
    }
  }

  function JumpPatch(jump: Relocation, labels: map<string, int>): (p: Patch)
    requires jump.symbol in labels
    ensures p.at == jump.offset && |p.bytes| == 4
  {
    CodePatch(jump, labels[jump.symbol])
  }

  lemma JustPatched(jump: Relocation, labels: map<string, int>, code: seq<Byte>)
    requires jump.symbol in labels && jump.offset + 4 <= |code|
    requires code[jump.offset..jump.offset + 4] == CodePatch(jump, labels[jump.symbol]).bytes
    ensures Written(code, JumpPatch(jump, labels))
  {
  }
}
