/** The last phase of linking (linker.go): once every symbol has its place, the
    address slots of code and data are patched in place. */
module Relocating {
  import opened Bytes
  import opened ObjectFile
  import opened Linkage

  /** The addresses of the sections and the offsets of the symbols in them. */
  datatype Layout = Layout(
    textoff: nat, varoff: nat, dataoff: nat,
    funclocs: map<string, int>, varlocs: map<string, int>, datalocs: map<string, int>)

  predicate Located(l: Layout, symbol: string) {
    symbol in l.funclocs || symbol in l.varlocs || symbol in l.datalocs
  }

  /** The final address of a symbol. */
  function TargetVA(l: Layout, symbol: string): int
    requires Located(l, symbol)
  {
    if symbol in l.funclocs then l.textoff + l.funclocs[symbol]
    else if symbol in l.varlocs then l.varoff + l.varlocs[symbol]
    else l.dataoff + l.datalocs[symbol]
  }

  /** Its distance from the start of the code, in 32 bits. */
  function TargetOffset(l: Layout, symbol: string): int
    requires Located(l, symbol)
  {
    if symbol in l.funclocs then l.funclocs[symbol]
    else if symbol in l.varlocs then Uint32(l.varlocs[symbol] + Uint32(l.varoff - l.textoff))
    else Uint32(l.datalocs[symbol] + Uint32(l.dataoff - l.textoff))
  }

  lemma Uint32Sum(x: int, y: int)
    ensures Congruent(Uint32(x + Uint32(y)), x + y, TWO32)
  {
    var a := (Uint32(y) - y) / TWO32;
    var b := (Uint32(x + Uint32(y)) - (x + Uint32(y))) / TWO32;
    assert Uint32(x + Uint32(y)) == x + y + (a + b) * TWO32;
  }

  lemma OffsetLeadsToVA(l: Layout, symbol: string)
    requires Located(l, symbol)
    ensures Congruent(l.textoff + TargetOffset(l, symbol), TargetVA(l, symbol), TWO32)
  {
    if symbol in l.funclocs {
      assert TargetVA(l, symbol) == TargetVA(l, symbol) + 0 * TWO32;
    } else {
      var at, off := if symbol in l.varlocs then l.varlocs[symbol] else l.datalocs[symbol],
                     if symbol in l.varlocs then l.varoff else l.dataoff;
      Uint32Sum(at, off - l.textoff);
      var k: int :| Uint32(at + Uint32(off - l.textoff)) == at + (off - l.textoff) + k * TWO32;
      assert l.textoff + TargetOffset(l, symbol) == TargetVA(l, symbol) + k * TWO32;
    }
  }

  ghost predicate Written(buf: seq<Byte>, p: Patch) {
    Inside(p, |buf|) && buf[p.at..p.at + |p.bytes|] == p.bytes
  }

  lemma StaysWritten(before: seq<Byte>, after: seq<Byte>, p: Patch, q: Patch)
    requires Written(before, p) && Disjoint(p, q) && |after| == |before|
    requires forall i :: 0 <= i < |before| && !Covers(q, i) ==> after[i] == before[i]
    ensures Written(after, p)
  {
  }

  // ----- code -----

  function TextPatch(l: Layout, r: Relocation): (p: Patch)
    requires Located(l, r.symbol)
    ensures p.at == r.offset && |p.bytes| == 4
  {
    CodePatch(r, TargetOffset(l, r.symbol))
  }

  predicate Apart(r: Relocation, s: Relocation) { r.offset + 4 <= s.offset || s.offset + 4 <= r.offset }

  ghost predicate TextSlots(l: Layout, rs: seq<Relocation>, n: nat) {
    && (forall i :: 0 <= i < |rs| ==> Located(l, rs[i].symbol) && rs[i].offset + 4 <= n)
    && forall i, j :: 0 <= i < j < |rs| ==> Apart(rs[i], rs[j])
  }

  ghost predicate TextSlot(rs: seq<Relocation>, k: int) {
    exists i :: 0 <= i < |rs| && rs[i].offset <= k < rs[i].offset + 4
  }

  method RelocateText(l: Layout, rs: seq<Relocation>, text: array<Byte>)
    requires TextSlots(l, rs, text.Length)
    modifies text
    ensures forall i :: 0 <= i < |rs| ==> Written(text[..], TextPatch(l, rs[i]))
    ensures forall k :: 0 <= k < text.Length && !TextSlot(rs, k) ==> text[k] == old(text[k])
  {
    hide CodePatch, TargetOffset;
    for i := 0 to |rs|
      invariant forall j :: 0 <= j < i ==> Written(text[..], TextPatch(l, rs[j]))
      invariant forall k :: 0 <= k < text.Length && !TextSlot(rs, k) ==> text[k] == old(text[k])
    {
      label Before:
      ghost var before := text[..];
      var r := rs[i];
      var value;
      if r.symbol in l.funclocs {
        value := l.funclocs[r.symbol];
      } else if r.symbol in l.varlocs {
        value := Uint32(l.varlocs[r.symbol] + Uint32(l.varoff - l.textoff));
      } else {
        value := Uint32(l.datalocs[r.symbol] + Uint32(l.dataoff - l.textoff));
      }
      IsTargetOffset(l, r.symbol, value);
      ApplyRelocation(r, text, value);
      forall j | 0 <= j < i ensures Written(text[..], TextPatch(l, rs[j])) {
        StaysWritten(before, text[..], TextPatch(l, rs[j]), TextPatch(l, r));
      }
      forall k | 0 <= k < text.Length && !TextSlot(rs, k) ensures text[k] == old(text[k]) {
        assert !Covers(TextPatch(l, r), k);
      }
    }
  }

  lemma IsTargetOffset(l: Layout, symbol: string, value: int)
    requires Located(l, symbol)
    requires value == if symbol in l.funclocs then l.funclocs[symbol]
                      else if symbol in l.varlocs then Uint32(l.varlocs[symbol] + Uint32(l.varoff - l.textoff))
                      else Uint32(l.datalocs[symbol] + Uint32(l.dataoff - l.textoff))
    ensures value == TargetOffset(l, symbol)
  {
  }

  // ----- data -----

  function SlotPatch(l: Layout, r: DataReloc, loc: nat): (p: Patch)
    requires Located(l, r.symbol)
    ensures p.at == loc + r.offset && |p.bytes| == 8
  {
    DataPatch(r, loc, TargetVA(l, r.symbol))
  }

  /** The slots of the placed variables lie in the section, apart from each other. */
  ghost predicate DataSlots(l: Layout, vars: map<string, Var>, locs: map<string, int>, n: nat) {
    && (forall v :: v in locs ==> v in vars && locs[v] >= 0)
    && (forall v, i :: v in locs && 0 <= i < |vars[v].relocs| ==>
          Located(l, vars[v].relocs[i].symbol) && locs[v] + vars[v].relocs[i].offset + 8 <= n)
    && forall v, i, w, j :: v in locs && w in locs && 0 <= i < |vars[v].relocs| && 0 <= j < |vars[w].relocs| && (v, i) != (w, j) ==>
         SlotsApart(locs[v] + vars[v].relocs[i].offset, locs[w] + vars[w].relocs[j].offset)
  }

  predicate SlotsApart(a: int, b: int) { a + 8 <= b || b + 8 <= a }

  ghost predicate DataSlot(vars: map<string, Var>, locs: map<string, int>, k: int) {
    exists v, i :: v in locs && v in vars && 0 <= i < |vars[v].relocs| &&
                   locs[v] + vars[v].relocs[i].offset <= k < locs[v] + vars[v].relocs[i].offset + 8
  }

  ghost predicate VarWritten(l: Layout, v: Var, loc: nat, buf: seq<Byte>, upto: nat) {
    forall i :: 0 <= i < |v.relocs| && i < upto ==>
      Located(l, v.relocs[i].symbol) && Written(buf, SlotPatch(l, v.relocs[i], loc))
  }

  method RelocateVar(l: Layout, vars: map<string, Var>, locs: map<string, int>, name: string, buf: array<Byte>)
    requires DataSlots(l, vars, locs, buf.Length) && name in locs
    modifies buf
    ensures VarWritten(l, vars[name], locs[name], buf[..], |vars[name].relocs|)
    ensures forall v, n: nat :: v in locs && v != name && VarWritten(l, vars[v], locs[v], old(buf[..]), n) ==>
              VarWritten(l, vars[v], locs[v], buf[..], n)
    ensures forall k :: 0 <= k < buf.Length && !DataSlot(vars, locs, k) ==> buf[k] == old(buf[k])
  {
    hide DataPatch, TargetVA, Located, Written;
    var v, loc := vars[name], locs[name];
    for i := 0 to |v.relocs|
      invariant VarWritten(l, v, loc, buf[..], i)
      invariant forall w, n: nat :: w in locs && w != name && VarWritten(l, vars[w], locs[w], old(buf[..]), n) ==>
                  VarWritten(l, vars[w], locs[w], buf[..], n)
      invariant forall k :: 0 <= k < buf.Length && !DataSlot(vars, locs, k) ==> buf[k] == old(buf[k])
    {
      ghost var before := buf[..];
      var r := v.relocs[i];
      assert Located(l, r.symbol) && loc + r.offset + 8 <= buf.Length;
      ApplyDataReloc(r, buf, loc, TargetVA(l, r.symbol));
      JustWritten(l, r, loc, buf[..]);
      forall k | 0 <= k < buf.Length && !DataSlot(vars, locs, k) ensures buf[k] == before[k] {
        assert !Covers(SlotPatch(l, r, loc), k);
      }
      assert forall k :: 0 <= k < buf.Length && !Covers(SlotPatch(l, r, loc), k) ==> buf[k] == before[k];
      forall w, n: nat | w in locs && VarWritten(l, vars[w], locs[w], before, n) && (w != name || n <= i)
        ensures VarWritten(l, vars[w], locs[w], buf[..], n)
      {
        OthersStay(l, vars, locs, name, i, before, buf[..], w, n);
      }
    }
  }

  lemma JustWritten(l: Layout, r: DataReloc, loc: nat, buf: seq<Byte>)
    requires Located(l, r.symbol) && loc + r.offset + 8 <= |buf|
    requires buf[loc + r.offset..loc + r.offset + 8] == DataPatch(r, loc, TargetVA(l, r.symbol)).bytes
    ensures Written(buf, SlotPatch(l, r, loc))
  {
  }

  lemma OthersStay(l: Layout, vars: map<string, Var>, locs: map<string, int>, name: string, i: nat,
                   before: seq<Byte>, after: seq<Byte>, w: string, n: nat)
    requires DataSlots(l, vars, locs, |before|) && |after| == |before|
    requires name in locs && i < |vars[name].relocs| && w in locs && (w != name || n <= i)
    requires VarWritten(l, vars[w], locs[w], before, n)
    requires forall k :: 0 <= k < |before| && !Covers(SlotPatch(l, vars[name].relocs[i], locs[name]), k) ==> after[k] == before[k]
    ensures VarWritten(l, vars[w], locs[w], after, n)
  {
    hide DataPatch, TargetVA, Located, Written;
    forall j | 0 <= j < |vars[w].relocs| && j < n ensures Written(after, SlotPatch(l, vars[w].relocs[j], locs[w])) {
      assert (w, j) != (name, i);
      assert SlotsApart(locs[w] + vars[w].relocs[j].offset, locs[name] + vars[name].relocs[i].offset);
      StaysWritten(before, after, SlotPatch(l, vars[w].relocs[j], locs[w]), SlotPatch(l, vars[name].relocs[i], locs[name]));
    }
  }

  /** The variables are patched in any order. */
  method RelocateData(l: Layout, vars: map<string, Var>, locs: map<string, int>, buf: array<Byte>)
    requires DataSlots(l, vars, locs, buf.Length)
    modifies buf
    ensures forall v :: v in locs ==> VarWritten(l, vars[v], locs[v], buf[..], |vars[v].relocs|)
    ensures forall k :: 0 <= k < buf.Length && !DataSlot(vars, locs, k) ==> buf[k] == old(buf[k])
  {
    hide VarWritten, DataSlot;
    var todo := locs.Keys;
    while todo != {}
      invariant todo <= locs.Keys
      invariant forall v :: v in locs && v !in todo ==> VarWritten(l, vars[v], locs[v], buf[..], |vars[v].relocs|)
      invariant forall k :: 0 <= k < buf.Length && !DataSlot(vars, locs, k) ==> buf[k] == old(buf[k])
    {
      var name :| name in todo;
      RelocateVar(l, vars, locs, name, buf);
      todo := todo - {name};
    }
  }
}
