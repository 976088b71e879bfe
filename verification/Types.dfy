/** Boson types and their implicit coercions (cmd/bosc/ast.go).  A qualifier
    mask is the set of the levels whose bit is set. */
module Types {
  import opened Wrappers

  /** A pointer (indirection > 0), slice or array (element), function pointer
      (sig), anonymous struct (fields) or named type. */
  datatype ASTType = ASTType(
    name: string,
    indirection: nat,
    arraySize: nat,
    element: Option<ASTType>,
    mut: set<nat>,
    owned: set<nat>,
    nullable: set<nat>,
    sig: Option<FuncSig>,
    fields: Fields)

  datatype FuncSig = FuncSig(args: seq<ASTType>, ret: ASTType)

  /** The fields of an anonymous struct type. */
  datatype Fields = NoStruct | Struct(bindings: seq<Binding>)

  datatype Binding = Binding(name: string, t: ASTType)

  predicate IsArray(t: ASTType) { t.element.Some? && t.arraySize > 0 }

  function Named(name: string): ASTType { ASTType(name, 0, 0, None, {}, {}, {}, None, NoStruct) }

  const INTLIT: ASTType := Named("<intlit>")

  const NIL: string := "<nil>"

  // ----- the relations -----

  predicate SameExact(a: ASTType, b: ASTType) {
    && a.name == b.name && a.indirection == b.indirection && a.arraySize == b.arraySize
    && a.mut == b.mut && a.owned == b.owned && a.nullable == b.nullable
    && a.element.Some? == b.element.Some? && (a.element.Some? ==> SameExact(a.element.value, b.element.value))
    && a.sig.Some? == b.sig.Some? && (a.sig.Some? ==> SameSig(a.sig.value, b.sig.value))
    && a.fields.Struct? == b.fields.Struct?
    && (a.fields.Struct? ==>
          |a.fields.bindings| == |b.fields.bindings| &&
          forall i :: 0 <= i < |a.fields.bindings| ==>
            a.fields.bindings[i].name == b.fields.bindings[i].name && SameExact(a.fields.bindings[i].t, b.fields.bindings[i].t))
  }

  predicate SameSig(a: FuncSig, b: FuncSig) {
    |a.args| == |b.args| && (forall i :: 0 <= i < |a.args| ==> SameExact(a.args[i], b.args[i])) && SameExact(a.ret, b.ret)
  }

  /** Whether the type carries any ownership obligation. */
  predicate HasOwned(t: ASTType) {
    || t.owned != {}
    || (t.element.Some? && HasOwned(t.element.value))
    || (if t.sig.Some? then
          (exists i :: 0 <= i < |t.sig.value.args| && HasOwned(t.sig.value.args[i])) || HasOwned(t.sig.value.ret)
        else t.fields.Struct? && exists i :: 0 <= i < |t.fields.bindings| && HasOwned(t.fields.bindings[i].t))
  }

  predicate SameOwned(a: ASTType, b: ASTType) {
    && a.name == b.name && a.indirection == b.indirection && a.arraySize == b.arraySize && a.owned == b.owned
    && a.element.Some? == b.element.Some? && (a.element.Some? ==> SameOwned(a.element.value, b.element.value))
    && a.sig.Some? == b.sig.Some? && (a.sig.Some? ==> SameOwnedSig(a.sig.value, b.sig.value))
    && a.fields.Struct? == b.fields.Struct?
    && (a.fields.Struct? ==>
          |a.fields.bindings| == |b.fields.bindings| &&
          forall i :: 0 <= i < |a.fields.bindings| ==>
            a.fields.bindings[i].name == b.fields.bindings[i].name && SameOwned(a.fields.bindings[i].t, b.fields.bindings[i].t))
  }

  predicate SameOwnedSig(a: FuncSig, b: FuncSig) {
    |a.args| == |b.args| && (forall i :: 0 <= i < |a.args| ==> SameOwned(a.args[i], b.args[i])) && SameOwned(a.ret, b.ret)
  }

  /** The type with all owned bits cleared: what a plain borrow sees. */
  function StripOwned(t: ASTType): ASTType {
    t.(owned := {},
       element := if t.element.Some? then Some(StripOwned(t.element.value)) else None,
       sig := if t.sig.Some? then
                Some(FuncSig(seq(|t.sig.value.args|, i requires 0 <= i < |t.sig.value.args| => StripOwned(t.sig.value.args[i])),
                             StripOwned(t.sig.value.ret)))
              else None,
       fields := if t.fields.Struct? then
                   Struct(seq(|t.fields.bindings|, i requires 0 <= i < |t.fields.bindings| =>
                     Binding(t.fields.bindings[i].name, StripOwned(t.fields.bindings[i].t))))
                 else NoStruct)
  }

  predicate NilCompatible(dst: ASTType, src: ASTType) {
    && dst.name == src.name && dst.indirection == src.indirection && dst.arraySize == src.arraySize
    && dst.element.Some? == src.element.Some? &&
       (dst.element.Some? ==> NilCompatible(dst.element.value, src.element.value))
    && src.nullable <= dst.nullable
    && dst.fields.Struct? == src.fields.Struct?
    && (dst.fields.Struct? ==>
          |dst.fields.bindings| == |src.fields.bindings| &&
          forall i :: 0 <= i < |dst.fields.bindings| ==>
            dst.fields.bindings[i].name == src.fields.bindings[i].name &&
            NilCompatible(dst.fields.bindings[i].t, src.fields.bindings[i].t))
  }

  predicate MutCompatible(dst: ASTType, src: ASTType) {
    && dst.name == src.name && dst.indirection == src.indirection && dst.arraySize == src.arraySize
    && dst.element.Some? == src.element.Some? &&
       (dst.element.Some? ==> MutCompatible(dst.element.value, src.element.value))
    && dst.fields.Struct? == src.fields.Struct?
    && (dst.fields.Struct? ==>
          |dst.fields.bindings| == |src.fields.bindings| &&
          forall i :: 0 <= i < |dst.fields.bindings| ==>
            dst.fields.bindings[i].name == src.fields.bindings[i].name &&
            MutCompatible(dst.fields.bindings[i].t, src.fields.bindings[i].t))
    && dst.mut <= src.mut
  }

  /** Whether a value of type src can be used where dst is expected. */
  predicate Accepts(dst: ASTType, src: ASTType) {
    if SameExact(src, INTLIT) then true
    else if src.name == NIL then dst.indirection > 0 && 0 in dst.nullable
    else if !HasOwned(dst) then MutCompatible(dst, StripOwned(src)) && NilCompatible(dst, StripOwned(src))
    else SameOwned(dst, src) && MutCompatible(dst, src) && NilCompatible(dst, src)
  }

  /** Neither an integer literal nor nil, whose types coerce to others at will. */
  predicate Concrete(t: ASTType) { !SameExact(t, INTLIT) && t.name != NIL }

  // ----- stripping -----

  lemma {:induction false} StripIgnored(dst: ASTType, src: ASTType)
    ensures MutCompatible(dst, StripOwned(src)) == MutCompatible(dst, src)
    ensures NilCompatible(dst, StripOwned(src)) == NilCompatible(dst, src)
    decreases dst
  {
    if dst.element.Some? && src.element.Some? { StripIgnored(dst.element.value, src.element.value); }
    if dst.fields.Struct? && src.fields.Struct? && |dst.fields.bindings| == |src.fields.bindings| {
      forall i | 0 <= i < |dst.fields.bindings|
        ensures MutCompatible(dst.fields.bindings[i].t, StripOwned(src.fields.bindings[i].t)) ==
                MutCompatible(dst.fields.bindings[i].t, src.fields.bindings[i].t)
        ensures NilCompatible(dst.fields.bindings[i].t, StripOwned(src.fields.bindings[i].t)) ==
                NilCompatible(dst.fields.bindings[i].t, src.fields.bindings[i].t)
      {
        StripIgnored(dst.fields.bindings[i].t, src.fields.bindings[i].t);
      }
    }
  }

  lemma {:induction false} StripLeavesNone(t: ASTType)
    ensures !HasOwned(StripOwned(t))
    decreases t
  {
    if t.element.Some? { StripLeavesNone(t.element.value); }
    if t.sig.Some? {
      forall i | 0 <= i < |t.sig.value.args| ensures !HasOwned(StripOwned(t.sig.value.args[i])) {
        StripLeavesNone(t.sig.value.args[i]);
      }
      StripLeavesNone(t.sig.value.ret);
    }
    if t.fields.Struct? {
      forall i | 0 <= i < |t.fields.bindings| ensures !HasOwned(StripOwned(t.fields.bindings[i].t)) {
        StripLeavesNone(t.fields.bindings[i].t);
      }
    }
  }

  lemma {:induction false} SameOwnedHasOwned(a: ASTType, b: ASTType)
    requires SameOwned(a, b)
    ensures HasOwned(a) == HasOwned(b)
    decreases a
  {
    if a.element.Some? { SameOwnedHasOwned(a.element.value, b.element.value); }
    if a.sig.Some? {
      forall i | 0 <= i < |a.sig.value.args| ensures HasOwned(a.sig.value.args[i]) == HasOwned(b.sig.value.args[i]) {
        SameOwnedHasOwned(a.sig.value.args[i], b.sig.value.args[i]);
      }
      SameOwnedHasOwned(a.sig.value.ret, b.sig.value.ret);
    } else if a.fields.Struct? {
      forall i | 0 <= i < |a.fields.bindings| ensures HasOwned(a.fields.bindings[i].t) == HasOwned(b.fields.bindings[i].t) {
        SameOwnedHasOwned(a.fields.bindings[i].t, b.fields.bindings[i].t);
      }
    }
  }

  // ----- reflexive -----

  lemma {:induction false} CompatibleWithItself(t: ASTType)
    ensures MutCompatible(t, t) && NilCompatible(t, t)
    decreases t
  {
    if t.element.Some? { CompatibleWithItself(t.element.value); }
    if t.fields.Struct? {
      forall i | 0 <= i < |t.fields.bindings|
        ensures MutCompatible(t.fields.bindings[i].t, t.fields.bindings[i].t)
        ensures NilCompatible(t.fields.bindings[i].t, t.fields.bindings[i].t)
      {
        CompatibleWithItself(t.fields.bindings[i].t);
      }
    }
  }

  lemma {:induction false} OwnedLikeItself(t: ASTType)
    ensures SameOwned(t, t)
    decreases t
  {
    if t.element.Some? { OwnedLikeItself(t.element.value); }
    if t.sig.Some? {
      forall i | 0 <= i < |t.sig.value.args| ensures SameOwned(t.sig.value.args[i], t.sig.value.args[i]) {
        OwnedLikeItself(t.sig.value.args[i]);
      }
      OwnedLikeItself(t.sig.value.ret);
    }
    if t.fields.Struct? {
      forall i | 0 <= i < |t.fields.bindings| ensures SameOwned(t.fields.bindings[i].t, t.fields.bindings[i].t) {
        OwnedLikeItself(t.fields.bindings[i].t);
      }
    }
  }

  /** Every concrete type accepts itself. */
  lemma AcceptsReflexive(t: ASTType)
    requires Concrete(t)
    ensures Accepts(t, t)
  {
    CompatibleWithItself(t);
    StripIgnored(t, t);
    OwnedLikeItself(t);
  }

  // ----- transitive -----

  lemma {:induction false} MutTransitive(a: ASTType, b: ASTType, c: ASTType)
    requires MutCompatible(a, b) && MutCompatible(b, c)
    ensures MutCompatible(a, c)
    decreases a
  {
    if a.element.Some? { MutTransitive(a.element.value, b.element.value, c.element.value); }
    if a.fields.Struct? {
      forall i | 0 <= i < |a.fields.bindings| ensures MutCompatible(a.fields.bindings[i].t, c.fields.bindings[i].t) {
        MutTransitive(a.fields.bindings[i].t, b.fields.bindings[i].t, c.fields.bindings[i].t);
      }
    }
  }

  lemma {:induction false} NilTransitive(a: ASTType, b: ASTType, c: ASTType)
    requires NilCompatible(a, b) && NilCompatible(b, c)
    ensures NilCompatible(a, c)
    decreases a
  {
    if a.element.Some? { NilTransitive(a.element.value, b.element.value, c.element.value); }
    if a.fields.Struct? {
      forall i | 0 <= i < |a.fields.bindings| ensures NilCompatible(a.fields.bindings[i].t, c.fields.bindings[i].t) {
        NilTransitive(a.fields.bindings[i].t, b.fields.bindings[i].t, c.fields.bindings[i].t);
      }
    }
  }

  lemma {:induction false} SameOwnedTransitive(a: ASTType, b: ASTType, c: ASTType)
    requires SameOwned(a, b) && SameOwned(b, c)
    ensures SameOwned(a, c)
    decreases a
  {
    if a.element.Some? { SameOwnedTransitive(a.element.value, b.element.value, c.element.value); }
    if a.sig.Some? {
      forall i | 0 <= i < |a.sig.value.args| ensures SameOwned(a.sig.value.args[i], c.sig.value.args[i]) {
        SameOwnedTransitive(a.sig.value.args[i], b.sig.value.args[i], c.sig.value.args[i]);
      }
      SameOwnedTransitive(a.sig.value.ret, b.sig.value.ret, c.sig.value.ret);
    }
    if a.fields.Struct? {
      forall i | 0 <= i < |a.fields.bindings| ensures SameOwned(a.fields.bindings[i].t, c.fields.bindings[i].t) {
        SameOwnedTransitive(a.fields.bindings[i].t, b.fields.bindings[i].t, c.fields.bindings[i].t);
      }
    }
  }

  /** Two coercions in a row are one. */
  lemma AcceptsTransitive(a: ASTType, b: ASTType, c: ASTType)
    requires Concrete(b) && Concrete(c) && Accepts(a, b) && Accepts(b, c)
    ensures Accepts(a, c)
  {
    hide SameOwned, MutCompatible, NilCompatible, StripOwned, HasOwned, SameExact;
    StripIgnored(a, b);
    StripIgnored(b, c);
    StripIgnored(a, c);
    MutTransitive(a, b, c);
    NilTransitive(a, b, c);
    if HasOwned(a) {
      SameOwnedHasOwned(a, b);
      SameOwnedTransitive(a, b, c);
    }
  }

  // ----- what no coercion gains -----

  /** A step from a type to one that it contains. */
  datatype Into = Element | Field(i: nat) | Arg(j: nat) | Ret

  /** The type at the end of a path. */
  function At(t: ASTType, path: seq<Into>): Option<ASTType>
    decreases path
  {
    if path == [] then Some(t)
    else
      match path[0]
      case Element => if t.element.Some? then At(t.element.value, path[1..]) else None
      case Field(i) =>
        if t.fields.Struct? && i < |t.fields.bindings| then At(t.fields.bindings[i].t, path[1..]) else None
      case Arg(i) => if t.sig.Some? && i < |t.sig.value.args| then At(t.sig.value.args[i], path[1..]) else None
      case Ret => if t.sig.Some? then At(t.sig.value.ret, path[1..]) else None
  }

  /** A path that enters no signature: what a value itself consists of. */
  predicate Plain(path: seq<Into>) { forall i :: 0 <= i < |path| ==> path[i].Element? || path[i].Field? }

  lemma {:induction false} CompatibleAt(dst: ASTType, src: ASTType, path: seq<Into>)
    requires MutCompatible(dst, src) && NilCompatible(dst, src) && Plain(path)
    ensures At(dst, path).Some? == At(src, path).Some?
    ensures At(dst, path).Some? ==>
              At(dst, path).value.mut <= At(src, path).value.mut && At(src, path).value.nullable <= At(dst, path).value.nullable
    decreases path
  {
    if path != [] {
      match path[0]
      case Element => if dst.element.Some? { CompatibleAt(dst.element.value, src.element.value, path[1..]); }
      case Field(i) =>
        if dst.fields.Struct? && i < |dst.fields.bindings| {
          CompatibleAt(dst.fields.bindings[i].t, src.fields.bindings[i].t, path[1..]);
        }
    }
  }

  lemma {:induction false} OwnedAt(dst: ASTType, src: ASTType, path: seq<Into>)
    requires SameOwned(dst, src) && At(dst, path).Some?
    ensures At(src, path).Some? && At(dst, path).value.owned == At(src, path).value.owned
    decreases path
  {
    if path != [] {
      match path[0]
      case Element => OwnedAt(dst.element.value, src.element.value, path[1..]);
      case Field(i) => OwnedAt(dst.fields.bindings[i].t, src.fields.bindings[i].t, path[1..]);
      case Arg(i) => OwnedAt(dst.sig.value.args[i], src.sig.value.args[i], path[1..]);
      case Ret => OwnedAt(dst.sig.value.ret, src.sig.value.ret, path[1..]);
    }
  }

  /** A type is one thing: a slice or array, a function pointer, a struct or a name. */
  predicate WellFormed(t: ASTType) {
    && (t.sig.Some? ==> t.element.None? && t.fields.NoStruct?) && (t.element.Some? ==> t.fields.NoStruct?)
    && (t.element.Some? ==> WellFormed(t.element.value))
    && (t.fields.Struct? ==> forall i :: 0 <= i < |t.fields.bindings| ==> WellFormed(t.fields.bindings[i].t))
    && (t.sig.Some? ==> WellFormedSig(t.sig.value))
  }

  predicate WellFormedSig(s: FuncSig) { (forall i :: 0 <= i < |s.args| ==> WellFormed(s.args[i])) && WellFormed(s.ret) }

  lemma {:induction false} NoneOwnedAt(t: ASTType, path: seq<Into>)
    requires WellFormed(t) && !HasOwned(t) && At(t, path).Some?
    ensures At(t, path).value.owned == {}
    decreases path
  {
    if path != [] {
      match path[0]
      case Element => NoneOwnedAt(t.element.value, path[1..]);
      case Field(i) => NoneOwnedAt(t.fields.bindings[i].t, path[1..]);
      case Arg(i) => NoneOwnedAt(t.sig.value.args[i], path[1..]);
      case Ret => NoneOwnedAt(t.sig.value.ret, path[1..]);
    }
  }

  /** Nothing at the end of a path becomes writable or owned, and nothing nullable
      becomes non-null. */
  predicate NoMoreAt(dst: ASTType, src: ASTType, path: seq<Into>) {
    At(dst, path).Some? ==>
      && At(src, path).Some?
      && At(dst, path).value.mut <= At(src, path).value.mut
      && At(src, path).value.nullable <= At(dst, path).value.nullable
      && At(dst, path).value.owned <= At(src, path).value.owned
  }

  /** Nothing that a value consists of, however deeply nested. */
  ghost predicate GainsNothing(dst: ASTType, src: ASTType) { forall path :: Plain(path) ==> NoMoreAt(dst, src, path) }

  lemma AcceptsGainsNothing(dst: ASTType, src: ASTType)
    requires WellFormed(dst) && Concrete(src) && Accepts(dst, src)
    ensures GainsNothing(dst, src)
  {
    hide SameOwned, MutCompatible, NilCompatible, StripOwned, HasOwned, SameExact, WellFormed, Plain;
    StripIgnored(dst, src);
    forall path | Plain(path) ensures NoMoreAt(dst, src, path) {
      CompatibleAt(dst, src, path);
      if At(dst, path).Some? {
        if HasOwned(dst) { OwnedAt(dst, src, path); } else { NoneOwnedAt(dst, path); }
      }
    }
  }

  /** Values that pass through any number of coercions: the last type accepts the
      first, and has gained nothing over it. */
  lemma {:induction false} ChainGainsNothing(ts: seq<ASTType>)
    requires ts != [] && (forall i :: 0 <= i < |ts| ==> Concrete(ts[i]) && WellFormed(ts[i]))
    requires forall i :: 0 < i < |ts| ==> Accepts(ts[i], ts[i - 1])
    ensures Accepts(ts[|ts| - 1], ts[0]) && GainsNothing(ts[|ts| - 1], ts[0])
  {
    hide Accepts, WellFormed, GainsNothing, Concrete;
    var n := |ts| - 1;
    if n == 0 {
      AcceptsReflexive(ts[0]);
    } else {
      ChainGainsNothing(ts[..n]);
      assert ts[..n][n - 1] == ts[n - 1];
      AcceptsTransitive(ts[n], ts[n - 1], ts[0]);
    }
    AcceptsGainsNothing(ts[n], ts[0]);
  }

  // ----- signatures -----

  /** Ownership is never gained, not even inside the signatures of function
      pointers: an owned part of the destination is owned by the source too. */
  lemma OwnershipNeverGained(dst: ASTType, src: ASTType, path: seq<Into>)
    requires WellFormed(dst) && Concrete(src) && Accepts(dst, src)
    requires At(dst, path).Some? && At(dst, path).value.owned != {}
    ensures At(src, path).Some? && At(src, path).value.owned == At(dst, path).value.owned
  {
    hide WellFormed, MutCompatible, NilCompatible, SameExact, SameOwned, HasOwned;
    if HasOwned(dst) { OwnedAt(dst, src, path); } else { NoneOwnedAt(dst, path); }
  }

  /** What is compared of function pointers: without ownership in the
      destination, the signature of the source plays no part. */
  lemma SignatureIgnored(dst: ASTType, src: ASTType, sig: Option<FuncSig>)
    requires !HasOwned(dst) && Concrete(src) && Concrete(src.(sig := sig))
    ensures Accepts(dst, src) == Accepts(dst, src.(sig := sig))
  {
  }

  /** A function pointer type accepts only its own argument and result types, up to
      qualifiers other than ownership, exactly if it owns something. */
  lemma SignatureComparedIfOwned(dst: ASTType)
    requires Concrete(dst) && dst.sig.Some?
    ensures (forall src :: Concrete(src) && Accepts(dst, src) ==>
               src.sig.Some? && SameOwnedSig(dst.sig.value, src.sig.value)) <==> HasOwned(dst)
  {
    if !HasOwned(dst) {
      var sig := dst.sig.value;
      var src := dst.(sig := Some(FuncSig(sig.args + [Named("i64")], sig.ret)));
      AcceptsReflexive(dst);
      SignatureIgnored(dst, dst, src.sig);
      assert Concrete(src) && Accepts(dst, src) && !SameOwnedSig(sig, src.sig.value);
    }
  }

  /** Whether a value of the type holds function pointers. */
  predicate HasSignature(t: ASTType) {
    || t.sig.Some?
    || (t.element.Some? && HasSignature(t.element.value))
    || (t.fields.Struct? && exists i :: 0 <= i < |t.fields.bindings| && HasSignature(t.fields.bindings[i].t))
  }

  /** The type with one more nullable level in the result of each of its function
      pointers. */
  ghost function Loosened(t: ASTType): ASTType {
    t.(element := if t.element.Some? then Some(Loosened(t.element.value)) else None,
       sig := if t.sig.Some? then Some(t.sig.value.(ret := t.sig.value.ret.(nullable := Unset(t.sig.value.ret)))) else None,
       fields := if t.fields.Struct? then
                   Struct(seq(|t.fields.bindings|, i requires 0 <= i < |t.fields.bindings| =>
                     Binding(t.fields.bindings[i].name, Loosened(t.fields.bindings[i].t))))
                 else NoStruct)
  }

  /** The nullable levels of a type and the lowest level above them. */
  ghost function Unset(t: ASTType): set<nat> { t.nullable + {Above(t.nullable)} }

  ghost function Above(levels: set<nat>): (n: nat)
    ensures forall k <- levels :: k < n
  {
    if levels == {} then 0
    else
      var k :| k in levels;
      var rest := Above(levels - {k});
      assert forall j <- levels :: j == k || j in levels - {k};
      if k < rest then rest else k + 1
  }

  lemma {:induction false} LoosenedAccepted(t: ASTType)
    ensures SameOwned(t, Loosened(t)) && MutCompatible(t, Loosened(t)) && NilCompatible(t, Loosened(t))
    decreases t
  {
    if t.element.Some? { LoosenedAccepted(t.element.value); }
    if t.sig.Some? {
      forall i | 0 <= i < |t.sig.value.args| ensures SameOwned(t.sig.value.args[i], t.sig.value.args[i]) {
        OwnedLikeItself(t.sig.value.args[i]);
      }
      OwnedLikeItself(t.sig.value.ret);
    }
    if t.fields.Struct? {
      forall i | 0 <= i < |t.fields.bindings|
        ensures SameOwned(t.fields.bindings[i].t, Loosened(t.fields.bindings[i].t))
        ensures MutCompatible(t.fields.bindings[i].t, Loosened(t.fields.bindings[i].t))
        ensures NilCompatible(t.fields.bindings[i].t, Loosened(t.fields.bindings[i].t))
      {
        LoosenedAccepted(t.fields.bindings[i].t);
      }
    }
  }

  lemma {:induction false} LoosenedDiffers(t: ASTType) returns (path: seq<Into>)
    requires HasSignature(t)
    ensures !NoMoreAt(t, Loosened(t), path)
    decreases t
  {
    if t.sig.Some? {
      path := [Ret];
      assert path[1..] == [];
      assert Above(t.sig.value.ret.nullable) !in t.sig.value.ret.nullable;
      assert Above(t.sig.value.ret.nullable) in Loosened(t).sig.value.ret.nullable;
    } else if t.element.Some? && HasSignature(t.element.value) {
      var rest := LoosenedDiffers(t.element.value);
      path := [Element] + rest;
      assert path[1..] == rest;
    } else {
      var i: nat :| i < |t.fields.bindings| && HasSignature(t.fields.bindings[i].t);
      var rest := LoosenedDiffers(t.fields.bindings[i].t);
      path := [Field(i)] + rest;
      assert path[1..] == rest;
    }
  }

  lemma {:induction false} OnlyPlainPaths(t: ASTType, path: seq<Into>)
    requires !HasSignature(t) && At(t, path).Some?
    ensures Plain(path)
    decreases path
  {
    if path != [] {
      match path[0] {
        case Element => OnlyPlainPaths(t.element.value, path[1..]);
        case Field(i) => OnlyPlainPaths(t.fields.bindings[i].t, path[1..]);
      }
      assert path == [path[0]] + path[1..];
    }
  }

  /** Whatever a type accepts, nothing is gained inside signatures either, exactly
      if the type holds no function pointers. */
  lemma NothingGainedInsideSignatures(dst: ASTType)
    requires WellFormed(dst) && Concrete(dst)
    ensures (forall src, path :: Concrete(src) && Accepts(dst, src) ==> NoMoreAt(dst, src, path)) <==> !HasSignature(dst)
  {
    hide WellFormed, MutCompatible, NilCompatible, SameOwned, HasOwned, Loosened;
    if HasSignature(dst) {
      var src := Loosened(dst);
      LoosenedAccepted(dst);
      LoosenedIsConcrete(dst);
      StripIgnored(dst, src);
      var path := LoosenedDiffers(dst);
      assert Concrete(src) && Accepts(dst, src) && !NoMoreAt(dst, src, path);
    } else {
      forall src, path | Concrete(src) && Accepts(dst, src) ensures NoMoreAt(dst, src, path) {
        AcceptsGainsNothing(dst, src);
        if At(dst, path).Some? { OnlyPlainPaths(dst, path); }
      }
    }
  }

  lemma LoosenedIsConcrete(t: ASTType)
    requires Concrete(t)
    ensures Concrete(Loosened(t))
  {
  }

  /** Pointers to functions of one and of two arguments accept each other. */
  lemma AcceptsOtherSignature()
    ensures var one := Named("").(sig := Some(FuncSig([Named("i64")], Named("i64"))));
            var two := Named("").(sig := Some(FuncSig([Named("i64"), Named("bool")], Named("bool"))));
            Accepts(one, two) && Accepts(two, one)
  {
  }

  /** An owned `fn(*i64) *mut i64` accepts an owned `fn(*mut i64) *i64`, whose
      argument it may be given read-only and whose result it may write through,
      and an owned `fn() *i64` accepts one whose result may be null. */
  lemma OwnedSignatureGains()
    ensures var read := Named("i64").(indirection := 1);
            var write := read.(mut := {0});
            var owned := Named("").(indirection := 1, owned := {0});
            var dst := owned.(sig := Some(FuncSig([read], write)));
            var src := owned.(sig := Some(FuncSig([write], read)));
            Accepts(dst, src) && Accepts(src, dst) && !NoMoreAt(dst, src, [Ret]) && !NoMoreAt(src, dst, [Arg(0)])
    ensures var read := Named("i64").(indirection := 1);
            var owned := Named("").(indirection := 1, owned := {0});
            var dst := owned.(sig := Some(FuncSig([], read)));
            var src := owned.(sig := Some(FuncSig([], read.(nullable := {0}))));
            Accepts(dst, src) && !NoMoreAt(dst, src, [Ret])
  {
    var read := Named("i64").(indirection := 1);
    var write := read.(mut := {0});
    assert [Ret][1..] == [] && [Arg(0)][1..] == [];
    assert 0 in write.mut && 0 !in read.mut && 0 in read.(nullable := {0}).nullable;
  }

  // ----- coercion -----

  /** The type a value of src takes on where dst is expected, if it may flow
      there; no integer literal makes a value of a values type. */
  function CoerceType(values: set<string>, dst: ASTType, src: ASTType): Option<ASTType>
    decreases dst
  {
    if SameExact(src, INTLIT) then (if dst.name in values then None else Some(dst))
    else if src.name == NIL then (if dst.indirection > 0 && 0 in dst.nullable then Some(dst) else None)
    else if Accepts(dst, src) then Some(src)
    else if IsArray(dst) && IsArray(src) && dst.arraySize == src.arraySize &&
            CoerceType(values, dst.element.value, src.element.value).Some?
    then Some(dst)
    else None
  }

  /** Outside arrays, coercing concrete types is accepting them. */
  lemma CoercionAccepts(values: set<string>, dst: ASTType, src: ASTType)
    requires Concrete(src) && !(IsArray(dst) && IsArray(src))
    ensures CoerceType(values, dst, src).Some? <==> Accepts(dst, src)
    ensures CoerceType(values, dst, src).Some? ==> CoerceType(values, dst, src).value == src
  {
  }

  /** Nil flows exactly where the same pointer flows that may be null, and becomes one
      of the destination's type; and from there wherever that type does. */
  lemma NilFlows(values: set<string>, dst: ASTType, nil: ASTType, further: ASTType)
    requires nil.name == NIL && !SameExact(nil, INTLIT) && Concrete(dst)
    ensures Accepts(dst, nil) <==> dst.indirection > 0 && Accepts(dst, dst.(nullable := dst.nullable + {0}))
    ensures CoerceType(values, dst, nil) == if Accepts(dst, nil) then Some(dst) else None
    ensures Accepts(dst, nil) && Accepts(further, dst) ==> Accepts(further, nil)
  {
    var loose := dst.(nullable := dst.nullable + {0});
    AcceptsReflexive(dst);
    StripIgnored(dst, loose);
    StripIgnored(dst, dst);
    StripIgnored(further, dst);
    if 0 in dst.nullable { assert loose.nullable == dst.nullable; }
    if Accepts(dst, loose) { assert 0 in loose.nullable; }
  }

  /** Between arrays of one length whose elements coerce, neither the name nor any
      pointer level or qualifier of the destination matters. */
  lemma ArrayQualifiersIgnored(values: set<string>, dst: ASTType, src: ASTType, name: string, depth: nat, mut: set<nat>,
                               owned: set<nat>, nullable: set<nat>)
    requires Concrete(src) && IsArray(dst) && IsArray(src) && dst.arraySize == src.arraySize
    requires CoerceType(values, dst.element.value, src.element.value).Some?
    ensures CoerceType(values, dst.(name := name, indirection := depth, mut := mut, owned := owned, nullable := nullable),
                       src).Some?
  {
  }

  /** Arrays are coerced by their elements alone: the array levels gain nothing if
      their own qualifiers do not. */
  predicate ArrayLevelsGainNothing(dst: ASTType, src: ASTType)
    decreases dst
  {
    || Accepts(dst, src)
    || (dst.mut <= src.mut && src.nullable <= dst.nullable && dst.owned <= src.owned &&
        (dst.element.Some? && src.element.Some? ==> ArrayLevelsGainNothing(dst.element.value, src.element.value)))
  }

  /** No integer literal or nil, nor an array of such. */
  predicate ConcreteElements(t: ASTType) { Concrete(t) && (IsArray(t) ==> ConcreteElements(t.element.value)) }

  /** A coercion gains nothing exactly if no array level that is not accepted as it
      is gains a qualifier. */
  lemma {:induction false} CoercionGainsNothing(values: set<string>, dst: ASTType, src: ASTType)
    requires WellFormed(dst) && WellFormed(src) && ConcreteElements(src) && CoerceType(values, dst, src).Some?
    ensures GainsNothing(dst, src) <==> ArrayLevelsGainNothing(dst, src)
    decreases dst
  {
    hide GainsNothing, Accepts;
    if Accepts(dst, src) {
      AcceptsGainsNothing(dst, src);
    } else {
      CoercionGainsNothing(values, dst.element.value, src.element.value);
      GainsByElements(dst, src);
    }
  }

  lemma GainsByElements(dst: ASTType, src: ASTType)
    requires WellFormed(dst) && dst.element.Some? && src.element.Some?
    ensures GainsNothing(dst, src) <==>
              dst.mut <= src.mut && src.nullable <= dst.nullable && dst.owned <= src.owned &&
              GainsNothing(dst.element.value, src.element.value)
  {
    var d, s := dst.element.value, src.element.value;
    if GainsNothing(dst, src) {
      assert Plain([]) && NoMoreAt(dst, src, []);
      forall path | Plain(path) ensures NoMoreAt(d, s, path) {
        var longer := [Element] + path;
        assert longer[1..] == path;
        assert Plain(longer) && NoMoreAt(dst, src, longer);
      }
    }
    if dst.mut <= src.mut && src.nullable <= dst.nullable && dst.owned <= src.owned && GainsNothing(d, s) {
      forall path: seq<Into> | Plain(path) ensures NoMoreAt(dst, src, path) {
        if path != [] && path[0].Element? { assert Plain(path[1..]) && NoMoreAt(d, s, path[1..]); }
      }
    }
  }

  /** An array thus coerces to a writable pointer to an array. */
  lemma ArrayCoercesToPointer()
    ensures var three := Named("").(arraySize := 3, element := Some(Named("i64")));
            var pointer := three.(indirection := 1, mut := {1});
            CoerceType({}, pointer, three).Some? && !Accepts(pointer, three) && !GainsNothing(pointer, three)
  {
    var three := Named("").(arraySize := 3, element := Some(Named("i64")));
    var pointer := three.(indirection := 1, mut := {1});
    AcceptsReflexive(Named("i64"));
    StripIgnored(pointer, three);
    assert CoerceType({}, three.element.value, three.element.value).Some?;
    CoercionGainsNothing({}, pointer, three);
    assert 1 in pointer.mut && 1 !in three.mut;
  }
}
