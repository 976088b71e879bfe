/** Exactly which types accept which, told by what stands along their paths. */
module TypePaths {
  import opened Wrappers
  import opened Types

  /** The same pointers to the same kind of thing, whatever that consists of. */
  predicate Alike(a: ASTType, b: ASTType) {
    && a.name == b.name && a.indirection == b.indirection && a.arraySize == b.arraySize
    && a.element.Some? == b.element.Some? && a.fields.Struct? == b.fields.Struct?
    && (a.fields.Struct? ==>
          |a.fields.bindings| == |b.fields.bindings| &&
          forall i :: 0 <= i < |a.fields.bindings| ==> a.fields.bindings[i].name == b.fields.bindings[i].name)
  }

  /** What stands at the end of the path in both may be written no more in the
      destination, and be null no less. */
  predicate FlowsAt(dst: ASTType, src: ASTType, path: seq<Into>) {
    var d, s := At(dst, path), At(src, path);
    if d.None? || s.None? then d.None? && s.None?
    else Alike(d.value, s.value) && d.value.mut <= s.value.mut && s.value.nullable <= d.value.nullable
  }

  /** As many arguments, if it is a function pointer. */
  predicate SameArity(a: ASTType, b: ASTType) {
    a.sig.Some? == b.sig.Some? && (a.sig.Some? ==> |a.sig.value.args| == |b.sig.value.args|)
  }

  /** The same thing is owned at the end of the path. */
  predicate OwnsAt(dst: ASTType, src: ASTType, path: seq<Into>) {
    var d, s := At(dst, path), At(src, path);
    if d.None? || s.None? then d.None? && s.None?
    else Alike(d.value, s.value) && SameArity(d.value, s.value) && d.value.owned == s.value.owned
  }

  ghost predicate Flows(dst: ASTType, src: ASTType) { forall path :: Plain(path) ==> FlowsAt(dst, src, path) }

  ghost predicate Owns(dst: ASTType, src: ASTType) { forall path :: OwnsAt(dst, src, path) }

  /** Something is owned, be it an argument or result of a function pointer. */
  ghost predicate OwnsSomething(t: ASTType) { exists path :: OwnedThere(t, path) }

  predicate OwnedThere(t: ASTType, path: seq<Into>) { At(t, path).Some? && At(t, path).value.owned != {} }

  // ----- one step down a path -----

  function Below(t: ASTType, i: Into): Option<ASTType> {
    match i
    case Element => t.element
    case Field(j) => if t.fields.Struct? && j < |t.fields.bindings| then Some(t.fields.bindings[j].t) else None
    case Arg(j) => if t.sig.Some? && j < |t.sig.value.args| then Some(t.sig.value.args[j]) else None
    case Ret => if t.sig.Some? then Some(t.sig.value.ret) else None
  }

  lemma AtBelow(t: ASTType, i: Into, path: seq<Into>)
    ensures At(t, [i] + path) == if Below(t, i).Some? then At(Below(t, i).value, path) else None
    ensures At(t, [i]) == Below(t, i)
  {
    assert ([i] + path)[0] == i && ([i] + path)[1..] == path && [i][1..] == [];
  }

  lemma FlowsBelow(dst: ASTType, src: ASTType, i: Into)
    requires Flows(dst, src) && (i.Element? || i.Field?)
    ensures Below(dst, i).Some? == Below(src, i).Some?
    ensures Below(dst, i).Some? ==> Flows(Below(dst, i).value, Below(src, i).value)
  {
    hide Alike, At;
    assert Plain([i]) && FlowsAt(dst, src, [i]);
    AtBelow(dst, i, []);
    AtBelow(src, i, []);
    if Below(dst, i).Some? {
      var d, s := Below(dst, i).value, Below(src, i).value;
      forall path | Plain(path) ensures FlowsAt(d, s, path) {
        AtBelow(dst, i, path);
        AtBelow(src, i, path);
        assert Plain([i] + path) && FlowsAt(dst, src, [i] + path);
      }
    }
  }

  lemma OwnsBelow(dst: ASTType, src: ASTType, i: Into)
    requires Owns(dst, src)
    ensures Below(dst, i).Some? == Below(src, i).Some?
    ensures Below(dst, i).Some? ==> Owns(Below(dst, i).value, Below(src, i).value)
  {
    hide Alike, At, SameArity;
    assert OwnsAt(dst, src, [i]);
    AtBelow(dst, i, []);
    AtBelow(src, i, []);
    if Below(dst, i).Some? {
      var d, s := Below(dst, i).value, Below(src, i).value;
      forall path ensures OwnsAt(d, s, path) {
        AtBelow(dst, i, path);
        AtBelow(src, i, path);
        assert OwnsAt(dst, src, [i] + path);
      }
    }
  }

  // ----- the compiler's comparisons -----

  lemma {:induction false} CompatibleFlows(dst: ASTType, src: ASTType, path: seq<Into>)
    requires MutCompatible(dst, src) && NilCompatible(dst, src) && Plain(path)
    ensures FlowsAt(dst, src, path)
    decreases path
  {
    if path != [] {
      match path[0]
      case Element => if dst.element.Some? { CompatibleFlows(dst.element.value, src.element.value, path[1..]); }
      case Field(i) =>
        if dst.fields.Struct? && i < |dst.fields.bindings| {
          CompatibleFlows(dst.fields.bindings[i].t, src.fields.bindings[i].t, path[1..]);
        }
    }
  }

  lemma {:induction false} FlowsCompatible(dst: ASTType, src: ASTType)
    requires Flows(dst, src)
    ensures MutCompatible(dst, src) && NilCompatible(dst, src)
    decreases dst
  {
    hide Flows;
    assert Plain([]) && FlowsAt(dst, src, []) by { FlowsHere(dst, src); }
    if dst.element.Some? {
      FlowsBelow(dst, src, Element);
      FlowsCompatible(dst.element.value, src.element.value);
    }
    if dst.fields.Struct? {
      forall i: nat | i < |dst.fields.bindings|
        ensures MutCompatible(dst.fields.bindings[i].t, src.fields.bindings[i].t)
        ensures NilCompatible(dst.fields.bindings[i].t, src.fields.bindings[i].t)
      {
        FlowsBelow(dst, src, Field(i));
        FlowsCompatible(dst.fields.bindings[i].t, src.fields.bindings[i].t);
      }
    }
  }

  lemma FlowsHere(dst: ASTType, src: ASTType)
    requires Flows(dst, src)
    ensures FlowsAt(dst, src, [])
  {
    assert Plain([]);
  }

  lemma {:induction false} SameOwnedOwns(dst: ASTType, src: ASTType, path: seq<Into>)
    requires SameOwned(dst, src)
    ensures OwnsAt(dst, src, path)
    decreases path
  {
    if path != [] {
      match path[0]
      case Element => if dst.element.Some? { SameOwnedOwns(dst.element.value, src.element.value, path[1..]); }
      case Field(i) =>
        if dst.fields.Struct? && i < |dst.fields.bindings| {
          SameOwnedOwns(dst.fields.bindings[i].t, src.fields.bindings[i].t, path[1..]);
        }
      case Arg(i) =>
        if dst.sig.Some? && i < |dst.sig.value.args| {
          SameOwnedOwns(dst.sig.value.args[i], src.sig.value.args[i], path[1..]);
        }
      case Ret => if dst.sig.Some? { SameOwnedOwns(dst.sig.value.ret, src.sig.value.ret, path[1..]); }
    }
  }

  lemma OwnsBelowIs(dst: ASTType, src: ASTType, i: Into, d: ASTType, s: ASTType)
    requires Owns(dst, src) && Below(dst, i) == Some(d) && Below(src, i) == Some(s)
    ensures Owns(d, s)
  {
    OwnsBelow(dst, src, i);
  }

  lemma {:induction false} OwnsSameOwned(dst: ASTType, src: ASTType)
    requires Owns(dst, src)
    ensures SameOwned(dst, src)
    decreases dst
  {
    assert OwnsAt(dst, src, []);
    hide Owns, At;
    if dst.element.Some? {
      OwnsBelowIs(dst, src, Element, dst.element.value, src.element.value);
      OwnsSameOwned(dst.element.value, src.element.value);
    }
    if dst.sig.Some? {
      forall i: nat | i < |dst.sig.value.args| ensures SameOwned(dst.sig.value.args[i], src.sig.value.args[i]) {
        OwnsBelowIs(dst, src, Arg(i), dst.sig.value.args[i], src.sig.value.args[i]);
        OwnsSameOwned(dst.sig.value.args[i], src.sig.value.args[i]);
      }
      OwnsBelowIs(dst, src, Ret, dst.sig.value.ret, src.sig.value.ret);
      OwnsSameOwned(dst.sig.value.ret, src.sig.value.ret);
    }
    if dst.fields.Struct? {
      forall i: nat | i < |dst.fields.bindings| ensures SameOwned(dst.fields.bindings[i].t, src.fields.bindings[i].t) {
        OwnsBelowIs(dst, src, Field(i), dst.fields.bindings[i].t, src.fields.bindings[i].t);
        OwnsSameOwned(dst.fields.bindings[i].t, src.fields.bindings[i].t);
      }
    }
  }

  // ----- what owns something -----

  lemma {:induction false} OwnedSomewhere(t: ASTType)
    requires HasOwned(t)
    ensures OwnsSomething(t)
    decreases t
  {
    hide OwnsSomething;
    if t.owned != {} {
      OwnedHere(t, []);
    } else if t.element.Some? && HasOwned(t.element.value) {
      OwnedSomewhere(t.element.value);
      OwnedAbove(t, Element, t.element.value);
    } else if t.sig.Some? && HasOwned(t.sig.value.ret) {
      OwnedSomewhere(t.sig.value.ret);
      OwnedAbove(t, Ret, t.sig.value.ret);
    } else if t.sig.Some? {
      var i: nat :| i < |t.sig.value.args| && HasOwned(t.sig.value.args[i]);
      OwnedSomewhere(t.sig.value.args[i]);
      OwnedAbove(t, Arg(i), t.sig.value.args[i]);
    } else {
      var i: nat :| i < |t.fields.bindings| && HasOwned(t.fields.bindings[i].t);
      OwnedSomewhere(t.fields.bindings[i].t);
      OwnedAbove(t, Field(i), t.fields.bindings[i].t);
    }
  }

  lemma OwnedHere(t: ASTType, path: seq<Into>)
    requires OwnedThere(t, path)
    ensures OwnsSomething(t)
  {
  }

  lemma OwnedAbove(t: ASTType, i: Into, below: ASTType)
    requires OwnsSomething(below)
    requires Below(t, i) == Some(below)
    ensures OwnsSomething(t)
  {
    var path :| OwnedThere(below, path);
    AtBelow(t, i, path);
    OwnedHere(t, [i] + path);
  }

  /** A type accepts a concrete one exactly if, along all paths through elements and
      fields, it is the same kind of thing, with nothing that may be written more or be
      null less; and if it owns something, then along all paths, signatures included,
      exactly the same is owned of the same things. */
  lemma AcceptsExactly(dst: ASTType, src: ASTType)
    requires WellFormed(dst) && Concrete(src)
    ensures Accepts(dst, src) <==> Flows(dst, src) && (OwnsSomething(dst) ==> Owns(dst, src))
  {
    hide WellFormed, MutCompatible, NilCompatible, SameOwned, HasOwned, StripOwned, FlowsAt, OwnsAt, Plain, At;
    StripIgnored(dst, src);
    if MutCompatible(dst, src) && NilCompatible(dst, src) {
      forall path | Plain(path) ensures FlowsAt(dst, src, path) { CompatibleFlows(dst, src, path); }
    }
    if Flows(dst, src) { FlowsCompatible(dst, src); }
    if SameOwned(dst, src) {
      forall path ensures OwnsAt(dst, src, path) { SameOwnedOwns(dst, src, path); }
    }
    if Owns(dst, src) { OwnsSameOwned(dst, src); }
    if HasOwned(dst) {
      OwnedSomewhere(dst);
    } else {
      forall path ensures !OwnedThere(dst, path) { if At(dst, path).Some? { NoneOwnedAt(dst, path); } }
    }
  }

  /** Only the type of an integer literal is taken for one. */
  lemma {:induction false} SameIsEqual(a: ASTType, b: ASTType)
    ensures SameExact(a, b) <==> a == b
    decreases a
  {
    if a.element.Some? && b.element.Some? { SameIsEqual(a.element.value, b.element.value); }
    if a.sig.Some? && b.sig.Some? {
      SameIsEqual(a.sig.value.ret, b.sig.value.ret);
      if |a.sig.value.args| == |b.sig.value.args| {
        forall i | 0 <= i < |a.sig.value.args| ensures SameExact(a.sig.value.args[i], b.sig.value.args[i]) <==>
                                                       a.sig.value.args[i] == b.sig.value.args[i] {
          SameIsEqual(a.sig.value.args[i], b.sig.value.args[i]);
        }
      }
    }
    if a.fields.Struct? && b.fields.Struct? && |a.fields.bindings| == |b.fields.bindings| {
      forall i | 0 <= i < |a.fields.bindings| ensures SameExact(a.fields.bindings[i].t, b.fields.bindings[i].t) <==>
                                                      a.fields.bindings[i].t == b.fields.bindings[i].t {
        SameIsEqual(a.fields.bindings[i].t, b.fields.bindings[i].t);
      }
    }
    if SameExact(a, b) {
      if a.sig.Some? {
        assert SameSig(a.sig.value, b.sig.value);
        forall i | 0 <= i < |a.sig.value.args| ensures a.sig.value.args[i] == b.sig.value.args[i] { }
        assert a.sig.value.args == b.sig.value.args;
      }
      if a.fields.Struct? {
        forall i | 0 <= i < |a.fields.bindings| ensures a.fields.bindings[i] == b.fields.bindings[i] { }
        assert a.fields.bindings == b.fields.bindings;
      }
    }
  }

  // ----- literals -----

  /** The type of a list of lists ... of integer literals that is as long as arrays of
      some type are, at each level. */
  function LiteralFor(t: ASTType): ASTType {
    if IsArray(t) then Named("").(arraySize := t.arraySize, element := Some(LiteralFor(t.element.value))) else INTLIT
  }

  /** What the arrays hold in the end. */
  function Innermost(t: ASTType): ASTType { if IsArray(t) then Innermost(t.element.value) else t }

  /** Integer literals, alone or in lists of any depth, flow into any type of that length,
      which they take on, exactly if what it holds is no values type. */
  lemma {:induction false} LiteralsFlow(values: set<string>, dst: ASTType)
    requires INTLIT.name !in values
    ensures CoerceType(values, dst, LiteralFor(dst)).Some? <==> Innermost(dst).name !in values
    ensures CoerceType(values, dst, LiteralFor(dst)).Some? && !Accepts(dst, LiteralFor(dst)) ==>
              CoerceType(values, dst, LiteralFor(dst)).value == dst
    ensures Accepts(dst, INTLIT) && (dst.name !in values ==> CoerceType(values, dst, INTLIT) == Some(dst))
    decreases dst
  {
    if IsArray(dst) {
      LiteralsFlow(values, dst.element.value);
      var src := LiteralFor(dst);
      assert !SameExact(src, INTLIT) && src.name != NIL;
      if Accepts(dst, src) {
        StripIgnored(dst, src);
        AcceptedLiterals(dst);
      }
    }
  }

  /** Without a coercion they flow only into their own type. */
  lemma {:induction false} AcceptedLiterals(dst: ASTType)
    requires MutCompatible(dst, LiteralFor(dst))
    ensures Innermost(dst).name == INTLIT.name
    decreases dst
  {
    if IsArray(dst) { AcceptedLiterals(dst.element.value); }
  }
}
