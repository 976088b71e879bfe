/** Shape words and mangled shapes (cmd/bosc/shape.go): the pointer, slice and
    array constructors of a type as a 64-bit number and as part of a symbol. */
module Shape {
  import opened Wrappers
  import opened Types

  /** One constructor; only an array has a length. */
  datatype Level = Level(kind: nat, arrayLen: nat)

  const PTR: nat := 1
  const MUT_PTR: nat := 2
  const SLICE: nat := 3
  const MUT_SLICE: nat := 4
  const ARRAY: nat := 5
  const NULL_PTR: nat := 6
  const NULL_MUT: nat := 7

  const ARRAY_LEN_MAX: nat := 8191
  const MAX_LEVELS: nat := 20

  predicate ValidLevel(l: Level) {
    1 <= l.kind <= 7 && if l.kind == ARRAY then 1 <= l.arrayLen <= ARRAY_LEN_MAX else l.arrayLen == 0
  }

  ghost predicate ValidStack(ls: seq<Level>) { forall i :: 0 <= i < |ls| ==> ValidLevel(ls[i]) }

  // ----- from types to stacks -----

  function PointerKind(t: ASTType, i: nat): nat {
    var mut, nul := i + 1 in t.mut, i in t.nullable;
    if nul && mut then NULL_MUT else if nul then NULL_PTR else if mut then MUT_PTR else PTR
  }

  /** The pointer levels from the outermost, which has the highest number. */
  function Pointers(t: ASTType, n: nat): (ls: seq<Level>)
    ensures |ls| == n
  {
    if n == 0 then [] else [Level(PointerKind(t, n - 1), 0)] + Pointers(t, n - 1)
  }

  /** The slice or array constructor of a type that has an element. */
  function ListLevel(t: ASTType): Level {
    if t.arraySize > 0 then Level(ARRAY, t.arraySize)
    else Level(if t.indirection + 1 in t.mut then MUT_SLICE else SLICE, 0)
  }

  predicate LengthsFit(t: ASTType) { t.element.Some? ==> t.arraySize <= ARRAY_LEN_MAX && LengthsFit(t.element.value) }

  /** The constructors, outermost first. */
  function Outer(t: ASTType): seq<Level> {
    Pointers(t, t.indirection) + if t.element.Some? then [ListLevel(t)] + Outer(t.element.value) else []
  }

  function Reversed(ls: seq<Level>): (r: seq<Level>)
    ensures |r| == |ls|
  {
    if ls == [] then [] else Reversed(ls[1..]) + [ls[0]]
  }

  /** The constructor stack, innermost first; `None` if it cannot be encoded. */
  function StackFor(t: ASTType): Option<seq<Level>> {
    if !LengthsFit(t) || |Outer(t)| > MAX_LEVELS then None else Some(Reversed(Outer(t)))
  }

  method ShapeStackFor(t: ASTType) returns (levels: Option<seq<Level>>)
    ensures levels == StackFor(t)
  {
    hide Outer, Pointers, PointerKind;
    var outer := OutermostFirst(t);
    if outer.None? { return None; }
    var stack: seq<Level> := [];
    var j := |outer.value|;
    while j > 0
      invariant 0 <= j <= |outer.value| && stack == Reversed(outer.value[j..])
    {
      j := j - 1;
      assert outer.value[j..][0] == outer.value[j] && outer.value[j..][1..] == outer.value[j + 1..];
      stack := stack + [outer.value[j]];
    }
    assert outer.value[0..] == outer.value;
    levels := if |stack| > MAX_LEVELS then None else Some(stack);
  }

  /** Walks the type from the outside in. */
  method OutermostFirst(t: ASTType) returns (levels: Option<seq<Level>>)
    ensures levels == if LengthsFit(t) then Some(Outer(t)) else None
  {
    hide Pointers, PointerKind;
    var outer: seq<Level> := [];
    var cur := t;
    assert outer + Outer(cur) == Outer(t);
    while cur.element.Some?
      invariant outer + Outer(cur) == Outer(t) && LengthsFit(t) == LengthsFit(cur)
      decreases cur
    {
      var pointers := PointerLevels(cur);
      var l: Level;
      if cur.arraySize > 0 {
        if cur.arraySize > ARRAY_LEN_MAX { return None; }
        l := Level(ARRAY, cur.arraySize);
      } else {
        l := Level(if cur.indirection + 1 in cur.mut then MUT_SLICE else SLICE, 0);
      }
      assert outer + Outer(cur) == outer + pointers + [l] + Outer(cur.element.value);
      outer := outer + pointers + [l];
      cur := cur.element.value;
    }
    var pointers := PointerLevels(cur);
    assert pointers == Outer(cur);
    return Some(outer + pointers);
  }

  method PointerLevels(t: ASTType) returns (ls: seq<Level>)
    ensures ls == Pointers(t, t.indirection)
  {
    ls := [];
    var i := t.indirection;
    while i > 0
      invariant 0 <= i <= t.indirection && ls + Pointers(t, i) == Pointers(t, t.indirection)
    {
      i := i - 1;
      var mut, nul := i + 1 in t.mut, i in t.nullable;
      var k := if nul && mut then NULL_MUT else if nul then NULL_PTR else if mut then MUT_PTR else PTR;
      assert Pointers(t, i + 1) == [Level(k, 0)] + Pointers(t, i);
      assert ls + ([Level(k, 0)] + Pointers(t, i)) == ls + [Level(k, 0)] + Pointers(t, i);
      ls := ls + [Level(k, 0)];
    }
  }

  // ----- shape words -----

  function Pow2(n: nat): (p: nat)
    ensures p > 0
  {
    if n == 0 then 1 else 2 * Pow2(n - 1)
  }

  function WidthOf(l: Level): nat { if l.kind == ARRAY then 16 else 3 }

  /** The kind, and behind it the length of an array. */
  function Field(l: Level): nat { if l.kind == ARRAY then l.kind + 8 * l.arrayLen else l.kind }

  function Bits(ls: seq<Level>): nat { if ls == [] then 0 else WidthOf(ls[0]) + Bits(ls[1..]) }

  /** The levels one above the other, the first in the lowest bits. */
  function Payload(ls: seq<Level>): nat {
    if ls == [] then 0 else Field(ls[0]) + Pow2(WidthOf(ls[0])) * Payload(ls[1..])
  }

  /** The word of a stack, if it fits in 64 bits: the number of levels modulo 16,
      then the levels. */
  function WordFor(ls: seq<Level>): Option<nat> {
    if 4 + Bits(ls) > 64 then None else Some(|ls| % 16 + 16 * Payload(ls))
  }

  lemma Pow2Sum(a: nat, b: nat)
    ensures Pow2(a + b) == Pow2(a) * Pow2(b)
  {
    if a > 0 {
      Pow2Sum(a - 1, b);
      assert Pow2(a + b) == 2 * (Pow2(a - 1) * Pow2(b)) == Pow2(a) * Pow2(b);
    }
  }

  lemma {:induction false} BitsSnoc(ls: seq<Level>, l: Level)
    ensures Bits(ls + [l]) == Bits(ls) + WidthOf(l)
  {
    if ls == [] { assert [] + [l] == [l]; } else {
      assert (ls + [l])[1..] == ls[1..] + [l];
      BitsSnoc(ls[1..], l);
    }
  }

  lemma {:induction false} PayloadSnoc(ls: seq<Level>, l: Level)
    ensures Payload(ls + [l]) == Payload(ls) + Pow2(Bits(ls)) * Field(l)
  {
    if ls == [] {
      assert [] + [l] == [l];
    } else {
      assert (ls + [l])[1..] == ls[1..] + [l];
      PayloadSnoc(ls[1..], l);
      Pow2Sum(WidthOf(ls[0]), Bits(ls[1..]));
      hide Pow2, Field, WidthOf;
      var p, q := Pow2(WidthOf(ls[0])), Pow2(Bits(ls[1..]));
      Distribute(p, Payload(ls[1..]), q * Field(l));
      Associate(p, q, Field(l));
    }
  }

  lemma Distribute(p: nat, a: nat, b: nat)
    ensures p * (a + b) == p * a + p * b
  {
  }

  lemma Associate(p: nat, q: nat, f: nat)
    ensures p * (q * f) == p * q * f
  {
  }

  /** A field of some width at the cursor, or an error if it does not fit. */
  method Put(w: nat, cursor: nat, val: nat, width: nat) returns (r: Option<(nat, nat)>)
    requires val < Pow2(width)
    ensures r == if cursor + width > 64 then None else Some((w + val * Pow2(cursor), cursor + width))
  {
    hide Pow2;
    if cursor + width > 64 { return None; }
    Fits(val, Pow2(width));
    return Some((w + val % Pow2(width) * Pow2(cursor), cursor + width));
  }

  lemma Fits(x: nat, p: nat)
    requires x < p
    ensures x % p == x
  {
  }

  lemma Powers()
    ensures Pow2(3) == 8 && Pow2(4) == 16 && Pow2(13) == 8192 && Pow2(16) == 65536
  {
  }

  method ShapeWordFor(t: ASTType) returns (w: Option<nat>)
    ensures w == if StackFor(t).None? then None else WordFor(StackFor(t).value)
  {
    var levels := ShapeStackFor(t);
    if levels.None? { return None; }
    StackIsValid(t);
    w := WordOf(levels.value);
  }

  method WordOf(levels: seq<Level>) returns (r: Option<nat>)
    requires ValidStack(levels)
    ensures r == WordFor(levels)
  {
    hide Payload, Bits, Pow2;
    var w, cursor := |levels| % 16, 4;
    NoLevels();
    Powers();
    assert levels[..0] == [];
    for i := 0 to |levels|
      invariant w == |levels| % 16 + 16 * Payload(levels[..i]) && cursor == 4 + Bits(levels[..i]) <= 64
    {
      assert levels[..i + 1] == levels[..i] + [levels[i]];
      assert ValidLevel(levels[i]);
      BitsSnoc(levels[..i], levels[i]);
      PayloadSnoc(levels[..i], levels[i]);
      BitsGrow(levels, i + 1);
      var b := Bits(levels[..i]);
      Pow2Sum(4, b);
      Pow2Sum(b, 3);
      Pow2Sum(3, cursor);
      var kind := Put(w, cursor, levels[i].kind, 3);
      if kind.None? { return None; }
      ghost var was := w;
      w, cursor := kind.value.0, kind.value.1;
      if levels[i].kind == ARRAY {
        var len := Put(w, cursor, levels[i].arrayLen, 13);
        if len.None? { return None; }
        w, cursor := len.value.0, len.value.1;
      }
      FieldAt(b, levels[i], was, w);
    }
    assert levels[..|levels|] == levels;
    return Some(w);
  }

  lemma NoLevels()
    ensures Payload([]) == 0 && Bits([]) == 0
  {
  }

  lemma {:induction false} BitsGrow(ls: seq<Level>, i: nat)
    requires i <= |ls|
    ensures Bits(ls[..i]) <= Bits(ls)
    decreases |ls| - i
  {
    if i == |ls| { assert ls[..i] == ls; } else {
      assert ls[..i + 1] == ls[..i] + [ls[i]];
      BitsSnoc(ls[..i], ls[i]);
      BitsGrow(ls, i + 1);
    }
  }

  /** What the two fields of a level add to the word. */
  lemma FieldAt(b: nat, l: Level, before: nat, after: nat)
    requires after == before + l.kind * Pow2(4 + b) + if l.kind == ARRAY then l.arrayLen * Pow2(4 + b + 3) else 0
    ensures after == before + 16 * (Pow2(b) * Field(l))
  {
    Powers();
    Pow2Sum(4, b);
    Pow2Sum(3, 4 + b);
    var p := Pow2(b);
    assert l.kind * (16 * p) == 16 * (p * l.kind);
    if l.kind == ARRAY {
      assert l.arrayLen * (8 * (16 * p)) == 16 * (p * (8 * l.arrayLen));
      Distribute(p, l.kind, 8 * l.arrayLen);
    }
  }

  /** The stack that a payload spells: levels until nothing is left. */
  function Unstack(w: nat, fuel: nat): seq<Level> {
    if w == 0 || fuel == 0 then []
    else
      var kind, rest := w % 8, w / 8;
      if kind == ARRAY then [Level(ARRAY, rest % 8192)] + Unstack(rest / 8192, fuel - 1)
      else [Level(kind, 0)] + Unstack(rest, fuel - 1)
  }

  /** The 4-bit count is not needed to read a word: every kind is non-zero, so
      the levels end where only zero bits remain. */
  lemma {:induction false} UnstackPayload(ls: seq<Level>, fuel: nat)
    requires ValidStack(ls) && fuel >= |ls|
    ensures Unstack(Payload(ls), fuel) == ls
    decreases |ls|
  {
    if ls != [] {
      var l, rest := ls[0], Payload(ls[1..]);
      assert ValidLevel(l);
      Powers();
      assert ValidStack(ls[1..]);
      UnstackPayload(ls[1..], fuel - 1);
      hide Pow2;
      if l.kind == ARRAY {
        assert Payload(ls) == l.kind + 8 * (l.arrayLen + 8192 * rest);
        Split8(l.kind, l.arrayLen + 8192 * rest);
        Split8192(l.arrayLen, rest);
      } else {
        assert Payload(ls) == l.kind + 8 * rest;
        Split8(l.kind, rest);
      }
      assert ls == [l] + ls[1..];
    }
  }

  lemma Split8(low: nat, high: nat)
    requires low < 8
    ensures (low + 8 * high) % 8 == low && (low + 8 * high) / 8 == high
  {
  }

  lemma Split16(low: nat, high: nat)
    requires low < 16
    ensures (low + 16 * high) % 16 == low && (low + 16 * high) / 16 == high
  {
  }

  lemma Split8192(low: nat, high: nat)
    requires low < 8192
    ensures (low + 8192 * high) % 8192 == low && (low + 8192 * high) / 8192 == high
  {
  }

  function StackOfWord(w: nat): seq<Level> { Unstack(w / 16, 64) }

  /** A word gives its stack back, even where the count wraps around. */
  lemma WordGivesStack(ls: seq<Level>)
    requires ValidStack(ls) && WordFor(ls).Some?
    ensures StackOfWord(WordFor(ls).value) == ls
  {
    hide Payload, Bits, Unstack;
    LevelsFit(ls);
    UnstackPayload(ls, 64);
    Split16(|ls| % 16, Payload(ls));
  }

  lemma {:induction false} LevelsFit(ls: seq<Level>)
    ensures |ls| <= Bits(ls)
  {
    if ls != [] { LevelsFit(ls[1..]); }
  }

  /** The count alone does not tell stacks of up to 20 levels apart. */
  lemma CountWraps()
    ensures var few, many := [Level(PTR, 0)], seq(17, _ => Level(PTR, 0));
            WordFor(few).Some? && WordFor(many).Some? && WordFor(few).value % 16 == WordFor(many).value % 16
  {
    var many := seq(17, _ => Level(PTR, 0));
    assert forall i :: 0 <= i < 17 ==> WidthOf(many[i]) == 3;
    EvenBits(many);
    EvenBits([Level(PTR, 0)]);
  }

  lemma {:induction false} EvenBits(ls: seq<Level>)
    requires forall i :: 0 <= i < |ls| ==> WidthOf(ls[i]) == 3
    ensures Bits(ls) == 3 * |ls|
  {
    if ls != [] { EvenBits(ls[1..]); }
  }

  // ----- what a word says of a type -----

  lemma {:induction false} ReversedValid(ls: seq<Level>)
    requires ValidStack(ls)
    ensures ValidStack(Reversed(ls))
  {
    if ls != [] { ReversedValid(ls[1..]); }
  }

  lemma {:induction false} PointersValid(t: ASTType, n: nat)
    ensures ValidStack(Pointers(t, n))
  {
    if n > 0 { PointersValid(t, n - 1); }
  }

  lemma {:induction false} OuterValid(t: ASTType)
    requires LengthsFit(t)
    ensures ValidStack(Outer(t))
    decreases t
  {
    PointersValid(t, t.indirection);
    if t.element.Some? { OuterValid(t.element.value); }
  }

  lemma StackIsValid(t: ASTType)
    ensures StackFor(t).Some? ==> ValidStack(StackFor(t).value)
  {
    if StackFor(t).Some? {
      OuterValid(t);
      ReversedValid(Outer(t));
    }
  }

  lemma {:induction false} ReversedInjective(a: seq<Level>, b: seq<Level>)
    requires Reversed(a) == Reversed(b)
    ensures a == b
    decreases |a|
  {
    if a != [] {
      var n := |a| - 1;
      assert Reversed(a)[..n] == Reversed(a[1..]) && Reversed(b)[..n] == Reversed(b[1..]);
      assert Reversed(a)[n] == a[0] && Reversed(b)[n] == b[0];
      ReversedInjective(a[1..], b[1..]);
    }
  }

  predicate SameLevel(t: ASTType, u: ASTType, i: nat) {
    (i + 1 in t.mut <==> i + 1 in u.mut) && (i in t.nullable <==> i in u.nullable)
  }

  /** The two types have the same constructors, with the same qualifiers. */
  predicate SameShape(t: ASTType, u: ASTType) {
    && t.indirection == u.indirection
    && (forall i :: 0 <= i < t.indirection ==> SameLevel(t, u, i))
    && t.element.Some? == u.element.Some?
    && (t.element.Some? ==>
          && t.arraySize == u.arraySize && (t.arraySize == 0 ==> (t.indirection + 1 in t.mut <==> u.indirection + 1 in u.mut))
          && SameShape(t.element.value, u.element.value))
  }

  predicate IsPointer(l: Level) { l.kind == PTR || l.kind == MUT_PTR || l.kind == NULL_PTR || l.kind == NULL_MUT }

  lemma {:induction false} PointersAt(t: ASTType, n: nat, j: nat)
    requires j < n
    ensures Pointers(t, n)[j] == Level(PointerKind(t, n - 1 - j), 0)
  {
    if j > 0 { PointersAt(t, n - 1, j - 1); }
  }

  /** Where the pointers of a type end, there is a list level or nothing. */
  lemma OuterParts(t: ASTType)
    ensures |Outer(t)| >= t.indirection && forall j :: 0 <= j < t.indirection ==> IsPointer(Outer(t)[j])
    ensures t.element.Some? ==>
              |Outer(t)| > t.indirection && Outer(t)[t.indirection] == ListLevel(t) &&
              Outer(t)[t.indirection + 1..] == Outer(t.element.value)
    ensures t.element.None? ==> |Outer(t)| == t.indirection
  {
    forall j | 0 <= j < t.indirection ensures IsPointer(Outer(t)[j]) { PointersAt(t, t.indirection, j); }
  }

  lemma KindTells(t: ASTType, u: ASTType, i: nat)
    requires PointerKind(t, i) == PointerKind(u, i)
    ensures SameLevel(t, u, i)
  {
  }

  lemma {:induction false} OuterDetermines(t: ASTType, u: ASTType)
    requires Outer(t) == Outer(u)
    ensures SameShape(t, u)
    decreases t
  {
    OuterParts(t);
    OuterParts(u);
    forall i | 0 <= i < t.indirection ensures SameLevel(t, u, i) {
      PointersAt(t, t.indirection, t.indirection - 1 - i);
      PointersAt(u, t.indirection, t.indirection - 1 - i);
      assert Outer(t)[t.indirection - 1 - i] == Outer(u)[t.indirection - 1 - i];
      KindTells(t, u, i);
    }
    if t.element.Some? { OuterDetermines(t.element.value, u.element.value); }
  }

  /** Types with equal shape words have equal shapes: the word is injective on
      the stacks it accepts, whatever the count says. */
  lemma EqualWordsEqualShapes(t: ASTType, u: ASTType)
    requires StackFor(t).Some? && StackFor(u).Some?
    requires WordFor(StackFor(t).value).Some? && WordFor(StackFor(t).value) == WordFor(StackFor(u).value)
    ensures SameShape(t, u)
  {
    StackIsValid(t);
    StackIsValid(u);
    WordGivesStack(StackFor(t).value);
    WordGivesStack(StackFor(u).value);
    ReversedInjective(Outer(t), Outer(u));
    OuterDetermines(t, u);
  }

  // ----- mangled shapes -----

  function Digits(n: nat): string { if n < 10 then [Digit(n)] else Digits(n / 10) + [Digit(n % 10)] }

  function Digit(d: nat): char
    requires d < 10
  {
    ['0', '1', '2', '3', '4', '5', '6', '7', '8', '9'][d]
  }

  predicate IsDigit(c: char) { '0' <= c <= '9' }

  function DigitValue(c: char): nat
    requires IsDigit(c)
  {
    c as int - '0' as int
  }

  function Segment(l: Level): string {
    if l.kind == PTR then "p"
    else if l.kind == MUT_PTR then "pm"
    else if l.kind == NULL_PTR then "pn"
    else if l.kind == NULL_MUT then "pnm"
    else if l.kind == SLICE then "s"
    else if l.kind == MUT_SLICE then "sm"
    else if l.kind == ARRAY then "a" + Digits(l.arrayLen)
    else ""
  }

  function Segments(ls: seq<Level>): string { if ls == [] then "" else Segment(ls[0]) + Segments(ls[1..]) }

  function Mangled(ls: seq<Level>): string { if ls == [] then "v" else Segments(ls) }

  method ShapeMangle(ls: seq<Level>) returns (s: string)
    ensures s == Mangled(ls)
  {
    hide Segment;
    if |ls| == 0 { return "v"; }
    s := "";
    for i := 0 to |ls|
      invariant s + Segments(ls[i..]) == Segments(ls)
    {
      assert ls[i..][0] == ls[i] && ls[i..][1..] == ls[i + 1..];
      assert s + (Segment(ls[i]) + Segments(ls[i + 1..])) == s + Segment(ls[i]) + Segments(ls[i + 1..]);
      s := s + Segment(ls[i]);
    }
    assert ls[|ls|..] == [] && s + "" == s;
  }

  /** The digits at the start of a text. */
  function DigitRun(s: string): (n: nat)
    ensures n <= |s| && forall i :: 0 <= i < n ==> IsDigit(s[i])
  {
    if s == "" || !IsDigit(s[0]) then 0 else 1 + DigitRun(s[1..])
  }

  function NumberOf(s: string): nat
    requires forall i :: 0 <= i < |s| ==> IsDigit(s[i])
  {
    if s == "" then 0 else NumberOf(s[..|s| - 1]) * 10 + DigitValue(s[|s| - 1])
  }

  /** The level that a text starts with, and the length of its segment. */
  function FirstLevel(s: string): (Level, nat)
    requires s != ""
  {
    var m := |s| > 1 && s[1] == 'm';
    if s[0] == 'p' then
      if |s| > 1 && s[1] == 'n' then (if |s| > 2 && s[2] == 'm' then (Level(NULL_MUT, 0), 3) else (Level(NULL_PTR, 0), 2))
      else if m then (Level(MUT_PTR, 0), 2) else (Level(PTR, 0), 1)
    else if s[0] == 's' then (if m then (Level(MUT_SLICE, 0), 2) else (Level(SLICE, 0), 1))
    else
      var n := DigitRun(s[1..]);
      (Level(ARRAY, NumberOf(s[1..][..n])), 1 + n)
  }

  function Unmangled(s: string): seq<Level>
    decreases |s|
  {
    if s == "" || s == "v" then []
    else
      var (l, n) := FirstLevel(s);
      if n > |s| then [] else [l] + Unmangled(s[n..])
  }

  lemma {:induction false} DigitsAre(n: nat)
    ensures Digits(n) != "" && (forall i :: 0 <= i < |Digits(n)| ==> IsDigit(Digits(n)[i])) && NumberOf(Digits(n)) == n
  {
    if n >= 10 {
      DigitsAre(n / 10);
      assert Digits(n)[..|Digits(n)| - 1] == Digits(n / 10);
    }
  }

  lemma {:induction false} DigitRunIs(digits: string, rest: string)
    requires (forall i :: 0 <= i < |digits| ==> IsDigit(digits[i])) && (rest == "" || !IsDigit(rest[0]))
    ensures DigitRun(digits + rest) == |digits|
  {
    if digits == "" {
      assert digits + rest == rest;
    } else {
      assert (digits + rest)[1..] == digits[1..] + rest;
      DigitRunIs(digits[1..], rest);
    }
  }

  /** A text that goes on with a new segment, or ends. */
  predicate StartsSegment(s: string) { s == "" || s[0] == 'p' || s[0] == 's' || s[0] == 'a' }

  lemma SegmentsStart(ls: seq<Level>)
    requires ValidStack(ls)
    ensures StartsSegment(Segments(ls)) && (Segments(ls) == "" <==> ls == [])
  {
  }

  lemma FirstIsSegment(l: Level, rest: string)
    requires ValidLevel(l) && StartsSegment(rest)
    ensures Segment(l) != "" && FirstLevel(Segment(l) + rest) == (l, |Segment(l)|)
  {
    if l.kind == ARRAY {
      var d := Digits(l.arrayLen);
      DigitsAre(l.arrayLen);
      DigitRunIs(d, rest);
      assert (Segment(l) + rest)[1..] == d + rest;
      assert (d + rest)[..|d|] == d;
    }
  }

  lemma {:induction false} SegmentsRead(ls: seq<Level>)
    requires ValidStack(ls)
    ensures Unmangled(Segments(ls)) == ls
  {
    if ls != [] {
      var l, rest := ls[0], Segments(ls[1..]);
      assert ValidLevel(l) && ValidStack(ls[1..]);
      SegmentsStart(ls[1..]);
      FirstIsSegment(l, rest);
      SegmentsRead(ls[1..]);
      var s := Segment(l) + rest;
      NotValue(l, rest);
      assert s[|Segment(l)|..] == rest;
      assert [l] + ls[1..] == ls;
    }
  }

  lemma NotValue(l: Level, rest: string)
    requires ValidLevel(l)
    ensures Segment(l) + rest != "" && Segment(l) + rest != "v"
  {
    assert Segment(l) != "" && (Segment(l) + rest)[0] == Segment(l)[0];
  }

  /** The symbol segment of a shape gives its stack back. */
  lemma MangleRoundTrip(ls: seq<Level>)
    requires ValidStack(ls)
    ensures Unmangled(Mangled(ls)) == ls
  {
    SegmentsRead(ls);
  }
}
