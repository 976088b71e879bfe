/** Writers and readers of byte streams (bwrite.go): what is written, followed by
    anything, reads back and leaves exactly the rest. */
module Codecs {
  import opened Wrappers
  import opened Bytes

  /** How a value is written, how it is read from the front of a stream (`None` is
      an error), and which values can be written. */
  datatype Codec<!T> = Codec(write: T -> seq<Byte>, read: seq<Byte> -> Option<(T, seq<Byte>)>, valid: T -> bool)

  /** What is written, followed by anything, reads back and leaves what follows. */
  ghost predicate Sound<T(!new)>(c: Codec<T>) {
    forall x: T, rest: seq<Byte> :: c.valid(x) ==> ReadsBack(c, x, rest)
  }

  predicate ReadsBack<T(==)>(c: Codec<T>, x: T, rest: seq<Byte>) { c.read(c.write(x) + rest) == Some((x, rest)) }

  // ----- numbers -----

  function ReadBytes(s: seq<Byte>, n: nat): Option<(seq<Byte>, seq<Byte>)> {
    if |s| < n then None else Some((s[..n], s[n..]))
  }

  function ReadUInt(s: seq<Byte>, n: nat): (r: Option<(nat, seq<Byte>)>)
    ensures r.Some? ==> r.value.0 < Pow256(n)
  {
    if |s| < n then None
    else
      LittleEndianOfValue(s[..n]);
      Some((Value(s[..n]), s[n..]))
  }

  lemma UIntReadsBack(x: nat, n: nat, rest: seq<Byte>)
    requires x < Pow256(n)
    ensures ReadUInt(LittleEndian(x, n) + rest, n) == Some((x, rest))
  {
  }

  type U32 = x: int | 0 <= x < 0x1_0000_0000
  type I32 = x: int | -0x8000_0000 <= x < 0x8000_0000
  type I64 = x: int | -0x8000_0000_0000_0000 <= x < 0x8000_0000_0000_0000

  lemma Widths()
    ensures Pow256(4) == 0x1_0000_0000 && Pow256(8) == 0x1_0000_0000_0000_0000
  {
  }

  function ReadU32(s: seq<Byte>): Option<(U32, seq<Byte>)> {
    var u :- ReadUInt(s, 4);
    Widths();
    Some((u.0, u.1))
  }

  /** An unsigned number of four bytes. */
  function Uint32(): (c: Codec<U32>)
    ensures Sound(c)
  {
    var c: Codec<U32> := Codec((x: U32) => LittleEndian(x, 4), (s: seq<Byte>) => ReadU32(s), (_: U32) => true);
    assert Sound(c) by {
      forall x: U32, rest: seq<Byte> ensures ReadsBack(c, x, rest) {
        Widths();
        UIntReadsBack(x, 4, rest);
      }
    }
    c
  }

  predicate Fits(x: int, n: nat) { 0 - Pow256(n) <= 2 * x < Pow256(n) }

  function ReadInt(s: seq<Byte>, n: nat): Option<(int, seq<Byte>)> {
    var u :- ReadUInt(s, n);
    Some((if 2 * u.0 >= Pow256(n) then u.0 - Pow256(n) else u.0, u.1))
  }

  lemma IntReadsBack(x: int, n: nat, rest: seq<Byte>)
    requires Fits(x, n)
    ensures ReadInt(LittleEndian(x, n) + rest, n) == Some((x, rest))
  {
    var u := if x < 0 then x + Pow256(n) else x;
    assert u == x + (if x < 0 then 1 else 0) * Pow256(n);
    LittleEndianWraps(u, x, n);
    UIntReadsBack(u, n, rest);
  }

  function ReadI32(s: seq<Byte>): Option<(I32, seq<Byte>)> {
    var u :- ReadInt(s, 4);
    Widths();
    Some((u.0, u.1))
  }

  /** A signed number of four bytes, in two's complement. */
  function Int32(): (c: Codec<I32>)
    ensures Sound(c)
  {
    var c: Codec<I32> := Codec((x: I32) => LittleEndian(x, 4), (s: seq<Byte>) => ReadI32(s), (_: I32) => true);
    assert Sound(c) by {
      forall x: I32, rest: seq<Byte> ensures ReadsBack(c, x, rest) {
        Widths();
        IntReadsBack(x, 4, rest);
      }
    }
    c
  }

  function ReadI64(s: seq<Byte>): Option<(I64, seq<Byte>)> {
    var u :- ReadInt(s, 8);
    Widths();
    Some((u.0, u.1))
  }

  /** A signed number of eight bytes, in two's complement. */
  function Int64(): (c: Codec<I64>)
    ensures Sound(c)
  {
    var c: Codec<I64> := Codec((x: I64) => LittleEndian(x, 8), (s: seq<Byte>) => ReadI64(s), (_: I64) => true);
    assert Sound(c) by {
      forall x: I64, rest: seq<Byte> ensures ReadsBack(c, x, rest) {
        Widths();
        IntReadsBack(x, 8, rest);
      }
    }
    c
  }

  const MAX_INT: nat := 0x7fff_ffff_ffff_ffff

  /** A size: one too large for an int is an error. */
  function ReadSize(s: seq<Byte>): Option<(nat, seq<Byte>)> {
    var u :- ReadUInt(s, 8);
    if u.0 > MAX_INT then None else Some(u)
  }

  function WriteSize(n: int): seq<Byte> { LittleEndian(n, 8) }

  lemma SizeReadsBack(n: nat, rest: seq<Byte>)
    requires n <= MAX_INT
    ensures ReadSize(WriteSize(n) + rest) == Some((n, rest))
  {
    assert Pow256(8) == 0x1_0000_0000_0000_0000;
    UIntReadsBack(n, 8, rest);
  }

  /** An int that is written as a size: a negative one is an error. */
  function Size(): (c: Codec<int>)
    ensures Sound(c)
  {
    var c := Codec((n: int) => WriteSize(n), (s: seq<Byte>) => ReadSize(s), (n: int) => 0 <= n <= MAX_INT);
    assert Sound(c) by {
      forall n: int, rest: seq<Byte> | c.valid(n) ensures ReadsBack(c, n, rest) { SizeReadsBack(n, rest); }
    }
    c
  }

  function ReadBool(s: seq<Byte>): Option<(bool, seq<Byte>)> { if s == [] then None else Some((s[0] != 0, s[1..])) }

  function Bool(): (c: Codec<bool>)
    ensures Sound(c)
  {
    var c := Codec((b: bool) => [if b then 1 else 0], (s: seq<Byte>) => ReadBool(s), (_: bool) => true);
    assert Sound(c) by {
      forall b: bool, rest: seq<Byte> ensures ReadsBack(c, b, rest) { assert (c.write(b) + rest)[1..] == rest; }
    }
    c
  }

  // ----- strings, pairs, lists, records -----

  function WriteString(bs: seq<Byte>): seq<Byte> { WriteSize(|bs|) + bs }

  function ReadString(s: seq<Byte>): Option<(seq<Byte>, seq<Byte>)> {
    var n :- ReadSize(s);
    ReadBytes(n.1, n.0)
  }

  lemma StringReadsBack(bs: seq<Byte>, rest: seq<Byte>)
    requires |bs| <= MAX_INT
    ensures ReadString(WriteString(bs) + rest) == Some((bs, rest))
  {
    hide WriteSize, ReadSize;
    SizeReadsBack(|bs|, bs + rest);
    assert WriteString(bs) + rest == WriteSize(|bs|) + (bs + rest);
    assert (bs + rest)[..|bs|] == bs && (bs + rest)[|bs|..] == rest;
  }

  /** A size and that many bytes. */
  function String(): (c: Codec<seq<Byte>>)
    ensures Sound(c)
  {
    var c := Codec((bs: seq<Byte>) => WriteString(bs), (s: seq<Byte>) => ReadString(s), (bs: seq<Byte>) => |bs| <= MAX_INT);
    assert Sound(c) by {
      forall bs: seq<Byte>, rest: seq<Byte> | c.valid(bs) ensures ReadsBack(c, bs, rest) { StringReadsBack(bs, rest); }
    }
    c
  }

  function ReadPair<A, B>(a: Codec<A>, b: Codec<B>, s: seq<Byte>): Option<((A, B), seq<Byte>)> {
    var x :- a.read(s);
    var y :- b.read(x.1);
    Some(((x.0, y.0), y.1))
  }

  /** One value after another. */
  function Pair<A(!new), B(!new)>(a: Codec<A>, b: Codec<B>): (c: Codec<(A, B)>)
    requires Sound(a) && Sound(b)
    ensures Sound(c)
  {
    var c := Codec((p: (A, B)) => a.write(p.0) + b.write(p.1), (s: seq<Byte>) => ReadPair(a, b, s),
                   (p: (A, B)) => a.valid(p.0) && b.valid(p.1));
    assert Sound(c) by {
      forall p: (A, B), rest: seq<Byte> | c.valid(p) ensures ReadsBack(c, p, rest) {
        assert ReadsBack(a, p.0, b.write(p.1) + rest) && ReadsBack(b, p.1, rest);
        assert c.write(p) + rest == a.write(p.0) + (b.write(p.1) + rest);
      }
    }
    c
  }

  function WriteAll<T>(c: Codec<T>, xs: seq<T>): seq<Byte> {
    if xs == [] then [] else c.write(xs[0]) + WriteAll(c, xs[1..])
  }

  function ReadAll<T>(c: Codec<T>, n: nat, s: seq<Byte>): Option<(seq<T>, seq<Byte>)>
    decreases n
  {
    if n == 0 then Some(([], s))
    else
      var x :- c.read(s);
      var xs :- ReadAll(c, n - 1, x.1);
      Some(([x.0] + xs.0, xs.1))
  }

  function ReadList<T>(c: Codec<T>, s: seq<Byte>): Option<(seq<T>, seq<Byte>)> {
    var n :- ReadSize(s);
    ReadAll(c, n.0, n.1)
  }

  function WriteList<T>(c: Codec<T>, xs: seq<T>): seq<Byte> { WriteSize(|xs|) + WriteAll(c, xs) }

  predicate ValidList<T>(c: Codec<T>, xs: seq<T>) { |xs| <= MAX_INT && forall i :: 0 <= i < |xs| ==> c.valid(xs[i]) }

  lemma {:induction false} AllReadBack<T(!new)>(c: Codec<T>, xs: seq<T>, rest: seq<Byte>)
    requires Sound(c) && forall i :: 0 <= i < |xs| ==> c.valid(xs[i])
    ensures ReadAll(c, |xs|, WriteAll(c, xs) + rest) == Some((xs, rest))
    decreases |xs|
  {
    if xs == [] {
      assert WriteAll(c, xs) + rest == rest;
    } else {
      var tail := WriteAll(c, xs[1..]) + rest;
      assert ReadsBack(c, xs[0], tail);
      assert WriteAll(c, xs) + rest == c.write(xs[0]) + tail;
      AllReadBack(c, xs[1..], rest);
      assert [xs[0]] + xs[1..] == xs;
    }
  }

  lemma ListReadsBack<T(!new)>(c: Codec<T>, xs: seq<T>, rest: seq<Byte>)
    requires Sound(c) && ValidList(c, xs)
    ensures ReadList(c, WriteList(c, xs) + rest) == Some((xs, rest))
  {
    hide WriteSize, ReadSize, WriteAll, ReadAll;
    AllReadBack(c, xs, rest);
    SizeReadsBack(|xs|, WriteAll(c, xs) + rest);
    assert WriteSize(|xs|) + WriteAll(c, xs) + rest == WriteSize(|xs|) + (WriteAll(c, xs) + rest);
  }

  /** A size and that many values. */
  function List<T(!new)>(c: Codec<T>): (l: Codec<seq<T>>)
    requires Sound(c)
    ensures Sound(l)
  {
    var l := Codec((xs: seq<T>) => WriteList(c, xs), (s: seq<Byte>) => ReadList(c, s), (xs: seq<T>) => ValidList(c, xs));
    assert Sound(l) by {
      hide WriteList, ReadList, ValidList;
      forall xs: seq<T>, rest: seq<Byte> | l.valid(xs) ensures ReadsBack(l, xs, rest) { ListReadsBack(c, xs, rest); }
    }
    l
  }

  /** A record, written as its fields. */
  function Record<A(!new), B(!new)>(a: Codec<A>, make: A -> B, fields: B -> A): (c: Codec<B>)
    requires Sound(a) && forall x: B :: make(fields(x)) == x
    ensures Sound(c)
  {
    var c := Codec((x: B) => a.write(fields(x)), (s: seq<Byte>) => var y :- a.read(s); Some((make(y.0), y.1)),
                   (x: B) => a.valid(fields(x)));
    assert Sound(c) by {
      forall x: B, rest: seq<Byte> | c.valid(x) ensures ReadsBack(c, x, rest) { assert ReadsBack(a, fields(x), rest); }
    }
    c
  }

  // ----- maps of named records -----

  type Name = seq<Byte>

  /** The keys of a map in some order. */
  ghost predicate Enumerates<T>(order: seq<Name>, m: map<Name, T>) {
    && (forall k :: k in order <==> k in m)
    && forall i, j :: 0 <= i < j < |order| ==> order[i] != order[j]
  }

  /** Every record is filed under its own name. */
  ghost predicate Filed<T>(m: map<Name, T>, name: T -> Name) { forall k :: k in m ==> name(m[k]) == k }

  function Listed<T>(m: map<Name, T>, order: seq<Name>): (xs: seq<T>)
    requires forall k <- order :: k in m
    ensures |xs| == |order| && forall i :: 0 <= i < |order| ==> xs[i] == m[order[i]]
  {
    if order == [] then [] else [m[order[0]]] + Listed(m, order[1..])
  }

  /** The map that a reader fills with the records as they come. */
  function Fill<T>(xs: seq<T>, name: T -> Name): map<Name, T> {
    if xs == [] then map[] else Fill(xs[..|xs| - 1], name)[name(xs[|xs| - 1]) := xs[|xs| - 1]]
  }

  lemma {:induction false} FilledKeys<T>(xs: seq<T>, name: T -> Name)
    ensures forall k :: k in Fill(xs, name) ==>
              exists i :: 0 <= i < |xs| && name(xs[i]) == k && Fill(xs, name)[k] == xs[i]
    ensures forall i :: 0 <= i < |xs| ==> name(xs[i]) in Fill(xs, name)
  {
    if xs != [] {
      var most := xs[..|xs| - 1];
      FilledKeys(most, name);
      forall k | k in Fill(xs, name) ensures exists i :: 0 <= i < |xs| && name(xs[i]) == k && Fill(xs, name)[k] == xs[i] {
        if k == name(xs[|xs| - 1]) { assert Fill(xs, name)[k] == xs[|xs| - 1]; }
        else {
          var i :| 0 <= i < |most| && name(most[i]) == k && Fill(most, name)[k] == most[i];
          assert most[i] == xs[i];
        }
      }
      forall i | 0 <= i < |xs| ensures name(xs[i]) in Fill(xs, name) { if i < |most| { assert most[i] == xs[i]; } }
    }
  }

  /** Whatever the order in which the records of a map are written, filling a map
      with them gives the map. */
  lemma FillGivesMap<T>(m: map<Name, T>, order: seq<Name>, name: T -> Name)
    requires Enumerates(order, m) && Filed(m, name)
    ensures Fill(Listed(m, order), name) == m
  {
    hide Listed, Fill;
    var xs := Listed(m, order);
    var f := Fill(xs, name);
    FilledKeys(xs, name);
    forall k | k in m ensures k in f {
      var i :| 0 <= i < |order| && order[i] == k;
      assert name(xs[i]) == k;
    }
    forall k | k in f ensures k in m && f[k] == m[k] {
      var i :| 0 <= i < |xs| && name(xs[i]) == k && f[k] == xs[i];
      assert order[i] in order;
    }
  }

  /** The bytes of a map in some order: its size and its records. */
  ghost function MapBytes<T>(c: Codec<T>, m: map<Name, T>, order: seq<Name>): seq<Byte>
    requires Enumerates(order, m)
  {
    WriteList(c, Listed(m, order))
  }

  function ReadMap<T>(c: Codec<T>, name: T -> Name, s: seq<Byte>): Option<(map<Name, T>, seq<Byte>)> {
    var xs :- ReadList(c, s);
    Some((Fill(xs.0, name), xs.1))
  }

  ghost predicate ValidMap<T>(c: Codec<T>, m: map<Name, T>) { |m| <= MAX_INT && forall k :: k in m ==> c.valid(m[k]) }

  lemma {:induction false} OrderSize<T>(order: seq<Name>, m: map<Name, T>)
    requires Enumerates(order, m)
    ensures |order| == |m|
    decreases |order|
  {
    if order == [] {
      assert m == map[];
    } else {
      var n := |order| - 1;
      assert order[n] in order && order[n] in m;
      assert forall k :: k in order <==> k == order[n] || k in order[..n];
      OrderSize(order[..n], m - {order[n]});
      assert m.Keys == (m - {order[n]}).Keys + {order[n]};
      assert |m| == |m.Keys| && |m - {order[n]}| == |(m - {order[n]}).Keys|;
    }
  }

  /** The map that is filled with the records of another. */
  ghost function Refiled<T>(m: map<Name, T>, name: T -> Name, order: seq<Name>): map<Name, T>
    requires Enumerates(order, m)
  {
    Fill(Listed(m, order), name)
  }

  /** What is read of a written map, whatever follows it: its records, each under
      its own name. */
  lemma MapIsRefiled<T(!new)>(c: Codec<T>, m: map<Name, T>, name: T -> Name, order: seq<Name>, rest: seq<Byte>)
    requires Sound(c) && ValidMap(c, m) && Enumerates(order, m)
    ensures ReadMap(c, name, MapBytes(c, m, order) + rest) == Some((Refiled(m, name, order), rest))
  {
    var xs := Listed(m, order);
    OrderSize(order, m);
    forall i | 0 <= i < |xs| ensures c.valid(xs[i]) { assert order[i] in order; }
    ListReadsBack(c, xs, rest);
  }

  lemma RefiledIsSame<T>(m: map<Name, T>, name: T -> Name, order: seq<Name>)
    requires Enumerates(order, m)
    ensures Refiled(m, name, order) == m <==> Filed(m, name)
  {
    if Filed(m, name) { FillGivesMap(m, order, name); }
    FilledKeys(Listed(m, order), name);
  }

  /** A written map reads back, whatever the order in which it was written and
      whatever follows it, exactly if its records are filed under their names. */
  lemma MapReadsBack<T(!new)>(c: Codec<T>, m: map<Name, T>, name: T -> Name, order: seq<Name>, rest: seq<Byte>)
    requires Sound(c) && ValidMap(c, m) && Enumerates(order, m)
    ensures ReadMap(c, name, MapBytes(c, m, order) + rest) == Some((m, rest)) <==> Filed(m, name)
  {
    hide ReadMap, MapBytes, Refiled, Filed, ValidMap, Sound;
    MapIsRefiled(c, m, name, order, rest);
    RefiledIsSame(m, name, order);
  }

  // ----- sorted maps -----

  /** Byte-wise lexicographic order. */
  predicate Less(a: Name, b: Name) {
    if b == [] then false
    else if a == [] then true
    else a[0] < b[0] || (a[0] == b[0] && Less(a[1..], b[1..]))
  }

  lemma {:induction false} LessIrreflexive(a: Name)
    ensures !Less(a, a)
  {
    if a != [] { LessIrreflexive(a[1..]); }
  }

  lemma {:induction false} LessTransitive(a: Name, b: Name, c: Name)
    requires Less(a, b) && Less(b, c)
    ensures Less(a, c)
  {
    if a != [] && b != [] && a[0] == b[0] && b[0] == c[0] { LessTransitive(a[1..], b[1..], c[1..]); }
  }

  ghost predicate Sorted(order: seq<Name>) { forall i, j :: 0 <= i < j < |order| ==> Less(order[i], order[j]) }

  /** There is one sorted order of a set of names: equal maps are written alike. */
  lemma {:induction false} SortedIsUnique(a: seq<Name>, b: seq<Name>)
    requires Sorted(a) && Sorted(b) && forall k :: k in a <==> k in b
    ensures a == b
    decreases |a|
  {
    if a != [] { assert a[0] in a; }
    if b != [] { assert b[0] in b; }
    if a != [] {
      SameFirst(a, b);
      forall k | k in a[1..] ensures k in b[1..] { TailHas(a, b, k); }
      forall k | k in b[1..] ensures k in a[1..] { TailHas(b, a, k); }
      SortedIsUnique(a[1..], b[1..]);
    }
  }

  lemma SameFirst(a: seq<Name>, b: seq<Name>)
    requires Sorted(a) && Sorted(b) && a != [] && b != [] && a[0] in b && b[0] in a
    ensures a[0] == b[0]
  {
    var i :| 0 <= i < |b| && b[i] == a[0];
    var j :| 0 <= j < |a| && a[j] == b[0];
    if i > 0 && j > 0 {
      LessTransitive(a[0], a[j], a[0]);
      LessIrreflexive(a[0]);
    }
  }

  lemma TailHas(a: seq<Name>, b: seq<Name>, k: Name)
    requires Sorted(a) && a != [] && b != [] && a[0] == b[0] && (forall k :: k in a <==> k in b) && k in a[1..]
    ensures k in b[1..]
  {
    var i :| 0 <= i < |a[1..]| && a[1..][i] == k;
    assert Less(a[0], a[i + 1]);
    LessIrreflexive(k);
    assert k in a;
    var j :| 0 <= j < |b| && b[j] == k;
    assert j > 0 && b[1..][j - 1] == k;
  }
}
