/** Byte strings as assembler string literals: what the compiler writes
    (cmd/bosc/globals.go) and what the assembler reads (cmd/bas/main.go). */
module StringLiteral {
  import opened Wrappers
  import opened Bytes

  const QUOTE: Byte := 0x22
  const BACKSLASH: Byte := 0x5c

  function HexDigit(d: int): Byte
    requires 0 <= d < 16
  {
    if d < 10 then 0x30 + d else 0x61 + d - 10
  }

  function HexValue(c: Byte): Option<int> {
    if 0x30 <= c <= 0x39 then Some(c - 0x30)
    else if 0x61 <= c <= 0x66 then Some(c - 0x61 + 10)
    else if 0x41 <= c <= 0x46 then Some(c - 0x41 + 10)
    else None
  }

  /** One byte as it stands between the quotes. */
  function Escaped(c: Byte): seq<Byte> {
    if c == BACKSLASH then [BACKSLASH, BACKSLASH]
    else if c == QUOTE then [BACKSLASH, QUOTE]
    else if 0x20 <= c < 0x7f then [c]
    else [BACKSLASH, 0x78, HexDigit(c / 16), HexDigit(c % 16)]
  }

  function Literal(data: seq<Byte>): seq<Byte> {
    if data == [] then [] else Escaped(data[0]) + Literal(data[1..])
  }

  method BytesToBasStringLiteral(data: seq<Byte>) returns (b: seq<Byte>)
    ensures b == Literal(data)
  {
    hide Literal;
    b := [];
    assert data[0..] == data && [] + Literal(data) == Literal(data);
    for i := 0 to |data|
      invariant b + Literal(data[i..]) == Literal(data)
    {
      var c := data[i];
      var e: seq<Byte>;
      if c == BACKSLASH {
        e := [BACKSLASH, BACKSLASH];
      } else if c == QUOTE {
        e := [BACKSLASH, QUOTE];
      } else if 0x20 <= c < 0x7f {
        e := [c];
      } else {
        e := [BACKSLASH, 0x78, HexDigit(c / 16), HexDigit(c % 16)];
      }
      LiteralNext(data, i);
      assert b + (e + Literal(data[i + 1..])) == b + e + Literal(data[i + 1..]);
      b := b + e;
    }
    LiteralEnd(data);
    assert b + [] == b;
  }

  lemma LiteralEnd(data: seq<Byte>)
    ensures Literal(data[|data|..]) == []
  {
  }

  lemma LiteralNext(data: seq<Byte>, i: nat)
    requires i < |data|
    ensures Literal(data[i..]) == Escaped(data[i]) + Literal(data[i + 1..])
  {
  }

  /** The escape at the start of a text: the byte and how much it takes. */
  function Unescape(s: seq<Byte>): Option<(Byte, nat)>
    requires s != [] && s[0] == BACKSLASH
    ensures Unescape(s).Some? ==> 0 < Unescape(s).value.1 <= |s|
  {
    if |s| < 2 then None
    else if s[1] == 0x6e then Some((0x0a, 2))
    else if s[1] == 0x72 then Some((0x0d, 2))
    else if s[1] == 0x74 then Some((0x09, 2))
    else if s[1] == BACKSLASH then Some((BACKSLASH, 2))
    else if s[1] == QUOTE then Some((QUOTE, 2))
    else if s[1] == 0x30 then Some((0, 2))
    else if s[1] == 0x78 then
      if |s| < 4 || HexValue(s[2]).None? || HexValue(s[3]).None? then None
      else Some((HexValue(s[2]).value * 16 + HexValue(s[3]).value, 4))
    else None
  }

  /** What follows the opening quote, up to a closing quote at the very end. */
  function Rest(s: seq<Byte>): Option<seq<Byte>>
    decreases |s|
  {
    if s == [] then None
    else if s[0] == BACKSLASH then
      var e := Unescape(s);
      if e.None? then None
      else
        var r := Rest(s[e.value.1..]);
        if r.None? then None else Some([e.value.0] + r.value)
    else if s[0] == QUOTE then (if |s| == 1 then Some([]) else None)
    else
      var r := Rest(s[1..]);
      if r.None? then None else Some([s[0]] + r.value)
  }

  function Parsed(s: seq<Byte>): Option<seq<Byte>> {
    if s == [] || s[0] != QUOTE then None else Rest(s[1..])
  }

  /** What is read so far, continued with the rest. */
  function After(out: seq<Byte>, s: seq<Byte>): Option<seq<Byte>> {
    if Rest(s).None? then None else Some(out + Rest(s).value)
  }

  lemma AfterNext(out: seq<Byte>, c: Byte, s: seq<Byte>, n: nat)
    requires s != [] && if s[0] == BACKSLASH then Unescape(s) == Some((c, n)) else s[0] == c && c != QUOTE && n == 1
    ensures n <= |s| && After(out, s) == After(out + [c], s[n..])
  {
    if Rest(s[n..]).Some? { assert out + ([c] + Rest(s[n..]).value) == out + [c] + Rest(s[n..]).value; }
  }

  method ParseString(text: seq<Byte>) returns (bs: Option<seq<Byte>>)
    ensures bs == Parsed(text)
  {
    if text == [] || text[0] != QUOTE { return None; }
    var s: seq<Byte>, out: seq<Byte> := text[1..], [];
    if Rest(s).Some? { assert out + Rest(s).value == Rest(s).value; }
    while |s| > 0
      invariant Parsed(text) == After(out, s)
      decreases |s|
    {
      ghost var was := s;
      if s[0] == BACKSLASH {
        if |s| < 2 { return None; }
        var c: Byte;
        if s[1] == 0x6e { c := 0x0a; }
        else if s[1] == 0x72 { c := 0x0d; }
        else if s[1] == 0x74 { c := 0x09; }
        else if s[1] == BACKSLASH { c := BACKSLASH; }
        else if s[1] == QUOTE { c := QUOTE; }
        else if s[1] == 0x30 { c := 0; }
        else if s[1] == 0x78 {
          if |s| < 4 || HexValue(s[2]).None? || HexValue(s[3]).None? { return None; }
          c := HexValue(s[2]).value * 16 + HexValue(s[3]).value;
          s := s[2..];
        } else {
          return None;
        }
        AfterNext(out, c, was, if was[1] == 0x78 then 4 else 2);
        out := out + [c];
        s := s[1..];
        assert s[1..] == was[if was[1] == 0x78 then 4 else 2..];
      } else if s[0] == QUOTE {
        break;
      } else {
        AfterNext(out, s[0], s, 1);
        out := out + [s[0]];
      }
      s := s[1..];
    }
    if |s| != 1 || s[0] != QUOTE { return None; }
    assert out + [] == out;
    return Some(out);
  }

  lemma UnescapeEscaped(c: Byte, rest: seq<Byte>)
    ensures var s := Escaped(c) + rest;
            if s[0] == BACKSLASH then Unescape(s) == Some((c, |Escaped(c)|)) else s[0] == c && c != QUOTE && |Escaped(c)| == 1
  {
  }

  lemma {:induction false} RestOfLiteral(data: seq<Byte>)
    ensures Rest(Literal(data) + [QUOTE]) == Some(data)
  {
    if data == [] {
      assert Literal(data) + [QUOTE] == [QUOTE];
    } else {
      var tail := Literal(data[1..]) + [QUOTE];
      RestOfLiteral(data[1..]);
      UnescapeEscaped(data[0], tail);
      assert Literal(data) + [QUOTE] == Escaped(data[0]) + tail;
      assert (Escaped(data[0]) + tail)[|Escaped(data[0])|..] == tail;
      assert [data[0]] + data[1..] == data;
    }
  }

  /** Across the two programs: what the compiler writes between quotes, the
      assembler reads back, for every byte string. */
  lemma LiteralRoundTrip(data: seq<Byte>)
    ensures Parsed([QUOTE] + Literal(data) + [QUOTE]) == Some(data)
  {
    RestOfLiteral(data);
    assert ([QUOTE] + Literal(data) + [QUOTE])[1..] == Literal(data) + [QUOTE];
  }

  // ----- what a literal may look like -----

  const LOWER: string := "0123456789abcdef"
  const UPPER: string := "0123456789ABCDEF"

  predicate IsDigit(c: Byte, d: int) { 0 <= d < 16 && (c == LOWER[d] as int || c == UPPER[d] as int) }

  /** The escapes n, r, t, backslash, quote and 0, with what they stand for: newline,
      carriage return, tab, themselves and zero. */
  const LETTERS: seq<(Byte, Byte)> := [(110, 10), (114, 13), (116, 9), (92, 92), (34, 34), (48, 0)]

  ghost predicate ByLetter(s: seq<Byte>, c: Byte) {
    exists k :: 0 <= k < |LETTERS| && s == [BACKSLASH, LETTERS[k].0] && c == LETTERS[k].1
  }

  ghost predicate ByNumber(s: seq<Byte>, c: Byte) {
    |s| == 4 && s[0] == BACKSLASH && s[1] == 'x' as int && IsDigit(s[2], c / 16) && IsDigit(s[3], c % 16)
  }

  /** A way to write a byte: as it is, by a letter, or by two hexadecimal digits. */
  ghost predicate Spelling(s: seq<Byte>, c: Byte) {
    (s == [c] && c != BACKSLASH && c != QUOTE) || ByLetter(s, c) || ByNumber(s, c)
  }

  ghost predicate FirstIs(s: seq<Byte>, k: nat, c: Byte) { k <= |s| && Spelling(s[..k], c) }

  /** The text is one spelling of each byte after the other. */
  ghost predicate Spells(s: seq<Byte>, data: seq<Byte>)
    decreases data
  {
    if data == [] then s == [] else exists k: nat :: FirstIs(s, k, data[0]) && Spells(s[k..], data[1..])
  }

  lemma Digits(c: Byte, d: int)
    ensures IsDigit(c, d) <==> HexValue(c) == Some(d)
    ensures IsDigit(c, d) ==> 0 <= d < 16
  {
  }

  lemma SpellingIsRead(s: seq<Byte>, k: nat, c: Byte)
    requires FirstIs(s, k, c)
    ensures s != []
    ensures if s[0] == BACKSLASH then Unescape(s) == Some((c, k)) else s[0] == c && c != QUOTE && k == 1
  {
    var t := s[..k];
    if ByNumber(t, c) {
      Digits(s[2], c / 16);
      Digits(s[3], c % 16);
    } else if ByLetter(t, c) {
      assert s[0] == t[0] && s[1] == t[1];
    }
  }

  lemma NumberIsSpelling(s: seq<Byte>, c: Byte)
    requires s != [] && s[0] == BACKSLASH && |s| >= 2 && s[1] == 0x78 && Unescape(s) == Some((c, 4))
    ensures FirstIs(s, 4, c)
  {
    hide HexValue, IsDigit, ByLetter;
    var (high, low) := (HexValue(s[2]).value, HexValue(s[3]).value);
    Digits(s[2], high);
    Digits(s[3], low);
    assert c == high * 16 + low && c / 16 == high && c % 16 == low;
    assert ByNumber(s[..4], c);
  }

  lemma LetterIsSpelling(s: seq<Byte>, c: Byte)
    requires s != [] && s[0] == BACKSLASH && |s| >= 2 && s[1] != 0x78 && Unescape(s) == Some((c, 2))
    ensures FirstIs(s, 2, c)
  {
    hide ByNumber, HexValue;
    var i := if s[1] == 0x6e then 0 else if s[1] == 0x72 then 1 else if s[1] == 0x74 then 2
             else if s[1] == BACKSLASH then 3 else if s[1] == QUOTE then 4 else 5;
    assert LETTERS[i] == (s[1], c) && s[..2] == [s[0], s[1]];
    assert ByLetter(s[..2], c);
  }

  lemma ReadIsSpelling(s: seq<Byte>, c: Byte, k: nat)
    requires s != [] && s[0] == BACKSLASH && Unescape(s) == Some((c, k))
    ensures FirstIs(s, k, c)
  {
    hide FirstIs;
    if s[1] == 0x78 { NumberIsSpelling(s, c); } else { LetterIsSpelling(s, c); }
  }

  lemma {:induction false} RestExactly(s: seq<Byte>, data: seq<Byte>)
    ensures Rest(s) == Some(data) <==> s != [] && s[|s| - 1] == QUOTE && Spells(s[..|s| - 1], data)
    decreases |s|
  {
    hide Spelling, Unescape;
    if Rest(s) == Some(data) && (s[0] == BACKSLASH || s[0] != QUOTE) {
      var k := if s[0] == BACKSLASH then Unescape(s).value.1 else 1;
      if s[0] == BACKSLASH { ReadIsSpelling(s, data[0], k); } else { PlainIsSpelling(s); }
      RestExactly(s[k..], data[1..]);
      Dropped(s, k);
    }
    if s != [] && s[|s| - 1] == QUOTE && Spells(s[..|s| - 1], data) && data != [] {
      var t := s[..|s| - 1];
      var k: nat :| FirstIs(t, k, data[0]) && Spells(t[k..], data[1..]);
      assert s[..k] == t[..k];
      SpellingIsRead(s, k, data[0]);
      Dropped(s, k);
      RestExactly(s[k..], data[1..]);
      assert [data[0]] + data[1..] == data;
    }
  }

  lemma PlainIsSpelling(s: seq<Byte>)
    requires s != [] && s[0] != BACKSLASH && s[0] != QUOTE
    ensures FirstIs(s, 1, s[0])
  {
    assert s[..1] == [s[0]];
  }

  lemma Dropped(s: seq<Byte>, k: nat)
    requires k < |s|
    ensures s[k..][..|s| - k - 1] == s[..|s| - 1][k..] && s[k..][|s| - k - 1] == s[|s| - 1]
    ensures s[..|s| - 1][..k] == s[..k]
  {
  }

  /** The assembler reads exactly the texts between quotes that spell bytes, each in any
      of its ways, as these bytes, and refuses all others. */
  lemma ParsesExactly(text: seq<Byte>, data: seq<Byte>)
    ensures Parsed(text) == Some(data) <==>
              |text| >= 2 && text[0] == QUOTE && text[|text| - 1] == QUOTE && Spells(text[1..|text| - 1], data)
  {
    if text != [] {
      RestExactly(text[1..], data);
      if |text| >= 2 { assert text[1..][..|text| - 2] == text[1..|text| - 1]; }
    }
  }
}
