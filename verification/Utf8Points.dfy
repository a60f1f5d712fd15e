/** What string_filter does to text, in terms of code points (section 3 of RFC 3629). */
module Utf8Points {
  import opened AcsmWords
  import opened Utf8Punc

  // ----- code points

  function Less(b: Byte, n: int): int { b - n }

  /** The number whose digits to the base 64 are given. */
  function Digits(a: int, b: int, c: int, d: int): int { ((a * 0x40 + b) * 0x40 + c) * 0x40 + d }

  /** The code point a UTF-8 character encodes. */
  function CodePoint(c: Bytes): int
    requires IsChar(c)
  {
    if |c| == 1 then c[0]
    else if |c| == 2 then Digits(0, 0, Less(c[0], 0xC0), Less(c[1], 0x80))
    else if |c| == 3 then Digits(0, Less(c[0], 0xE0), Less(c[1], 0x80), Less(c[2], 0x80))
    else Digits(Less(c[0], 0xF0), Less(c[1], 0x80), Less(c[2], 0x80), Less(c[3], 0x80))
  }

  /** How long a character is depends on its code point, and its trailing bytes are digits. */
  lemma Shape(c: Bytes)
    requires IsChar(c)
    ensures c != [] && CodePoint(c) >= 0
    ensures |c| == 1 ==> 0 <= CodePoint(c) < 0x80
    ensures |c| == 2 ==> 0x80 <= CodePoint(c) < 0x800 && 0 <= Less(c[0], 0xC0) < 0x40
    ensures |c| == 3 ==> 0x800 <= CodePoint(c) < 0x1_0000 && 0 <= Less(c[0], 0xE0) < 0x40
    ensures |c| >= 4 ==> |c| == 4 && CodePoint(c) >= 0x1_0000
    ensures forall i :: 1 <= i < |c| ==> 0 <= Less(c[i], 0x80) < 0x40
  {
  }

  lemma DigitsOnce(a: int, b: int, c: int, d: int, a': int, b': int, c': int, d': int)
    requires 0 <= b < 0x40 && 0 <= c < 0x40 && 0 <= d < 0x40 && 0 <= b' < 0x40 && 0 <= c' < 0x40 && 0 <= d' < 0x40
    requires Digits(a, b, c, d) == Digits(a', b', c', d')
    ensures a == a' && b == b' && c == c' && d == d'
  {
  }

  /** No two characters encode the same code point. */
  lemma CodePointOnce(c: Bytes, d: Bytes)
    requires IsChar(c) && IsChar(d) && CodePoint(c) == CodePoint(d)
    ensures c == d
  {
    hide IsChar, Digits;
    Shape(c);
    Shape(d);
    if |c| == 2 {
      DigitsOnce(0, 0, Less(c[0], 0xC0), Less(c[1], 0x80), 0, 0, Less(d[0], 0xC0), Less(d[1], 0x80));
    } else if |c| == 3 {
      DigitsOnce(0, Less(c[0], 0xE0), Less(c[1], 0x80), Less(c[2], 0x80),
        0, Less(d[0], 0xE0), Less(d[1], 0x80), Less(d[2], 0x80));
    } else if |c| == 4 {
      DigitsOnce(Less(c[0], 0xF0), Less(c[1], 0x80), Less(c[2], 0x80), Less(c[3], 0x80),
        Less(d[0], 0xF0), Less(d[1], 0x80), Less(d[2], 0x80), Less(d[3], 0x80));
    }
  }

  // ----- what is dropped, converted and kept

  predicate IsFullWidth(u: int) { 0xFF01 <= u <= 0xFF5E }

  /** The ASCII character of a full-width form; any other character is its own. */
  function Narrow(u: int): int { if IsFullWidth(u) then u - 0xFF01 + 0x21 else u }

  /** The capital of a small letter; any other character is its own. */
  function Capital(u: int): int { if 0x61 <= u <= 0x7A then u - 0x61 + 0x41 else u }

  /** Letters, and the digits 1 to 9. */
  predicate IsWordChar(u: int) { 0x41 <= u <= 0x5A || 0x61 <= u <= 0x7A || 0x31 <= u <= 0x39 }

  /** Punctuation: what else there is in ASCII, and the Latin, general, CJK and small punctuation. */
  predicate IsDropped(u: int) {
    || (u < 0x80 && !IsWordChar(u))
    || 0xA0 <= u <= 0xBF || u == 0xD7 || u == 0xF7
    || 0x2000 <= u <= 0x206F || 0x3000 <= u <= 0x303F || 0xFE50 <= u <= 0xFE6F
  }

  /** What is left of a character. */
  function Left(c: Bytes, up: bool): Bytes
    requires IsChar(c)
  {
    var u := Narrow(CodePoint(c));
    if IsDropped(u) then [] else if u < 0x80 then [if up then Capital(u) else u] else c
  }

  /** string_filter drops, converts or keeps a character by its code point. */
  lemma CharIs(c: Bytes, up: bool)
    requires IsChar(c)
    ensures FilterChar(c, up) == Left(c, up)
  {
    hide IsChar, FilterChar, CodePoint, Classify, StepOf;
    Shape(c);
    if |c| == 3 { if Classify(c).FullWidth? { FullWidthIs(c, up); } else { ThreeIs(c, up); } } else { OtherIs(c, up); }
  }

  lemma OtherIs(c: Bytes, up: bool)
    requires IsChar(c) && |c| != 3
    ensures FilterChar(c, up) == Left(c, up)
  {
  }

  lemma ThreeIs(c: Bytes, up: bool)
    requires IsChar(c) && |c| == 3 && !Classify(c).FullWidth?
    ensures FilterChar(c, up) == Left(c, up)
  {
  }

  lemma FullWidthIs(c: Bytes, up: bool)
    requires IsChar(c) && |c| == 3 && Classify(c).FullWidth?
    ensures FilterChar(c, up) == Left(c, up)
  {
    hide IsChar, Classify, CodePoint, ToHalf;
    Narrowed(c);
  }

  lemma Narrowed(c: Bytes)
    requires IsChar(c) && |c| == 3 && Classify(c).FullWidth?
    ensures IsFullWidth(CodePoint(c)) && ToHalf(c[0], c[1], c[2]) == Narrow(CodePoint(c))
  {
    var x := c[2];
    assert c[0] == 0xEF;
    if c[1] == 0xBC { HalfBytes(x - 0x60); } else { HalfBytes(x - 0x20); }
  }

  /** For every text, well formed or not: a character it begins with is dropped, converted or kept by its code point,
      and a byte with which no character begins is kept. */
  lemma FilterIs(s: Bytes, up: bool)
    requires s != []
    ensures var n := CharLength(s);
      && (n > 0 ==> IsChar(s[..n]) && Filter(s, up) == Left(s[..n], up) + Filter(s[n..], up))
      && (n == 0 ==> Filter(s, up) == [s[0]] + Filter(s[1..], up))
  {
    hide CharLength, IsChar, Filter, FilterChar, Left, Classify, StepOf;
    var n := CharLength(s);
    if n > 0 {
      FirstChar(s, []);
      assert s == s[..n] + s[n..];
      FilterOneChar(s[..n], s[n..], up);
      CharIs(s[..n], up);
    } else {
      NoChar(s, up);
      FilterStep(s, up);
    }
  }

  lemma NoChar(s: Bytes, up: bool)
    requires s != [] && CharLength(s) == 0
    ensures StepOf(s, up) == Take(1, s[0])
  {
  }

  // ----- string_replace

  /** A character that is dropped is padded with '+', and one that is converted with '-'. */
  function Padded(c: Bytes): Bytes
    requires IsChar(c)
  {
    var r := Left(c, true);
    if r == [] then Pad(PLUS, |c|) else if |r| < |c| then r + Pad(DASH, |c| - |r|) else r
  }

  lemma {:induction false} TailsReplaced(u: Bytes, t: Bytes)
    requires forall i :: 0 <= i < |u| ==> IsTail(u[i])
    ensures Replace(u + t) == u + Replace(t)
  {
    hide Replace, Unpad, Classify, StepOf;
    if u == [] { assert u + t == t; } else {
      TailsReplaced(u[1..], t);
      assert (u + t)[1..] == u[1..] + t;
      StepOfTail(u + t, true);
      ReplaceStep(u + t);
    }
  }

  lemma ReplaceOneChar(c: Bytes, t: Bytes)
    requires IsChar(c)
    ensures Replace(c + t) == Padded(c) + Replace(t)
  {
    hide IsChar, CharLength, Replace, Unpad, Classify, StepOf, CodePoint, Left;
    StepOfChar(c, t, true);
    CharIs(c, true);
    Shape(c);
    ReplaceStep(c + t);
    var st := StepOf(c, true);
    if st.n == |c| {
      assert (c + t)[|c|..] == t;
      assert st.Take? && |c| == 1 ==> [st.b] + Pad(DASH, 0) == [st.b];
    } else {
      assert (c + t)[1..] == c[1..] + t;
      TailsReplaced(c[1..], t);
    }
  }

  /** For every text: string_replace keeps every character in its place, dropped, converted or kept as by string_filter;
      a byte with which no character begins stays. */
  lemma ReplaceIs(s: Bytes)
    requires s != []
    ensures var n := CharLength(s);
      && (n > 0 ==> IsChar(s[..n]) && Replace(s) == Padded(s[..n]) + Replace(s[n..]))
      && (n == 0 ==> Replace(s) == [s[0]] + Replace(s[1..]))
  {
    hide CharLength, IsChar, Replace, Unpad, Padded, Classify, StepOf;
    var n := CharLength(s);
    if n > 0 {
      FirstChar(s, []);
      assert s == s[..n] + s[n..];
      ReplaceOneChar(s[..n], s[n..]);
    } else {
      NoChar(s, true);
      ReplaceStep(s);
      assert [s[0]] + Pad(DASH, 0) == [s[0]];
    }
  }

  // ----- texts that differ in case or width only

  /** The characters differ in case or width at most. */
  predicate Alike(c: Bytes, d: Bytes) {
    IsChar(c) && IsChar(d) && Capital(Narrow(CodePoint(c))) == Capital(Narrow(CodePoint(d)))
  }

  /** The filter tells two characters apart unless it drops both or they differ in case or width only. */
  lemma LeftSame(c: Bytes, d: Bytes)
    requires IsChar(c) && IsChar(d)
    ensures Left(c, true) == Left(d, true) <==> Alike(c, d) || (Left(c, true) == [] && Left(d, true) == [])
  {
    hide IsChar, CodePoint;
    Shape(c);
    Shape(d);
    if CodePoint(c) == CodePoint(d) { CodePointOnce(c, d); }
  }

  function Join(cs: seq<Bytes>): Bytes { if cs == [] then [] else cs[0] + Join(cs[1..]) }

  /** Texts that differ in case and width only are filtered alike. */
  lemma {:induction false} AlikeFiltered(cs: seq<Bytes>, ds: seq<Bytes>)
    requires |cs| == |ds| && forall i :: 0 <= i < |cs| ==> Alike(cs[i], ds[i])
    ensures Filter(Join(cs), true) == Filter(Join(ds), true)
  {
    hide IsChar, CodePoint, Filter, FilterChar, Left, Capital, Narrow;
    if cs != [] {
      AlikeFiltered(cs[1..], ds[1..]);
      assert Alike(cs[0], ds[0]);
      FilterOneChar(cs[0], Join(cs[1..]), true);
      FilterOneChar(ds[0], Join(ds[1..]), true);
      CharIs(cs[0], true);
      CharIs(ds[0], true);
      LeftSame(cs[0], ds[0]);
    }
  }
}
