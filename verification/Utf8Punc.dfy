/** Normalising text before matching (tm_dirty/utf8_punc.c): string_filter, string_replace, full-width conversion. */
module Utf8Punc {
  import opened AcsmWords

  const STAR: Byte := 0x2A
  const PLUS: Byte := 0x2B
  const DASH: Byte := 0x2D

  /** As in utf8_punc.h, the digit 0 does not count as a number. */
  predicate IsNumber(c: Byte) { 0x31 <= c <= 0x39 }
  predicate IsUpper(c: Byte) { 0x41 <= c <= 0x5A }
  predicate IsLower(c: Byte) { 0x61 <= c <= 0x7A }
  predicate IsAlpha(c: Byte) { IsUpper(c) || IsLower(c) }
  predicate IsAlphaOrNumber(c: Byte) { IsNumber(c) || IsAlpha(c) }
  predicate IsPunct(c: Byte) { c <= 0x7F && !IsAlphaOrNumber(c) }

  /** xlatcase: toupper of the C locale. */
  function Upper(c: Byte): Byte { if IsLower(c) then c - 0x20 else c }

  // ----- full width and half width

  /** dbc_sbc_exchange with flag 1, in 16-bit and 8-bit arithmetic. */
  function ToHalf(a: Byte, b: Byte, c: Byte): (r: Byte) {
    var u := (a % 16) * 0x1000 + (b % 64) * 64 + c % 64;
    if u == 0x3000 then 0x20 else (u + 0x1_0000 - 0xFEE0) % 256
  }

  /** dbc_sbc_exchange with flag 0; None is its error return. */
  datatype Full = None | Full(a: Byte, b: Byte, c: Byte)

  function ToFull(d: Byte): (r: Full) {
    if d == 0x20 || 0x21 <= d <= 0x7E then
      var u := if d == 0x20 then 0x3000 else d + 0xFEE0;
      Full(0xE0 + u / 0x1000, 0x80 + u / 64 % 64, 0x80 + u % 64)
    else None
  }

  lemma FullBytes(d: Byte)
    requires 0x21 <= d <= 0x7E
    ensures ToFull(d) == if d < 0x60 then Full(0xEF, 0xBC, d + 0x60) else Full(0xEF, 0xBD, d + 0x20)
  {
    var u := d + 0xFEE0;
    assert u == 15 * 0x1000 + (u - 0xF000);
    if d < 0x60 { assert u == 0x3FC * 64 + (d - 0x20); } else { assert u == 0x3FD * 64 + (d - 0x60); }
  }

  lemma HalfBytes(d: Byte)
    requires 0x21 <= d <= 0x7E
    ensures d < 0x60 ==> ToHalf(0xEF, 0xBC, d + 0x60) == d
    ensures d >= 0x60 ==> ToHalf(0xEF, 0xBD, d + 0x20) == d
  {
    if d < 0x60 {
      assert (d + 0x60) % 64 == d - 0x20;
      assert (0xEF % 16) * 0x1000 + (0xBC % 64) * 64 + (d - 0x20) == 0xFEE0 + d;
    } else {
      assert (d + 0x20) % 64 == d - 0x60;
      assert (0xEF % 16) * 0x1000 + (0xBD % 64) * 64 + (d - 0x60) == 0xFEE0 + d;
    }
    assert (d + 0x1_0000) % 256 == d;
  }

  /** Every printable ASCII character survives the way to full width and back. */
  lemma HalfOfFull(d: Byte)
    ensures ToFull(d).Full? <==> 0x20 <= d <= 0x7E
    ensures var f := ToFull(d); f.Full? ==> ToHalf(f.a, f.b, f.c) == d
  {
    if 0x21 <= d <= 0x7E {
      FullBytes(d);
      HalfBytes(d);
    }
  }

  // ----- one step of the loops

  /** What one round of the loop does: skip n bytes, or take n bytes and write b. */
  datatype Step = Skip(n: nat) | Take(n: nat, b: Byte)

  /** The switch: a full-width character, a number of bytes to jump over, or anything else. */
  datatype Kind = FullWidth | Jump(n: nat) | Plain

  predicate In(x: Byte, lo: Byte, hi: Byte) { lo <= x <= hi }

  function Classify(s: Bytes): (k: Kind)
    requires s != []
    ensures k.Jump? ==> 1 <= k.n && k.n + 1 <= |s|
    ensures k.FullWidth? ==>
        |s| >= 3 && s[0] == 0xEF && ((s[1] == 0xBC && In(s[2], 0x81, 0xBF)) || (s[1] == 0xBD && In(s[2], 0x80, 0x9E)))
  {
    if s[0] == 0xC2 then if 1 < |s| && In(s[1], 0xA0, 0xBF) then Jump(1) else Plain
    else if s[0] == 0xC3 then if 1 < |s| && (s[1] == 0x97 || s[1] == 0xB7) then Jump(1) else Plain
    else if s[0] == 0xE2 then
      if 2 < |s| && ((s[1] == 0x80 && In(s[2], 0x80, 0xBF)) || (s[1] == 0x81 && In(s[2], 0x80, 0xAF))) then Jump(2)
      else Plain
    else if s[0] == 0xE3 then if 2 < |s| && s[1] == 0x80 && In(s[2], 0x80, 0xBF) then Jump(2) else Plain
    else if s[0] == 0xEF && 2 < |s| then
      if s[1] == 0xBC && In(s[2], 0x81, 0xBF) then FullWidth
      else if s[1] == 0xBD && In(s[2], 0x80, 0x9E) then FullWidth
      else if s[1] == 0xB9 && In(s[2], 0x90, 0xAF) then Jump(2)
      else Plain
    else Plain
  }

  function Change(up: bool, c: Byte): Byte { if up then Upper(c) else c }

  function StepOf(s: Bytes, up: bool): (r: Step)
    requires s != []
    ensures 1 <= r.n <= |s|
  {
    match Classify(s)
    case Jump(n) => Skip(n + 1)
    case FullWidth => var h := ToHalf(s[0], s[1], s[2]); if IsPunct(h) then Skip(3) else Take(3, Change(up, h))
    case Plain => if IsPunct(s[0]) then Skip(1) else Take(1, Change(up, s[0]))
  }

  function Filter(s: Bytes, up: bool): Bytes
    decreases |s|
  {
    if s == [] then []
    else match StepOf(s, up)
      case Skip(n) => Filter(s[n..], up)
      case Take(n, b) => [b] + Filter(s[n..], up)
  }

  /** string_filter: its final *m is the number of bytes it wrote. */
  method StringFilter(s: Bytes, up: bool) returns (d: Bytes, m: int)
    ensures d == Filter(s, up) && m == |d|
  {
    hide Filter, Classify, StepOf;
    d, m := [], |s|;
    var i := 0;
    assert s[0..] == s;
    while i < |s|
      invariant 0 <= i <= |s| && d + Filter(s[i..], up) == Filter(s, up) && m == |d| + |s| - i
    {
      var st := StepOf(s[i..], up);
      FilterStep(s[i..], up);
      assert s[i..][st.n..] == s[i + st.n..];
      match st {
        case Skip(n) => m := m - n;
        case Take(n, b) => d := d + [b]; m := m - (n - 1);
      }
      i := i + st.n;
    }
    assert s[i..] == [];
    FilterNothing(up);
  }

  lemma FilterNothing(up: bool)
    ensures Filter([], up) == []
  {
  }

  lemma FilterStep(s: Bytes, up: bool)
    requires s != []
    ensures var st := StepOf(s, up); Filter(s, up) == (if st.Skip? then [] else [st.b]) + Filter(s[st.n..], up)
  {
  }

  // ----- what is left: letters, the digits 1 to 9, and bytes of multi-byte characters

  predicate IsKept(c: Byte, up: bool) { c >= 0x80 || IsNumber(c) || IsUpper(c) || (!up && IsLower(c)) }

  ghost predicate AllKept(s: Bytes, up: bool) { forall i :: 0 <= i < |s| ==> IsKept(s[i], up) }

  lemma FullWidthIsAscii(s: Bytes)
    requires s != [] && Classify(s).FullWidth?
    ensures 0x21 <= ToHalf(s[0], s[1], s[2]) <= 0x7E
  {
    var b, c := s[1], s[2];
    assert s[0] % 16 == 15;
    if b == 0xBC { HalfBytes(c - 0x60); } else { HalfBytes(c - 0x20); }
  }

  lemma TakenIsKept(s: Bytes, up: bool)
    requires s != [] && StepOf(s, up).Take?
    ensures IsKept(StepOf(s, up).b, up)
  {
    if Classify(s).FullWidth? { FullWidthIsAscii(s); }
  }

  lemma {:induction false} FilterKeeps(s: Bytes, up: bool)
    ensures AllKept(Filter(s, up), up) && |Filter(s, up)| <= |s|
    decreases |s|
  {
    if s != [] {
      var st := StepOf(s, up);
      FilterKeeps(s[st.n..], up);
      if st.Take? { TakenIsKept(s, up); }
    }
  }

  // ----- well-formed text (section 4 of RFC 3629)

  predicate IsTail(c: Byte) { 0x80 <= c <= 0xBF }

  /** The length of the UTF-8 character s begins with, 0 when it begins with none. */
  function CharLength(s: Bytes): (n: nat)
    ensures n <= |s| && n <= 4
  {
    if |s| >= 1 && s[0] <= 0x7F then 1
    else if |s| >= 2 && In(s[0], 0xC2, 0xDF) && IsTail(s[1]) then 2
    else if |s| >= 3 && IsTail(s[2]) &&
      (|| (s[0] == 0xE0 && In(s[1], 0xA0, 0xBF)) || (In(s[0], 0xE1, 0xEC) && IsTail(s[1]))
       || (s[0] == 0xED && In(s[1], 0x80, 0x9F)) || (In(s[0], 0xEE, 0xEF) && IsTail(s[1])))
    then 3
    else if |s| >= 4 && IsTail(s[2]) && IsTail(s[3]) &&
      (|| (s[0] == 0xF0 && In(s[1], 0x90, 0xBF)) || (In(s[0], 0xF1, 0xF3) && IsTail(s[1]))
       || (s[0] == 0xF4 && In(s[1], 0x80, 0x8F)))
    then 4
    else 0
  }

  predicate IsChar(c: Bytes) { c != [] && CharLength(c) == |c| }

  predicate WellFormed(s: Bytes)
    decreases |s|
  {
    s == [] || (CharLength(s) > 0 && WellFormed(s[CharLength(s)..]))
  }

  /** A character: dropped, converted to one ASCII letter or digit, or kept as it is. */
  function FilterChar(c: Bytes, up: bool): (r: Bytes)
    requires IsChar(c)
  {
    match StepOf(c, up)
    case Skip(_) => []
    case Take(n, b) => if n == |c| then [b] else c
  }

  lemma FirstChar(s: Bytes, t: Bytes)
    requires CharLength(s) > 0
    ensures CharLength(s + t) == CharLength(s) && IsChar(s[..CharLength(s)])
  {
  }

  /** The look-ahead stays within the character. */
  lemma StepOfChar(c: Bytes, t: Bytes, up: bool)
    requires IsChar(c)
    ensures StepOf(c + t, up) == StepOf(c, up)
    ensures StepOf(c, up).n == |c| || (|c| > 1 && StepOf(c, up) == Take(1, c[0]))
  {
    assert (c + t)[..|c|] == c;
    assert |c| > 2 ==> (c + t)[2] == c[2];
    assert |c| > 1 ==> (c + t)[1] == c[1];
  }

  lemma StepOfTail(s: Bytes, up: bool)
    requires s != [] && IsTail(s[0])
    ensures StepOf(s, up) == Take(1, s[0])
  {
  }

  lemma {:induction false} TailsStay(u: Bytes, t: Bytes, up: bool)
    requires forall i :: 0 <= i < |u| ==> IsTail(u[i])
    ensures Filter(u + t, up) == u + Filter(t, up)
  {
    hide Filter, Classify, StepOf;
    if u == [] { assert u + t == t; } else {
      TailsStay(u[1..], t, up);
      assert (u + t)[1..] == u[1..] + t;
      StepOfTail(u + t, up);
      FilterStep(u + t, up);
    }
  }

  /** Filtering works character by character. */
  lemma FilterOneChar(c: Bytes, t: Bytes, up: bool)
    requires IsChar(c)
    ensures Filter(c + t, up) == FilterChar(c, up) + Filter(t, up)
  {
    StepOfChar(c, t, up);
    var st := StepOf(c, up);
    if st.n == |c| {
      assert (c + t)[|c|..] == t;
    } else {
      assert (c + t)[1..] == c[1..] + t;
      TailsStay(c[1..], t, up);
    }
  }

  lemma {:induction false} FilterConcat(a: Bytes, b: Bytes, up: bool)
    requires WellFormed(a)
    ensures Filter(a + b, up) == Filter(a, up) + Filter(b, up)
    decreases |a|
  {
    hide Filter, Classify, StepOf, FilterChar, CharLength, IsChar;
    FilterNothing(up);
    if a == [] { assert a + b == b; } else {
      var n := CharLength(a);
      var c, r := a[..n], a[n..];
      FirstChar(a, b);
      assert a == c + r && a + b == c + (r + b);
      FilterConcat(r, b, up);
      FilterOneChar(c, r, up);
      FilterOneChar(c, r + b, up);
    }
  }

  /** A character that stays, stays as a well-formed character that is left alone the next time. */
  lemma FilteredChar(c: Bytes, up: bool)
    requires IsChar(c) && FilterChar(c, up) != []
    ensures IsChar(FilterChar(c, up)) && FilterChar(FilterChar(c, up), up) == FilterChar(c, up)
  {
    StepOfChar(c, [], up);
    if Classify(c).FullWidth? { FullWidthIsAscii(c); }
  }

  lemma CharThen(c: Bytes, t: Bytes)
    requires IsChar(c) && WellFormed(t)
    ensures WellFormed(c + t)
  {
    FirstChar(c, t);
    assert (c + t)[|c|..] == t;
  }

  /** On well-formed text string_filter drops or converts whole characters, stays well formed and is idempotent. */
  lemma {:induction false} FilterWellFormed(s: Bytes, up: bool)
    requires WellFormed(s)
    ensures WellFormed(Filter(s, up)) && Filter(Filter(s, up), up) == Filter(s, up)
    decreases |s|
  {
    if s != [] {
      var n := CharLength(s);
      var c, r := s[..n], s[n..];
      FirstChar(s, []);
      assert s == c + r;
      FilterWellFormed(r, up);
      FilterOneChar(c, r, up);
      var f := FilterChar(c, up);
      if f == [] {
        assert f + Filter(r, up) == Filter(r, up);
      } else {
        FilteredChar(c, up);
        CharThen(f, Filter(r, up));
        FilterOneChar(f, Filter(r, up), up);
      }
    }
  }

  /** Not so on ill-formed text: dropping a byte can put the halves of a dropped character together. */
  lemma FilterNotIdempotent()
    ensures var s: Bytes := [0xC2, 0x21, 0xA0]; Filter(s, true) == [0xC2, 0xA0] && Filter(Filter(s, true), true) == []
  {
    var s: Bytes := [0xC2, 0x21, 0xA0];
    assert s[1..] == [0x21, 0xA0] && [0x21, 0xA0][1..] == [0xA0] && [0xA0][1..] == [];
    var t: Bytes := [0xC2, 0xA0];
    assert t[2..] == [];
    assert Filter([0xA0], true) == [0xA0] + Filter([], true);
    assert Filter([0x21, 0xA0], true) == Filter([0xA0], true);
    assert Filter(t, true) == Filter([], true);
  }

  /** A byte that is neither dropped nor changed, whatever follows it. */
  predicate IsPlain(b: Byte) { IsKept(b, true) && b !in {0xC2, 0xC3, 0xE2, 0xE3, 0xEF} }

  lemma {:induction false} PlainStays(s: Bytes)
    requires forall i :: 0 <= i < |s| ==> IsPlain(s[i])
    ensures Filter(s, true) == s && Replace(s) == s
  {
    hide StepOf, Filter, Replace, Unpad;
    ReplaceStep(s);
    if s == [] {
      FilterNothing(true);
    } else {
      PlainStep(s);
      FilterStep(s, true);
      PlainStays(s[1..]);
      assert [s[0]] + Pad(DASH, 0) == [s[0]] && [s[0]] + s[1..] == s;
    }
  }

  lemma PlainStep(s: Bytes)
    requires s != [] && IsPlain(s[0])
    ensures StepOf(s, true) == Take(1, s[0])
  {
  }

  // ----- string_replace: the same steps, keeping every place

  function Pad(b: Byte, n: nat): (r: Bytes)
    ensures |r| == n && forall i :: 0 <= i < n ==> r[i] == b
  {
    seq(n, _ => b)
  }

  function Replace(s: Bytes): Bytes
    decreases |s|
  {
    if s == [] then []
    else match StepOf(s, true)
      case Skip(n) => Pad(PLUS, n) + Replace(s[n..])
      case Take(n, b) => [b] + Pad(DASH, n - 1) + Replace(s[n..])
  }

  method StringReplace(s: Bytes) returns (d: Bytes)
    ensures d == Replace(s)
  {
    hide Replace, Classify, StepOf, Unpad;
    d := [];
    var i := 0;
    assert s[0..] == s;
    while i < |s|
      invariant 0 <= i <= |s| && d + Replace(s[i..]) == Replace(s)
    {
      var st := StepOf(s[i..], true);
      ReplaceStep(s[i..]);
      assert s[i..][st.n..] == s[i + st.n..];
      match st {
        case Skip(n) => d := d + Pad(PLUS, n);
        case Take(n, b) => d := d + ([b] + Pad(DASH, n - 1));
      }
      i := i + st.n;
    }
    assert s[i..] == [];
    ReplaceStep([]);
  }

  predicate IsPad(c: Byte) { c == PLUS || c == DASH }

  /** The bytes of s that are not padding. */
  function Unpad(s: Bytes): Bytes {
    if s == [] then [] else (if IsPad(s[0]) then [] else [s[0]]) + Unpad(s[1..])
  }

  lemma {:induction false} UnpadConcat(a: Bytes, b: Bytes)
    ensures Unpad(a + b) == Unpad(a) + Unpad(b)
  {
    hide Unpad;
    UnpadStep(a);
    if a == [] { assert a + b == b; } else {
      UnpadConcat(a[1..], b);
      assert (a + b)[0] == a[0] && (a + b)[1..] == a[1..] + b;
      UnpadStep(a + b);
      Regroup(if IsPad(a[0]) then [] else [a[0]], Unpad(a[1..]), Unpad(b));
    }
  }

  lemma Regroup(a: Bytes, b: Bytes, c: Bytes)
    ensures a + (b + c) == a + b + c
  {
  }

  lemma UnpadStep(s: Bytes)
    ensures Unpad(s) == if s == [] then [] else (if IsPad(s[0]) then [] else [s[0]]) + Unpad(s[1..])
  {
  }

  lemma {:induction false} UnpadPadding(b: Byte, n: nat)
    requires IsPad(b)
    ensures Unpad(Pad(b, n)) == []
  {
    if n > 0 {
      UnpadPadding(b, n - 1);
      assert Pad(b, n)[1..] == Pad(b, n - 1);
    }
  }

  /** string_replace keeps the length, writes no star, and without its padding it is string_filter. */
  lemma {:induction false} ReplaceIsFilter(s: Bytes)
    ensures |Replace(s)| == |s| && Unpad(Replace(s)) == Filter(s, true)
    ensures forall i :: 0 <= i < |Replace(s)| ==> IsPad(Replace(s)[i]) || IsKept(Replace(s)[i], true)
    decreases |s|
  {
    hide Classify, Filter, Unpad, Replace, StepOf;
    ReplaceStep(s);
    if s != [] {
      var st := StepOf(s, true);
      ReplaceIsFilter(s[st.n..]);
      FilterStep(s, true);
      match st {
        case Skip(n) =>
          UnpadPadding(PLUS, n);
          UnpadConcat(Pad(PLUS, n), Replace(s[n..]));
        case Take(n, b) =>
          TakenIsKept(s, true);
          UnpadPadding(DASH, n - 1);
          UnpadConcat([b] + Pad(DASH, n - 1), Replace(s[n..]));
          UnpadConcat([b], Pad(DASH, n - 1));
          UnpadOne(b);
      }
    } else {
      FilterNothing(true);
    }
  }

  lemma ReplaceStep(s: Bytes)
    ensures s == [] ==> Replace(s) == [] && Unpad(Replace(s)) == []
    ensures s != [] ==>
      var st := StepOf(s, true);
      Replace(s) == (if st.Skip? then Pad(PLUS, st.n) else [st.b] + Pad(DASH, st.n - 1)) + Replace(s[st.n..])
  {
  }

  lemma UnpadOne(b: Byte)
    requires IsKept(b, true)
    ensures Unpad([b]) == [b]
  {
    assert [b][1..] == [];
  }
}
