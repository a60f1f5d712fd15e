/** Where everything is in a precompiled chunk (lua/ldump.c): offsets, and the bytes that are there. */
module ChunkLayout {
  import opened ChunkFormat
  import opened ChunkRoundTrip

  // ----- numbers

  /** The little-endian number of four bytes at o. */
  function At4(b: Bytes, o: nat): int
    requires o + 4 <= |b|
  {
    (b[o] as int) + 0x100 * (b[o + 1] as int) + 0x1_0000 * (b[o + 2] as int) + 0x100_0000 * (b[o + 3] as int)
  }

  /** The little-endian number of eight bytes at o. */
  function At8(b: Bytes, o: nat): int
    requires o + 8 <= |b|
  {
    At4(b, o) + 0x1_0000_0000 * At4(b, o + 4)
  }

  lemma FourBytes(b: Bytes)
    requires |b| >= 4
    ensures FromLE(b) == At4(b, 0) + 0x1_0000_0000 * FromLE(b[4..])
  {
    assert b[1..][1..] == b[2..] && b[2..][1..] == b[3..] && b[3..][1..] == b[4..];
    assert FromLE(b) == b[0] + 256 * FromLE(b[1..]);
    assert FromLE(b[1..]) == b[1] + 256 * FromLE(b[2..]);
    assert FromLE(b[2..]) == b[2] + 256 * FromLE(b[3..]);
    assert FromLE(b[3..]) == b[3] + 256 * FromLE(b[4..]);
  }

  lemma LE4(x: nat)
    requires x < 0x1_0000_0000
    ensures At4(LE(x, 4), 0) == x
  {
    Powers();
    FromLEOfLE(x, 4);
    FourBytes(LE(x, 4));
  }

  lemma LE8(x: nat)
    requires x <= SIZEMAX
    ensures At8(LE(x, 8), 0) == x
  {
    hide LE, FromLE, Pow256;
    Powers();
    FromLEOfLE(x, 8);
    var b := LE(x, 8);
    FourBytes(b);
    FourBytes(b[4..]);
    assert b[4..][4..] == [];
    assert At4(b[4..], 0) == At4(b, 4);
    Nothing();
  }

  lemma Nothing()
    ensures FromLE([]) == 0
  {
  }

  // ----- a part of a chunk

  /** The bytes d are at o. */
  predicate Lies(b: Bytes, o: nat, d: Bytes) { o + |d| <= |b| && b[o..o + |d|] == d }

  lemma LiesIn(b: Bytes, o: nat, d: Bytes, o': nat, d': Bytes)
    requires Lies(b, o, d) && Lies(d, o', d')
    ensures Lies(b, o + o', d')
  {
    forall i | 0 <= i < |d'|
      ensures b[o + o' + i] == d'[i]
    {
      assert d'[i] == d[o' + i] && d[o' + i] == b[o + (o' + i)];
    }
  }

  lemma LiesSum(b: Bytes, o: nat, d: Bytes, e: Bytes)
    requires Lies(b, o, d + e)
    ensures Lies(b, o, d) && Lies(b, o + |d|, e)
  {
    assert Lies(d + e, 0, d) && Lies(d + e, |d|, e);
    LiesIn(b, o, d + e, 0, d);
    LiesIn(b, o, d + e, |d|, e);
  }

  lemma NumberLies(b: Bytes, o: nat, x: nat)
    requires x < 0x1_0000_0000 && Lies(b, o, LE(x, 4))
    ensures At4(b, o) == x
  {
    hide LE;
    LE4(x);
    var s := b[o..o + 4];
    assert b[o] == s[0] && b[o + 1] == s[1] && b[o + 2] == s[2] && b[o + 3] == s[3];
  }

  lemma SizeLies(b: Bytes, o: nat, x: nat)
    requires x <= SIZEMAX && Lies(b, o, LE(x, 8))
    ensures At8(b, o) == x
  {
    hide LE;
    LE8(x);
    var s := b[o..o + 8];
    assert b[o] == s[0] && b[o + 1] == s[1] && b[o + 2] == s[2] && b[o + 3] == s[3];
    assert b[o + 4] == s[4] && b[o + 5] == s[5] && b[o + 6] == s[6] && b[o + 7] == s[7];
  }

  /** A string: the size of its bytes and the final zero in eight bytes, then these; the null pointer is a size 0. */
  lemma StringLies(b: Bytes, o: nat, s: Str)
    requires FitsString(s) && Lies(b, o, DumpString(s))
    ensures o + 8 <= |b|
    ensures s.Null? ==> At8(b, o) == 0
    ensures s.Text? ==> At8(b, o) == |s.s| + 1 && Lies(b, o + 8, s.s) && Lies(b, o + 8 + |s.s|, [0])
  {
    hide LE, At8, At4;
    if s.Text? {
      LiesSum(b, o, DumpSize(|s.s| + 1), s.s + [0]);
      LiesSum(b, o + 8, s.s, [0]);
      SizeLies(b, o, |s.s| + 1);
    } else {
      SizeLies(b, o, 0);
    }
  }

  /** A constant: its type (nil 0, Boolean 1, number 3, string 4) in one byte, then its value. */
  lemma ConstLies(b: Bytes, o: nat, c: Const)
    requires FitsConst(c) && Lies(b, o, DumpConst(c))
    ensures o < |b| && b[o] == (if c.KNil? then 0 else if c.KBool? then 1 else if c.KNumber? then 3 else 4)
    ensures c.KBool? ==> Lies(b, o + 1, [CharByte(c.b)])
    ensures c.KNumber? ==> Lies(b, o + 1, c.n)
    ensures c.KString? ==> Lies(b, o + 1, DumpString(c.str))
  {
    hide DumpString;
    var d := DumpConst(c);
    assert d == [d[0]] + d[1..];
    LiesSum(b, o, [d[0]], d[1..]);
    assert b[o..o + 1][0] == b[o];
  }

  // ----- lists

  /** Where the i-th element of a list that begins at o is. */
  function Start<T>(o: nat, xs: seq<T>, d: T -> Bytes, i: nat): nat
    requires i <= |xs|
    decreases i
  {
    if i == 0 then o else Start(o + |d(xs[0])|, xs[1..], d, i - 1)
  }

  lemma {:induction false} RowLies<T>(b: Bytes, o: nat, xs: seq<T>, d: T -> Bytes, i: nat)
    requires i < |xs| && Lies(b, o, Join(xs, d))
    ensures Lies(b, Start(o, xs, d, i), d(xs[i]))
    decreases i
  {
    LiesSum(b, o, d(xs[0]), Join(xs[1..], d));
    if i > 0 { RowLies(b, o + |d(xs[0])|, xs[1..], d, i - 1); }
  }

  lemma {:induction false} RowEnds<T>(o: nat, xs: seq<T>, d: T -> Bytes)
    ensures Start(o, xs, d, |xs|) == o + |Join(xs, d)|
    decreases |xs|
  {
    if xs != [] { RowEnds(o + |d(xs[0])|, xs[1..], d); }
  }

  /** Four bytes each. */
  lemma {:induction false} StartEven<T>(o: nat, xs: seq<T>, d: T -> Bytes, i: nat)
    requires i <= |xs| && forall x :: |d(x)| == 4
    ensures Start(o, xs, d, i) == o + 4 * i
    decreases i
  {
    if i > 0 { StartEven(o + 4, xs[1..], d, i - 1); }
  }

  /** A list: the number of its elements in four bytes, then these. */
  ghost predicate ListAt<T(!new)>(b: Bytes, o: nat, xs: seq<T>, d: T -> Bytes) {
    && o + 4 <= |b|
    && At4(b, o) == |xs|
    && forall i :: 0 <= i < |xs| ==> Lies(b, Start(o + 4, xs, d, i), d(xs[i]))
  }

  lemma ListLies<T(!new)>(b: Bytes, o: nat, xs: seq<T>, d: T -> Bytes, rest: Bytes)
    requires |xs| < 0x1_0000_0000 && Lies(b, o, DumpCount(|xs|) + Join(xs, d) + rest)
    ensures ListAt(b, o, xs, d) && Lies(b, Start(o + 4, xs, d, |xs|), rest)
  {
    hide LE, At4, Start, Join, Lies;
    LiesSum(b, o, DumpCount(|xs|) + Join(xs, d), rest);
    LiesSum(b, o, DumpCount(|xs|), Join(xs, d));
    Inside(b, o, DumpCount(|xs|));
    NumberLies(b, o, |xs|);
    RowEnds(o + 4, xs, d);
    forall i | 0 <= i < |xs|
      ensures Lies(b, Start(o + 4, xs, d, i), d(xs[i]))
    {
      RowLies(b, o + 4, xs, d, i);
    }
  }

  lemma Inside(b: Bytes, o: nat, d: Bytes)
    requires Lies(b, o, d)
    ensures o + |d| <= |b|
  {
  }

  /** A local variable: its name, then its two places in four bytes each. */
  lemma LocVarLies(b: Bytes, o: nat, v: LocVar)
    requires FitsString(v.name) && Lies(b, o, DumpLocVar(v))
    ensures Lies(b, o, DumpString(v.name))
    ensures var a := o + 8 + (if v.name.Null? then 0 else |v.name.s| + 1);
      a + 8 <= |b| && At4(b, a) == Unsigned(v.startpc) && At4(b, a + 4) == Unsigned(v.endpc)
  {
    hide LE, At4;
    var x, y := DumpInt(v.startpc), DumpInt(v.endpc);
    LiesSum(b, o, DumpString(v.name) + x, y);
    LiesSum(b, o, DumpString(v.name), x);
    NumberLies(b, o + |DumpString(v.name)|, Unsigned(v.startpc));
    NumberLies(b, o + |DumpString(v.name)| + 4, Unsigned(v.endpc));
  }

  // ----- functions

  /** How an inner function is written; p is the source of the function around it. */
  function Inner(p: Str, strip: bool): Proto -> Bytes { f => DumpFunction(f, p, strip) }

  lemma {:induction false} InnerIs(f: Proto, i: nat, strip: bool)
    requires i <= |f.p|
    ensures DumpFunctions(f, i, strip) == Join(f.p[i..], Inner(f.source, strip))
    decreases |f.p| - i
  {
    if i < |f.p| {
      InnerIs(f, i + 1, strip);
      assert f.p[i..][0] == f.p[i] && f.p[i..][1..] == f.p[i + 1..];
    }
  }

  /** The first fields: the source, or the null pointer; two lines in four bytes each; and four single bytes. */
  predicate HeadAt(b: Bytes, o: nat, f: Proto, p: Str, strip: bool, a: nat) {
    var s := if f.source == p || strip then Null else f.source;
    && Lies(b, o, DumpString(s))
    && a == o + 8 + (if s.Null? then 0 else |s.s| + 1)
    && a + 12 <= |b|
    && At4(b, a) == Unsigned(f.linedefined)
    && At4(b, a + 4) == Unsigned(f.lastlinedefined)
    && b[a + 8] == f.nups && b[a + 9] == f.numparams && b[a + 10] == f.isVararg && b[a + 11] == f.maxstack
  }

  lemma HeadLies(b: Bytes, o: nat, f: Proto, p: Str, strip: bool)
    requires Lies(b, o, DumpHead(f, p, strip))
    ensures HeadAt(b, o, f, p, strip, o + |DumpHead(f, p, strip)| - 12)
  {
    hide LE, At4;
    var s := if f.source == p || strip then Null else f.source;
    var x, y := DumpInt(f.linedefined), DumpInt(f.lastlinedefined);
    var z := [f.nups, f.numparams, f.isVararg, f.maxstack];
    var a := o + |DumpString(s)|;
    LiesSum(b, o, DumpString(s), x + y + z);
    LiesSum(b, a, x + y, z);
    LiesSum(b, a, x, y);
    NumberLies(b, a, Unsigned(f.linedefined));
    NumberLies(b, a + 4, Unsigned(f.lastlinedefined));
    var v := b[a + 8..a + 12];
    assert b[a + 8] == v[0] && b[a + 9] == v[1] && b[a + 10] == v[2] && b[a + 11] == v[3];
  }

  /** The debug data: lines, local variables, names of upvalues; all empty in a stripped chunk. */
  ghost predicate DebugAt(b: Bytes, o: nat, f: Proto, strip: bool) {
    var lines, vars, names := if strip then [] else f.lineinfo, if strip then [] else f.locvars,
      if strip then [] else f.upvalues;
    var v := Start(o + 4, lines, DumpInt, |lines|);
    var u := Start(v + 4, vars, DumpLocVar, |vars|);
    ListAt(b, o, lines, DumpInt) && ListAt(b, v, vars, DumpLocVar) && ListAt(b, u, names, DumpString)
  }

  lemma DebugLies(b: Bytes, o: nat, f: Proto, strip: bool)
    requires |f.lineinfo| <= INTMAX && |f.locvars| <= INTMAX && |f.upvalues| <= INTMAX
    requires Lies(b, o, DumpDebug(f, strip))
    ensures DebugAt(b, o, f, strip)
  {
    hide LE, At4, Start, Lies, ListAt;
    var lines, vars, names := if strip then [] else f.lineinfo, if strip then [] else f.locvars,
      if strip then [] else f.upvalues;
    var c := DumpCount(|names|) + Join(names, DumpString);
    var m := DumpCount(|vars|) + Join(vars, DumpLocVar) + c;
    assert DumpDebug(f, strip) == DumpCount(|lines|) + Join(lines, DumpInt) + m;
    ListLies(b, o, lines, DumpInt, m);
    var v := Start(o + 4, lines, DumpInt, |lines|);
    ListLies(b, v, vars, DumpLocVar, c);
    assert c == c + [];
    ListLies(b, Start(v + 4, vars, DumpLocVar, |vars|), names, DumpString, []);
  }

  /** A function of a chunk: its first fields, its code, its constants, its inner functions, its debug data. */
  ghost predicate FunctionAt(b: Bytes, o: nat, f: Proto, p: Str, strip: bool, a: nat) {
    var k := Start(a + 16, f.code, DumpWord, |f.code|);
    var i := Start(k + 4, f.k, DumpConst, |f.k|);
    && HeadAt(b, o, f, p, strip, a)
    && ListAt(b, a + 12, f.code, DumpWord)
    && ListAt(b, k, f.k, DumpConst)
    && ListAt(b, i, f.p, Inner(f.source, strip))
    && DebugAt(b, Start(i + 4, f.p, Inner(f.source, strip), |f.p|), f, strip)
  }

  lemma FunctionLies(b: Bytes, o: nat, f: Proto, p: Str, strip: bool)
    requires Fits(f) && Lies(b, o, DumpFunction(f, p, strip))
    ensures FunctionAt(b, o, f, p, strip, o + |DumpHead(f, p, strip)| - 12)
  {
    hide LE, At4, Start, Lies, ListAt, HeadAt, DebugAt, DumpDebug, DumpHead;
    FitsParts(f);
    InnerIs(f, 0, strip);
    assert f.p[0..] == f.p;
    var g := Inner(f.source, strip);
    var d := DumpDebug(f, strip);
    var q := DumpCount(|f.p|) + Join(f.p, g) + d;
    var c := DumpCount(|f.k|) + Join(f.k, DumpConst) + q;
    var m := DumpCount(|f.code|) + Join(f.code, DumpWord) + c;
    var o' := o + |DumpHead(f, p, strip)|;
    assert DumpFunction(f, p, strip) == DumpHead(f, p, strip) + m;
    LiesSum(b, o, DumpHead(f, p, strip), m);
    HeadLies(b, o, f, p, strip);
    ListLies(b, o', f.code, DumpWord, c);
    var k := Start(o' + 4, f.code, DumpWord, |f.code|);
    ListLies(b, k, f.k, DumpConst, q);
    var i := Start(k + 4, f.k, DumpConst, |f.k|);
    ListLies(b, i, f.p, g, d);
    DebugLies(b, Start(i + 4, f.p, g, |f.p|), f, strip);
  }

  /** The i-th instruction is the word behind the fields, the count and the i instructions before it. */
  lemma CodeLies(b: Bytes, o: nat, f: Proto, p: Str, strip: bool, a: nat, i: nat)
    requires FunctionAt(b, o, f, p, strip, a) && i < |f.code|
    ensures a + 20 + 4 * i <= |b| && At4(b, a + 16 + 4 * i) == f.code[i]
    ensures Start(a + 16, f.code, DumpWord, |f.code|) == a + 16 + 4 * |f.code|
  {
    hide LE, At4, Start, HeadAt, DebugAt, DumpConst, DumpFunction;
    StartEven(a + 16, f.code, DumpWord, i);
    StartEven(a + 16, f.code, DumpWord, |f.code|);
    assert Lies(b, Start(a + 16, f.code, DumpWord, i), DumpWord(f.code[i]));
    NumberLies(b, a + 16 + 4 * i, f.code[i]);
  }

  /** A chunk: the twelve bytes of the header (signature ESC "Lua", version 5.1, format 0, little endian, and the sizes
      of int, size_t, instructions and numbers, which are not integral), then the main function. */
  lemma ChunkLies(f: Proto, strip: bool)
    requires Fits(f)
    ensures |Dump(f, strip)| >= 12
    ensures Dump(f, strip)[..12] == [0x1B, 0x4C, 0x75, 0x61, 0x51, 0, 1, 4, 8, 4, 8, 0]
    ensures exists a :: FunctionAt(Dump(f, strip), 12, f, Null, strip, a)
  {
    hide DumpFunction, FunctionAt, Fits;
    var b, d := Dump(f, strip), DumpFunction(f, Null, strip);
    assert b == HEADER + d && |HEADER| == 12 && b[..12] == HEADER;
    assert b[12..12 + |d|] == d;
    FunctionLies(b, 12, f, Null, strip);
  }

  /** Where the i-th inner function is. */
  function Place(f: Proto, strip: bool, a: nat, i: nat): nat
    requires i <= |f.p|
  {
    var k := Start(a + 16, f.code, DumpWord, |f.code|);
    Start(Start(k + 4, f.k, DumpConst, |f.k|) + 4, f.p, Inner(f.source, strip), i)
  }

  /** Each inner function has the same layout where its place in the list is. */
  lemma InnerLies(b: Bytes, o: nat, f: Proto, p: Str, strip: bool, a: nat, i: nat)
    requires Fits(f) && FunctionAt(b, o, f, p, strip, a) && i < |f.p|
    ensures exists a' :: FunctionAt(b, Place(f, strip, a, i), f.p[i], f.source, strip, a')
  {
    hide FunctionAt, Place, DumpFunction, Fits;
    FitsParts(f);
    InnerWritten(b, o, f, p, strip, a, i);
    FunctionLies(b, Place(f, strip, a, i), f.p[i], f.source, strip);
  }

  lemma InnerWritten(b: Bytes, o: nat, f: Proto, p: Str, strip: bool, a: nat, i: nat)
    requires FunctionAt(b, o, f, p, strip, a) && i < |f.p|
    ensures Lies(b, Place(f, strip, a, i), DumpFunction(f.p[i], f.source, strip))
  {
    hide At4, Start, HeadAt, DebugAt, Lies, DumpFunction;
    assert Lies(b, Place(f, strip, a, i), Inner(f.source, strip)(f.p[i]));
  }
}
