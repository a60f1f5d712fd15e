/** What loading accepts (lua/lundump.c): the form of a precompiled chunk, without reference to how it is dumped. */
module ChunkForms {
  import opened ChunkFormat
  import opened ChunkLayout

  // ----- the form of a chunk

  /** A string: a size of eight bytes, its bytes, and one more byte, which may be anything. */
  predicate IsString(w: Bytes, s: Str) {
    if s.Null? then |w| == 8 && At8(w, 0) == 0
    else |w| == 9 + |s.s| && At8(w, 0) == |s.s| + 1 && w[8..|w| - 1] == s.s
  }

  /** An int that may not be negative. */
  predicate IsInt(w: Bytes, x: Int32) { |w| == 4 && x >= 0 && At4(w, 0) == x }

  /** An int of the line numbers: it may be negative. */
  predicate IsLine(w: Bytes, x: Int32) { |w| == 4 && At4(w, 0) == Unsigned(x) }

  predicate IsWord(w: Bytes, x: Word32) { |w| == 4 && At4(w, 0) == x }

  predicate IsConst(w: Bytes, c: Const) {
    && |w| > 0
    && (c.KNil? ==> w == [0])
    && (c.KBool? ==> |w| == 2 && w[0] == 1 && w[1] == CharByte(c.b))
    && (c.KNumber? ==> |w| == 9 && w[0] == 3 && w[1..] == c.n)
    && (c.KString? ==> w[0] == 4 && IsString(w[1..], c.str))
  }

  predicate IsLocVar(w: Bytes, v: LocVar) {
    var n := |w| - 8;
    n >= 0 && IsString(w[..n], v.name) && IsInt(w[n..n + 4], v.startpc) && IsInt(w[n + 4..], v.endpc)
  }

  function Concat(ws: seq<Bytes>): Bytes { if ws == [] then [] else ws[0] + Concat(ws[1..]) }

  ghost predicate AreRow<T(!new)>(ws: seq<Bytes>, xs: seq<T>, form: (Bytes, T) -> bool) {
    |ws| == |xs| && forall i :: 0 <= i < |xs| ==> form(ws[i], xs[i])
  }

  /** A list: the number of its elements, then these. */
  ghost predicate IsList<T(!new)>(w: Bytes, xs: seq<T>, form: (Bytes, T) -> bool) {
    |w| >= 4 && |xs| <= INTMAX && At4(w, 0) == |xs| && exists ws :: w[4..] == Concat(ws) && AreRow(ws, xs, form)
  }

  /** The first fields. Where there is no source, it is q, the source of the function around this one. */
  predicate IsHead(w: Bytes, f: Proto, q: Str) {
    var n := |w| - 12;
    && n >= 0
    && (if IsString(w[..n], Null) then f.source == q else f.source.Text? && IsString(w[..n], f.source))
    && IsInt(w[n..n + 4], f.linedefined) && IsInt(w[n + 4..n + 8], f.lastlinedefined)
    && w[n + 8..] == [f.nups, f.numparams, f.isVararg, f.maxstack]
  }

  datatype Parts = Parts(head: Bytes, code: Bytes, k: Bytes, count: Bytes, inner: seq<Bytes>, lines: Bytes,
    vars: Bytes, names: Bytes)

  ghost predicate AreParts(w: Bytes, f: Proto, q: Str, ps: Parts) {
    && w == ps.head + (ps.code + (ps.k + (ps.count + (Concat(ps.inner) + (ps.lines + (ps.vars + ps.names))))))
    && IsHead(ps.head, f, q)
    && IsList(ps.code, f.code, IsWord) && IsList(ps.k, f.k, IsConst)
    && |f.p| <= INTMAX && IsInt(ps.count, |f.p|) && |ps.inner| == |f.p|
    && IsList(ps.lines, f.lineinfo, IsLine) && IsList(ps.vars, f.locvars, IsLocVar)
    && IsList(ps.names, f.upvalues, IsString)
  }

  /** w is a function of a chunk, which is f; the checker accepts it and all functions in it. */
  ghost predicate IsFunction(w: Bytes, f: Proto, q: Str, check: Proto -> bool)
    decreases f
  {
    check(f) && exists ps ::
      AreParts(w, f, q, ps) && forall i :: 0 <= i < |f.p| ==> IsFunction(ps.inner[i], f.p[i], f.source, check)
  }

  // ----- loading takes the first bytes

  ghost predicate Took(b: Bytes, rest: Bytes) { |rest| <= |b| && b[|b| - |rest|..] == rest }

  function Part(b: Bytes, rest: Bytes): Bytes
    requires |rest| <= |b|
  {
    b[..|b| - |rest|]
  }

  /** What is loaded has its form, and everything of that form is loaded. */
  ghost predicate Exact<T(!new)>(l: Bytes -> Res<T>, form: (Bytes, T) -> bool) {
    (forall b :: Sound(l, form, b)) && forall w, v, rest :: Complete(l, form, w, v, rest)
  }

  ghost predicate Sound<T(!new)>(l: Bytes -> Res<T>, form: (Bytes, T) -> bool, b: Bytes) {
    l(b).Ok? ==> Took(b, l(b).rest) && form(Part(b, l(b).rest), l(b).v)
  }

  ghost predicate Complete<T(!new)>(l: Bytes -> Res<T>, form: (Bytes, T) -> bool, w: Bytes, v: T, rest: Bytes) {
    form(w, v) ==> l(w + rest) == Ok(v, rest)
  }

  lemma TookOn(b: Bytes, r: Bytes, rest: Bytes)
    requires Took(b, r) && Took(r, rest)
    ensures Took(b, rest) && Part(b, rest) == Part(b, r) + Part(r, rest)
  {
    assert b == Part(b, r) + r && r == Part(r, rest) + rest;
  }

  lemma BlockTook(b: Bytes, n: nat)
    ensures LoadBlock(b, n).Ok? ==> Took(b, LoadBlock(b, n).rest) && Part(b, LoadBlock(b, n).rest) == LoadBlock(b, n).v
  {
  }

  lemma BlockLoads(w: Bytes, rest: Bytes)
    ensures LoadBlock(w + rest, |w|) == Ok(w, rest)
  {
  }

  lemma NumberIs(w: Bytes)
    ensures |w| == 4 ==> FromLE(w) == At4(w, 0)
    ensures |w| == 8 ==> FromLE(w) == At8(w, 0)
  {
    hide FromLE;
    Nothing();
    if |w| == 4 { FourBytes(w); assert w[4..] == []; }
    if |w| == 8 {
      FourBytes(w);
      FourBytes(w[4..]);
      assert w[4..][4..] == [] && At4(w[4..], 0) == At4(w, 4);
    }
  }

  // ----- the elements

  lemma IntExact()
    ensures Exact(LoadInt, IsInt)
  {
    hide FromLE, Took, Part, LoadBlock, At4;
    forall b ensures Sound(LoadInt, IsInt, b) {
      BlockTook(b, 4);
      if LoadBlock(b, 4).Ok? { NumberIs(LoadBlock(b, 4).v); FromLEBound(LoadBlock(b, 4).v); }
    }
    forall w, v: Int32, rest ensures Complete(LoadInt, IsInt, w, v, rest) {
      if IsInt(w, v) { BlockLoads(w, rest); NumberIs(w); }
    }
  }

  lemma LineExact()
    ensures Exact(LoadRawInt, IsLine)
  {
    hide FromLE, Took, Part, LoadBlock, At4;
    forall b ensures Sound(LoadRawInt, IsLine, b) {
      BlockTook(b, 4);
      if LoadBlock(b, 4).Ok? { NumberIs(LoadBlock(b, 4).v); FromLEBound(LoadBlock(b, 4).v); }
    }
    forall w, v: Int32, rest ensures Complete(LoadRawInt, IsLine, w, v, rest) {
      if IsLine(w, v) { BlockLoads(w, rest); NumberIs(w); }
    }
  }

  lemma WordExact()
    ensures Exact(LoadWord, IsWord)
  {
    hide FromLE, Took, Part, LoadBlock, At4;
    forall b ensures Sound(LoadWord, IsWord, b) {
      BlockTook(b, 4);
      if LoadBlock(b, 4).Ok? { NumberIs(LoadBlock(b, 4).v); }
    }
    forall w, v: Word32, rest ensures Complete(LoadWord, IsWord, w, v, rest) {
      if IsWord(w, v) { BlockLoads(w, rest); NumberIs(w); }
    }
  }

  lemma StringSound(b: Bytes)
    ensures Sound(LoadString, IsString, b)
  {
    hide FromLE, Took, Part, LoadBlock, At4, At8;
    var h := LoadBlock(b, 8);
    BlockTook(b, 8);
    if h.Ok? {
      NumberIs(h.v);
      var n := FromLE(h.v);
      if n != 0 {
        var t := LoadBlock(h.rest, n);
        BlockTook(h.rest, n);
        if t.Ok? {
          TookOn(b, h.rest, t.rest);
          StringParts(h.v, t.v);
        }
      }
    }
  }

  lemma StringParts(a: Bytes, t: Bytes)
    requires |a| == 8 && At8(a, 0) == |t| > 0
    ensures IsString(a + t, Text(t[..|t| - 1]))
  {
    assert At8(a + t, 0) == At8(a, 0);
  }

  lemma StringComplete(w: Bytes, s: Str, rest: Bytes)
    ensures Complete(LoadString, IsString, w, s, rest)
  {
    hide FromLE, LoadBlock;
    if IsString(w, s) {
      var a, t := w[..8], w[8..];
      assert w + rest == a + (t + rest) && At8(a, 0) == At8(w, 0);
      BlockLoads(a, t + rest);
      BlockLoads(t, rest);
      NumberIs(a);
      if s.Text? { assert t[..|t| - 1] == w[8..|w| - 1]; } else { assert t + rest == rest; }
    }
  }

  lemma StringExact()
    ensures Exact(LoadString, IsString)
  {
    hide LoadString, IsString, Sound, Complete;
    forall b ensures Sound(LoadString, IsString, b) { StringSound(b); }
    forall w, v: Str, rest ensures Complete(LoadString, IsString, w, v, rest) { StringComplete(w, v, rest); }
  }

  lemma ByteLoads(b: Bytes)
    ensures LoadByte(b) == if b == [] then Err(UnexpectedEnd) else Ok(b[0], b[1..])
    ensures b != [] ==> Took(b, b[1..]) && Part(b, b[1..]) == [b[0]]
  {
  }

  lemma ConstSound(b: Bytes)
    ensures Sound(LoadConst, IsConst, b)
  {
    hide LoadBlock, LoadByte, LoadString, IsString, Took, Part;
    ByteLoads(b);
    if LoadConst(b).Ok? {
      var r, c := b[1..], LoadConst(b);
      if c.v.KBool? { ByteLoads(r); TookOn(b, r, c.rest); }
      else if c.v.KNumber? { BlockTook(r, 8); TookOn(b, r, c.rest); }
      else if c.v.KString? {
        StringSound(r);
        TookOn(b, r, c.rest);
        assert ([b[0]] + Part(r, c.rest))[1..] == Part(r, c.rest);
      }
    }
  }

  lemma ConstComplete(w: Bytes, c: Const, rest: Bytes)
    ensures Complete(LoadConst, IsConst, w, c, rest)
  {
    hide LoadBlock, LoadByte, LoadString, IsString, Took, Part;
    if IsConst(w, c) {
      ByteLoads(w + rest);
      var r := w[1..];
      assert (w + rest)[1..] == r + rest;
      if c.KNil? { assert r + rest == rest; }
      else if c.KBool? { ByteLoads(r + rest); assert (r + rest)[1..] == rest; }
      else if c.KNumber? { BlockLoads(r, rest); }
      else { StringComplete(r, c.str, rest); }
    }
  }

  lemma ConstExact()
    ensures Exact(LoadConst, IsConst)
  {
    hide LoadConst, IsConst, Sound, Complete;
    forall b ensures Sound(LoadConst, IsConst, b) { ConstSound(b); }
    forall w, v: Const, rest ensures Complete(LoadConst, IsConst, w, v, rest) { ConstComplete(w, v, rest); }
  }

  lemma LocVarSound(b: Bytes)
    ensures Sound(LoadLocVar, IsLocVar, b)
  {
    hide LoadString, LoadInt, IsString, IsInt, Took, Part, Complete;
    if LoadLocVar(b).Ok? {
      StringSound(b);
      IntExact();
      var s := LoadString(b);
      var x := LoadInt(s.rest);
      var y := LoadInt(x.rest);
      assert Sound(LoadInt, IsInt, s.rest) && Sound(LoadInt, IsInt, x.rest);
      TookOn(s.rest, x.rest, y.rest);
      TookOn(b, s.rest, y.rest);
      LocVarParts(Part(b, s.rest), Part(s.rest, x.rest), Part(x.rest, y.rest), LoadLocVar(b).v);
    }
  }

  lemma LocVarParts(a: Bytes, x: Bytes, y: Bytes, v: LocVar)
    requires IsString(a, v.name) && IsInt(x, v.startpc) && IsInt(y, v.endpc)
    ensures IsLocVar(a + (x + y), v)
  {
    hide IsString;
    var w := a + (x + y);
    var n := |w| - 8;
    assert w[..n] == a && w[n..n + 4] == x && w[n + 4..] == y;
  }

  lemma LocVarComplete(w: Bytes, v: LocVar, rest: Bytes)
    ensures Complete(LoadLocVar, IsLocVar, w, v, rest)
  {
    hide LoadString, LoadInt, IsString, IsInt, Sound;
    if IsLocVar(w, v) {
      var n := |w| - 8;
      var a, x, y := w[..n], w[n..n + 4], w[n + 4..];
      assert w + rest == a + (x + (y + rest));
      StringComplete(a, v.name, x + (y + rest));
      IntExact();
      assert Complete(LoadInt, IsInt, x, v.startpc, y + rest) && Complete(LoadInt, IsInt, y, v.endpc, rest);
    }
  }

  lemma LocVarExact()
    ensures Exact(LoadLocVar, IsLocVar)
  {
    hide LoadLocVar, IsLocVar, Sound, Complete;
    forall b ensures Sound(LoadLocVar, IsLocVar, b) { LocVarSound(b); }
    forall w, v: LocVar, rest ensures Complete(LoadLocVar, IsLocVar, w, v, rest) { LocVarComplete(w, v, rest); }
  }

  // ----- lists

  lemma {:induction false} RowSound<T(!new)>(b: Bytes, n: nat, l: Bytes -> Res<T>, form: (Bytes, T) -> bool)
      returns (ws: seq<Bytes>)
    requires Exact(l, form) && LoadList(b, n, l).Ok?
    ensures Took(b, LoadList(b, n, l).rest) && Part(b, LoadList(b, n, l).rest) == Concat(ws)
    ensures AreRow(ws, LoadList(b, n, l).v, form) && |LoadList(b, n, l).v| == n
    decreases n
  {
    hide Part, Complete;
    if n == 0 { ws := []; Itself(b); } else {
      assert Sound(l, form, b);
      var vs := RowSound(l(b).rest, n - 1, l, form);
      TookOn(b, l(b).rest, LoadList(b, n, l).rest);
      ws := [Part(b, l(b).rest)] + vs;
      assert ws[1..] == vs;
    }
  }

  lemma Itself(b: Bytes)
    ensures Took(b, b) && Part(b, b) == []
  {
  }

  lemma {:induction false} RowComplete<T(!new)>(ws: seq<Bytes>, xs: seq<T>, l: Bytes -> Res<T>,
      form: (Bytes, T) -> bool, rest: Bytes)
    requires Exact(l, form) && AreRow(ws, xs, form)
    ensures LoadList(Concat(ws) + rest, |xs|, l) == Ok(xs, rest)
    decreases |xs|
  {
    hide Sound;
    if xs == [] { assert Concat(ws) + rest == rest; } else {
      RowComplete(ws[1..], xs[1..], l, form, rest);
      assert Complete(l, form, ws[0], xs[0], Concat(ws[1..]) + rest);
      assert Concat(ws) + rest == ws[0] + (Concat(ws[1..]) + rest) && [xs[0]] + xs[1..] == xs;
    }
  }

  lemma ListSound<T(!new)>(b: Bytes, l: Bytes -> Res<T>, form: (Bytes, T) -> bool)
    requires Exact(l, form) && LoadCounted(b, l).Ok?
    ensures var r := LoadCounted(b, l); Took(b, r.rest) && IsList(Part(b, r.rest), r.v, form)
  {
    hide Took, Part, LoadInt, At4, LoadList, Complete;
    var h, r := LoadInt(b), LoadCounted(b, l);
    IntExact();
    assert Sound(LoadInt, IsInt, b);
    var ws := RowSound(h.rest, h.v, l, form);
    TookOn(b, h.rest, r.rest);
    var w := Part(b, h.rest) + Concat(ws);
    assert w[4..] == Concat(ws);
    HeadOfSum(Part(b, h.rest), Concat(ws));
  }

  lemma HeadOfSum(a: Bytes, c: Bytes)
    requires |a| == 4
    ensures At4(a + c, 0) == At4(a, 0)
  {
  }

  lemma ListComplete<T(!new)>(w: Bytes, xs: seq<T>, l: Bytes -> Res<T>, form: (Bytes, T) -> bool, rest: Bytes)
    requires Exact(l, form) && IsList(w, xs, form)
    ensures LoadCounted(w + rest, l) == Ok(xs, rest)
  {
    hide LoadInt, At4, LoadList, Sound;
    var ws :| w[4..] == Concat(ws) && AreRow(ws, xs, form);
    var a := w[..4];
    assert w == a + w[4..] && w + rest == a + (w[4..] + rest);
    HeadOfSum(a, w[4..]);
    IntExact();
    assert Complete(LoadInt, IsInt, a, |xs|, w[4..] + rest);
    RowComplete(ws, xs, l, form, rest);
  }

  // ----- functions

  /** Nothing is in the lists of f. */
  predicate NoLists(f: Proto) {
    f.code == [] && f.k == [] && f.p == [] && f.lineinfo == [] && f.locvars == [] && f.upvalues == []
  }

  lemma HeadSound(b: Bytes, q: Str)
    requires LoadHead(b, q).Ok?
    ensures var r := LoadHead(b, q); Took(b, r.rest) && IsHead(Part(b, r.rest), r.v, q) && NoLists(r.v)
  {
    hide LoadString, LoadInt, LoadBlock, IsString, IsInt, Took, Part, Complete;
    StringSound(b);
    IntExact();
    var s := LoadString(b);
    var x := LoadInt(s.rest);
    var y := LoadInt(x.rest);
    var v := LoadBlock(y.rest, 4);
    assert Sound(LoadInt, IsInt, s.rest) && Sound(LoadInt, IsInt, x.rest);
    BlockTook(y.rest, 4);
    TookOn(x.rest, y.rest, v.rest);
    TookOn(s.rest, x.rest, v.rest);
    TookOn(b, s.rest, v.rest);
    HeadParts(Part(b, s.rest), s.v, Part(s.rest, x.rest), Part(x.rest, y.rest), v.v, LoadHead(b, q).v, q);
  }

  lemma HeadParts(a: Bytes, s: Str, x: Bytes, y: Bytes, z: Bytes, f: Proto, q: Str)
    requires IsString(a, s) && f.source == (if s == Null then q else s)
    requires IsInt(x, f.linedefined) && IsInt(y, f.lastlinedefined)
    requires |z| == 4 && f.nups == z[0] && f.numparams == z[1] && f.isVararg == z[2] && f.maxstack == z[3]
    ensures IsHead(a + (x + (y + z)), f, q)
  {
    hide At8, At4;
    var w := a + (x + (y + z));
    var n := |w| - 12;
    assert w[..n] == a && w[n..n + 4] == x && w[n + 4..n + 8] == y && w[n + 8..] == z;
  }

  lemma HeadComplete(w: Bytes, f: Proto, q: Str, rest: Bytes)
    requires IsHead(w, f, q)
    ensures LoadHead(w + rest, q) == Ok(f.(code := [], k := [], p := [], lineinfo := [], locvars := [], upvalues := []),
      rest)
  {
    hide LoadString, LoadInt, LoadBlock, IsString, IsInt, Sound;
    var n := |w| - 12;
    var s := if IsString(w[..n], Null) then Null else f.source;
    var a, x, y, z := w[..n], w[n..n + 4], w[n + 4..n + 8], w[n + 8..];
    assert w + rest == a + (x + (y + (z + rest)));
    StringComplete(a, s, x + (y + (z + rest)));
    IntExact();
    assert Complete(LoadInt, IsInt, x, f.linedefined, y + (z + rest));
    assert Complete(LoadInt, IsInt, y, f.lastlinedefined, z + rest);
    BlockLoads(z, rest);
  }

  lemma CodeSound(b: Bytes, f: Proto)
    requires LoadCode(b, f).Ok?
    ensures var r := LoadCode(b, f);
      Took(b, r.rest) && IsList(Part(b, r.rest), r.v.code, IsWord) && r.v == f.(code := r.v.code)
  {
    hide LoadCounted, Took, Part, IsList, Exact;
    WordExact();
    ListSound(b, LoadWord, IsWord);
  }

  lemma KsSound(b: Bytes, f: Proto)
    requires LoadKs(b, f).Ok?
    ensures var r := LoadKs(b, f);
      Took(b, r.rest) && IsList(Part(b, r.rest), r.v.k, IsConst) && r.v == f.(k := r.v.k)
  {
    hide LoadCounted, Took, Part, IsList, Exact;
    ConstExact();
    ListSound(b, LoadConst, IsConst);
  }

  lemma DebugSound(b: Bytes, f: Proto) returns (lines: Bytes, vars: Bytes, names: Bytes)
    requires LoadDebug(b, f).Ok?
    ensures Took(b, LoadDebug(b, f).rest) && Part(b, LoadDebug(b, f).rest) == lines + (vars + names)
    ensures var g := LoadDebug(b, f).v;
      && g == f.(lineinfo := g.lineinfo, locvars := g.locvars, upvalues := g.upvalues)
      && IsList(lines, g.lineinfo, IsLine) && IsList(vars, g.locvars, IsLocVar) && IsList(names, g.upvalues, IsString)
  {
    hide LoadCounted, Part, IsList, Exact;
    LineExact();
    LocVarExact();
    StringExact();
    ListSound(b, LoadRawInt, IsLine);
    var b1 := LoadCounted(b, LoadRawInt).rest;
    ListSound(b1, LoadLocVar, IsLocVar);
    var b2 := LoadCounted(b1, LoadLocVar).rest;
    ListSound(b2, LoadString, IsString);
    var b3 := LoadCounted(b2, LoadString).rest;
    TookOn(b1, b2, b3);
    TookOn(b, b1, b3);
    lines, vars, names := Part(b, b1), Part(b1, b2), Part(b2, b3);
  }

  lemma DebugComplete(f: Proto, lines: Bytes, vars: Bytes, names: Bytes, g: Proto, rest: Bytes)
    requires IsList(lines, f.lineinfo, IsLine) && IsList(vars, f.locvars, IsLocVar)
    requires IsList(names, f.upvalues, IsString)
    ensures LoadDebug(lines + (vars + (names + rest)), g)
      == Ok(g.(lineinfo := f.lineinfo, locvars := f.locvars, upvalues := f.upvalues), rest)
  {
    hide LoadCounted, IsList, Exact;
    LineExact();
    LocVarExact();
    StringExact();
    ListComplete(lines, f.lineinfo, LoadRawInt, IsLine, vars + (names + rest));
    ListComplete(vars, f.locvars, LoadLocVar, IsLocVar, names + rest);
    ListComplete(names, f.upvalues, LoadString, IsString, rest);
  }

  /** Every function that is loaded has the form of one, and is accepted. */
  lemma {:induction false} FunctionSound(b: Bytes, q: Str, check: Proto -> bool)
    requires LoadFunction(b, q, check).Ok?
    ensures var r := LoadFunction(b, q, check); Took(b, r.rest) && IsFunction(Part(b, r.rest), r.v, q, check)
    decreases |b|, 0, 0
  {
    hide LoadHead, LoadCode, LoadKs, LoadDebug, LoadInt, LoadFunctions, Part, IsHead, IsList, IsInt, Complete;
    HeadSound(b, q);
    var h := LoadHead(b, q);
    CodeSound(h.rest, h.v);
    var c := LoadCode(h.rest, h.v);
    KsSound(c.rest, c.v);
    var k := LoadKs(c.rest, c.v);
    IntExact();
    assert Sound(LoadInt, IsInt, k.rest);
    var n := LoadInt(k.rest);
    var ws := FunctionsSound(n.rest, n.v, h.v.source, check);
    var fs := LoadFunctions(n.rest, n.v, h.v.source, check);
    var lines, vars, names := DebugSound(fs.rest, k.v.(p := fs.v));
    var d := LoadDebug(fs.rest, k.v.(p := fs.v));
    TookOn(n.rest, fs.rest, d.rest);
    TookOn(k.rest, n.rest, d.rest);
    TookOn(c.rest, k.rest, d.rest);
    TookOn(h.rest, c.rest, d.rest);
    TookOn(b, h.rest, d.rest);
    HeadSame(Part(b, h.rest), h.v, d.v, q);
    var ps := Parts(Part(b, h.rest), Part(h.rest, c.rest), Part(c.rest, k.rest), Part(k.rest, n.rest), ws, lines, vars,
      names);
    assert AreParts(Part(b, d.rest), d.v, q, ps);
  }

  lemma HeadSame(w: Bytes, f: Proto, g: Proto, q: Str)
    requires IsHead(w, f, q)
    requires g == f.(code := g.code, k := g.k, p := g.p, lineinfo := g.lineinfo, locvars := g.locvars, upvalues :=
      g.upvalues)
    ensures IsHead(w, g, q)
  {
    hide IsString, IsInt;
  }

  lemma {:induction false} FunctionsSound(b: Bytes, n: nat, q: Str, check: Proto -> bool) returns (ws: seq<Bytes>)
    requires LoadFunctions(b, n, q, check).Ok?
    ensures Took(b, LoadFunctions(b, n, q, check).rest)
    ensures Part(b, LoadFunctions(b, n, q, check).rest) == Concat(ws)
    ensures var fs := LoadFunctions(b, n, q, check).v;
      |ws| == |fs| == n && forall i :: 0 <= i < n ==> IsFunction(ws[i], fs[i], q, check)
    decreases |b|, 1, n
  {
    hide LoadFunction, IsFunction, Part;
    if n == 0 { ws := []; Itself(b); } else {
      FunctionSound(b, q, check);
      var r := LoadFunction(b, q, check);
      var vs := FunctionsSound(r.rest, n - 1, q, check);
      TookOn(b, r.rest, LoadFunctions(b, n, q, check).rest);
      ws := [Part(b, r.rest)] + vs;
      assert ws[1..] == vs;
    }
  }

  /** Everything that has the form of a function and is accepted is loaded. */
  lemma {:induction false} FunctionComplete(w: Bytes, f: Proto, q: Str, check: Proto -> bool, rest: Bytes)
    requires IsFunction(w, f, q, check)
    ensures LoadFunction(w + rest, q, check) == Ok(f, rest)
    decreases f, |f.p| + 1
  {
    hide LoadHead, LoadDebug, LoadCounted, LoadInt, LoadFunctions, IsHead, IsList, IsInt, Sound;
    var ps :| AreParts(w, f, q, ps)
      && forall i :: 0 <= i < |f.p| ==> IsFunction(ps.inner[i], f.p[i], f.source, check);
    var d := ps.lines + (ps.vars + (ps.names + rest));
    var n := ps.count + (Concat(ps.inner) + d);
    assert w + rest == ps.head + (ps.code + (ps.k + n));
    HeadComplete(ps.head, f, q, ps.code + (ps.k + n));
    WordExact();
    ListComplete(ps.code, f.code, LoadWord, IsWord, ps.k + n);
    ConstExact();
    ListComplete(ps.k, f.k, LoadConst, IsConst, n);
    IntExact();
    assert Complete(LoadInt, IsInt, ps.count, |f.p|, Concat(ps.inner) + d);
    FunctionsComplete(ps.inner, f, 0, check, d);
    assert f.p[0..] == f.p && ps.inner[0..] == ps.inner;
    DebugComplete(f, ps.lines, ps.vars, ps.names, f.(lineinfo := [], locvars := [], upvalues := []), rest);
  }

  lemma {:induction false} FunctionsComplete(ws: seq<Bytes>, f: Proto, i: nat, check: Proto -> bool, rest: Bytes)
    requires i <= |f.p| == |ws|
    requires forall j :: i <= j < |f.p| ==> IsFunction(ws[j], f.p[j], f.source, check)
    ensures LoadFunctions(Concat(ws[i..]) + rest, |f.p| - i, f.source, check) == Ok(f.p[i..], rest)
    decreases f, |f.p| - i
  {
    hide LoadFunction, IsFunction;
    if i == |f.p| { assert Concat(ws[i..]) + rest == rest; } else {
      var more := Concat(ws[i + 1..]) + rest;
      assert ws[i..][1..] == ws[i + 1..] && Concat(ws[i..]) + rest == ws[i] + more;
      FunctionComplete(ws[i], f.p[i], f.source, check, more);
      FunctionsComplete(ws, f, i + 1, check, rest);
      assert [f.p[i]] + f.p[i + 1..] == f.p[i..];
    }
  }

  /** luaU_undump, on any bytes whatever: it gives f and leaves the rest if and only if they begin with the twelve bytes
      of the header and a function in the form of a chunk, which is f, and the checker accepts it and all functions in
      it. The function has the source "=?" if none is written. */
  lemma UndumpAccepts(b: Bytes, f: Proto, rest: Bytes, check: Proto -> bool)
    ensures Undump(b, check) == Ok(f, rest) <==>
      exists w :: b == [0x1B, 0x4C, 0x75, 0x61, 0x51, 0, 1, 4, 8, 4, 8, 0] + w + rest
        && IsFunction(w, f, Text([0x3D, 0x3F]), check)
  {
    hide LoadFunction, IsFunction;
    if Undump(b, check) == Ok(f, rest) {
      var c := b[12..];
      FunctionSound(c, UNKNOWN, check);
      assert b == HEADER + Part(c, rest) + rest;
    }
    forall w | b == HEADER + w + rest && IsFunction(w, f, UNKNOWN, check)
      ensures Undump(b, check) == Ok(f, rest)
    {
      assert b == HEADER + (w + rest);
      BlockLoads(HEADER, w + rest);
      FunctionComplete(w, f, UNKNOWN, check, rest);
    }
  }
}
