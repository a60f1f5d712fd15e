/** Loading undoes dumping (lua/ldump.c, lua/lundump.c). */
module ChunkRoundTrip {
  import opened ChunkFormat

  // ----- what loading a dumped function gives

  /** The function that comes back: p is the source the dump compared with, q the source loading starts from. A null
      source becomes q; stripping erases sources and debug data. */
  function Norm(f: Proto, p: Str, q: Str, strip: bool): (r: Proto)
    decreases f, |f.p| + 2
  {
    var s := if f.source == p || strip || f.source == Null then q else f.source;
    var g := f.(source := s, p := Norms(f, 0, s, strip));
    if strip then g.(lineinfo := [], locvars := [], upvalues := []) else g
  }

  function Norms(f: Proto, i: nat, s: Str, strip: bool): (r: seq<Proto>)
    requires i <= |f.p|
    ensures |r| == |f.p| - i
    decreases f, |f.p| - i + 1
  {
    if i == |f.p| then [] else [Norm(f.p[i], f.source, s, strip)] + Norms(f, i + 1, s, strip)
  }

  predicate GoodLocVar(v: LocVar) { v.startpc >= 0 && v.endpc >= 0 }

  /** Loading accepts f: no integer it checks is negative, and the bytecode checker is content everywhere. */
  predicate Accepted(f: Proto, p: Str, q: Str, strip: bool, check: Proto -> bool)
    decreases f, |f.p| + 2
  {
    && f.linedefined >= 0 && f.lastlinedefined >= 0
    && (!strip ==> forall i :: 0 <= i < |f.locvars| ==> GoodLocVar(f.locvars[i]))
    && AcceptedAll(f, 0, Norm(f, p, q, strip).source, strip, check)
    && check(Norm(f, p, q, strip))
  }

  predicate AcceptedAll(f: Proto, i: nat, s: Str, strip: bool, check: Proto -> bool)
    requires i <= |f.p|
    decreases f, |f.p| - i + 1
  {
    i == |f.p| || (Accepted(f.p[i], f.source, s, strip, check) && AcceptedAll(f, i + 1, s, strip, check))
  }

  /** Every length fits the C type that holds it. */
  predicate Fits(f: Proto)
    decreases f, |f.p| + 2
  {
    && |f.code| <= INTMAX && |f.k| <= INTMAX && |f.p| <= INTMAX && |f.lineinfo| <= INTMAX && |f.locvars| <= INTMAX
    && |f.upvalues| <= INTMAX
    && FitsString(f.source) && (forall i :: 0 <= i < |f.k| ==> FitsConst(f.k[i]))
    && (forall i :: 0 <= i < |f.locvars| ==> FitsString(f.locvars[i].name))
    && (forall i :: 0 <= i < |f.upvalues| ==> FitsString(f.upvalues[i]))
    && forall i :: 0 <= i < |f.p| ==> Fits(f.p[i])
  }

  // ----- the parts

  lemma BlockTrip(b: Bytes, rest: Bytes)
    ensures LoadBlock(b + rest, |b|) == Ok(b, rest)
  {
  }

  lemma IntTrip(x: Int32, rest: Bytes)
    ensures LoadInt(DumpInt(x) + rest) == if x >= 0 then Ok(x, rest) else Err(BadInteger)
  {
    BlockTrip(DumpInt(x), rest);
    Powers();
    FromLEOfLE(Unsigned(x), 4);
  }

  lemma CountTrip(n: nat, rest: Bytes)
    requires n <= INTMAX
    ensures LoadInt(DumpCount(n) + rest) == Ok(n, rest)
  {
    IntTrip(n, rest);
  }

  lemma StringTrip(s: Str, rest: Bytes)
    requires FitsString(s)
    ensures LoadString(DumpString(s) + rest) == Ok(s, rest)
  {
    hide LE, FromLE, Pow256;
    Powers();
    match s {
      case Null =>
        BlockTrip(DumpSize(0), rest);
        FromLEOfLE(0, 8);
      case Text(t) =>
        BlockTrip(DumpSize(|t| + 1), t + [0] + rest);
        FromLEOfLE(|t| + 1, 8);
        assert DumpString(s) + rest == DumpSize(|t| + 1) + (t + [0] + rest);
        BlockTrip(t + [0], rest);
        assert (t + [0])[..|t|] == t;
    }
  }

  lemma WordTrip(w: Word32, rest: Bytes)
    ensures LoadWord(DumpWord(w) + rest) == Ok(w, rest)
  {
    BlockTrip(DumpWord(w), rest);
    Powers();
    FromLEOfLE(w, 4);
  }

  lemma RawIntTrip(x: Int32, rest: Bytes)
    ensures LoadRawInt(DumpInt(x) + rest) == Ok(x, rest)
  {
    BlockTrip(DumpInt(x), rest);
    Powers();
    FromLEOfLE(Unsigned(x), 4);
  }

  lemma ByteTrip(b: Byte, rest: Bytes)
    ensures LoadByte([b] + rest) == Ok(b, rest)
  {
    BlockTrip([b], rest);
  }

  lemma ConstTrip(c: Const, rest: Bytes)
    requires FitsConst(c)
    ensures LoadConst(DumpConst(c) + rest) == Ok(c, rest)
  {
    hide LoadBlock, LoadByte, LoadString, DumpString;
    match c {
      case KNil => ByteTrip(0, rest);
      case KBool(b) =>
        ByteTrip(1, [CharByte(b)] + rest);
        ByteTrip(CharByte(b), rest);
        assert DumpConst(c) + rest == [1] + ([CharByte(b)] + rest);
      case KNumber(n) =>
        ByteTrip(3, n + rest);
        BlockTrip(n, rest);
        assert DumpConst(c) + rest == [3] + (n + rest);
      case KString(s) =>
        ByteTrip(4, DumpString(s) + rest);
        StringTrip(s, rest);
        assert DumpConst(c) + rest == [4] + (DumpString(s) + rest);
    }
  }

  lemma LocVarTrip(v: LocVar, rest: Bytes)
    requires FitsString(v.name)
    ensures var r := LoadLocVar(DumpLocVar(v) + rest); if GoodLocVar(v) then r == Ok(v, rest) else r.Err?
  {
    hide LoadString, DumpString, LoadInt, DumpInt;
    var a, b := DumpInt(v.startpc), DumpInt(v.endpc);
    StringTrip(v.name, a + (b + rest));
    IntTrip(v.startpc, b + rest);
    IntTrip(v.endpc, rest);
    assert DumpLocVar(v) + rest == DumpString(v.name) + (a + (b + rest));
  }

  // ----- lists

  /** Loading undoes dumping on every element of xs that is good, and fails on the others. */
  ghost predicate Trips<T(!new)>(xs: seq<T>, d: T -> Bytes, l: Bytes -> Res<T>, good: T -> bool) {
    forall i, rest :: 0 <= i < |xs| ==> Trip(xs[i], d, l, good, rest)
  }

  ghost predicate Trip<T(!new)>(x: T, d: T -> Bytes, l: Bytes -> Res<T>, good: T -> bool, rest: Bytes) {
    if good(x) then l(d(x) + rest) == Ok(x, rest) else l(d(x) + rest).Err?
  }

  lemma {:induction false} ListTrip<T(!new)>(xs: seq<T>, d: T -> Bytes, l: Bytes -> Res<T>, good: T -> bool,
      rest: Bytes)
    requires Trips(xs, d, l, good)
    ensures var r := LoadList(Join(xs, d) + rest, |xs|, l);
      if forall i :: 0 <= i < |xs| ==> good(xs[i]) then r == Ok(xs, rest) else r.Err?
  {
    if xs == [] {
      assert Join(xs, d) + rest == rest;
    } else {
      var x, ys := xs[0], xs[1..];
      var more := Join(ys, d) + rest;
      assert Join(xs, d) + rest == d(x) + more;
      assert Trip(xs[0], d, l, good, more);
      forall i, r | 0 <= i < |ys| ensures Trip(ys[i], d, l, good, r) { assert ys[i] == xs[i + 1]; }
      ListTrip(ys, d, l, good, rest);
      assert forall i :: 0 <= i < |ys| ==> ys[i] == xs[i + 1];
      if good(x) && forall i :: 0 <= i < |ys| ==> good(ys[i]) {
        assert [x] + ys == xs;
      }
    }
  }

  lemma CountedTrip<T(!new)>(xs: seq<T>, d: T -> Bytes, l: Bytes -> Res<T>, good: T -> bool, rest: Bytes)
    requires |xs| <= INTMAX && Trips(xs, d, l, good)
    ensures var r := LoadCounted(DumpCount(|xs|) + Join(xs, d) + rest, l);
      if forall i :: 0 <= i < |xs| ==> good(xs[i]) then r == Ok(xs, rest) else r.Err?
  {
    CountTrip(|xs|, Join(xs, d) + rest);
    assert DumpCount(|xs|) + Join(xs, d) + rest == DumpCount(|xs|) + (Join(xs, d) + rest);
    ListTrip(xs, d, l, good, rest);
  }

  // ----- a function

  /** What is left of f when its lists are empty. */
  function Bare(f: Proto, s: Str): Proto {
    f.(source := s, code := [], k := [], p := [], lineinfo := [], locvars := [], upvalues := [])
  }

  lemma HeadTrip(f: Proto, p: Str, q: Str, strip: bool, rest: Bytes)
    requires FitsString(f.source)
    ensures var r := LoadHead(DumpHead(f, p, strip) + rest, q);
      if f.linedefined >= 0 && f.lastlinedefined >= 0 then r == Ok(Bare(f, Norm(f, p, q, strip).source), rest)
      else r.Err?
  {
    hide LoadString, DumpString, LoadInt, DumpInt, LoadBlock;
    var s := if f.source == p || strip then Null else f.source;
    var a, b, c := DumpInt(f.linedefined), DumpInt(f.lastlinedefined), [f.nups, f.numparams, f.isVararg, f.maxstack];
    StringTrip(s, a + (b + (c + rest)));
    IntTrip(f.linedefined, b + (c + rest));
    IntTrip(f.lastlinedefined, c + rest);
    BlockTrip(c, rest);
    assert DumpHead(f, p, strip) + rest == DumpString(s) + (a + (b + (c + rest)));
  }

  lemma CodeTrip(f: Proto, g: Proto, rest: Bytes)
    requires |f.code| <= INTMAX
    ensures LoadCode(DumpCount(|f.code|) + Join(f.code, DumpWord) + rest, g) == Ok(g.(code := f.code), rest)
  {
    var any := (w: Word32) => true;
    forall i, r | 0 <= i < |f.code| ensures Trip(f.code[i], DumpWord, LoadWord, any, r) { WordTrip(f.code[i], r); }
    CountedTrip(f.code, DumpWord, LoadWord, any, rest);
  }

  lemma KsTrip(f: Proto, g: Proto, rest: Bytes)
    requires |f.k| <= INTMAX && forall i :: 0 <= i < |f.k| ==> FitsConst(f.k[i])
    ensures LoadKs(DumpCount(|f.k|) + Join(f.k, DumpConst) + rest, g) == Ok(g.(k := f.k), rest)
  {
    var any := (c: Const) => true;
    forall i, r | 0 <= i < |f.k| ensures Trip(f.k[i], DumpConst, LoadConst, any, r) { ConstTrip(f.k[i], r); }
    CountedTrip(f.k, DumpConst, LoadConst, any, rest);
  }

  lemma LineTrip(f: Proto, rest: Bytes)
    requires |f.lineinfo| <= INTMAX
    ensures LoadCounted(DumpCount(|f.lineinfo|) + Join(f.lineinfo, DumpInt) + rest, LoadRawInt) == Ok(f.lineinfo, rest)
  {
    var any := (x: Int32) => true;
    forall i, r | 0 <= i < |f.lineinfo|
      ensures Trip(f.lineinfo[i], DumpInt, LoadRawInt, any, r)
    {
      RawIntTrip(f.lineinfo[i], r);
    }
    CountedTrip(f.lineinfo, DumpInt, LoadRawInt, any, rest);
  }

  lemma LocVarsTrip(f: Proto, rest: Bytes)
    requires |f.locvars| <= INTMAX && forall i :: 0 <= i < |f.locvars| ==> FitsString(f.locvars[i].name)
    ensures var r := LoadCounted(DumpCount(|f.locvars|) + Join(f.locvars, DumpLocVar) + rest, LoadLocVar);
      if forall i :: 0 <= i < |f.locvars| ==> GoodLocVar(f.locvars[i]) then r == Ok(f.locvars, rest) else r.Err?
  {
    forall i, r | 0 <= i < |f.locvars|
      ensures Trip(f.locvars[i], DumpLocVar, LoadLocVar, GoodLocVar, r)
    {
      LocVarTrip(f.locvars[i], r);
    }
    CountedTrip(f.locvars, DumpLocVar, LoadLocVar, GoodLocVar, rest);
  }

  lemma UpvaluesTrip(f: Proto, rest: Bytes)
    requires |f.upvalues| <= INTMAX && forall i :: 0 <= i < |f.upvalues| ==> FitsString(f.upvalues[i])
    ensures
      LoadCounted(DumpCount(|f.upvalues|) + Join(f.upvalues, DumpString) + rest, LoadString) == Ok(f.upvalues, rest)
  {
    var any := (x: Str) => true;
    forall i, r | 0 <= i < |f.upvalues|
      ensures Trip(f.upvalues[i], DumpString, LoadString, any, r)
    {
      StringTrip(f.upvalues[i], r);
    }
    CountedTrip(f.upvalues, DumpString, LoadString, any, rest);
  }

  lemma EmptyTrip<T(!new)>(l: Bytes -> Res<T>, rest: Bytes)
    ensures LoadCounted(DumpCount(0) + rest, l) == Ok([], rest)
  {
    CountTrip(0, rest);
  }

  predicate GoodDebug(f: Proto, strip: bool) {
    !strip ==> forall i :: 0 <= i < |f.locvars| ==> GoodLocVar(f.locvars[i])
  }

  lemma DebugTrip(f: Proto, strip: bool, g: Proto, rest: Bytes)
    requires Fits(f)
    ensures var r := LoadDebug(DumpDebug(f, strip) + rest, g);
      if !GoodDebug(f, strip) then r.Err?
      else if strip then r == Ok(g.(lineinfo := [], locvars := [], upvalues := []), rest)
      else r == Ok(g.(lineinfo := f.lineinfo, locvars := f.locvars, upvalues := f.upvalues), rest)
  {
    hide LoadCounted, DumpCount, Join, GoodLocVar;
    if strip {
      var z := DumpCount(0);
      assert DumpDebug(f, strip) + rest == z + (z + (z + rest));
      EmptyTrip(LoadRawInt, z + (z + rest));
      EmptyTrip(LoadLocVar, z + rest);
      EmptyTrip(LoadString, rest);
    } else {
      var a := DumpCount(|f.lineinfo|) + Join(f.lineinfo, DumpInt);
      var b := DumpCount(|f.locvars|) + Join(f.locvars, DumpLocVar);
      var c := DumpCount(|f.upvalues|) + Join(f.upvalues, DumpString);
      assert DumpDebug(f, strip) + rest == a + (b + (c + rest));
      LineTrip(f, b + (c + rest));
      LocVarsTrip(f, c + rest);
      UpvaluesTrip(f, rest);
    }
  }

  /** Loading a dumped function gives its normal form, exactly when the function is acceptable. */
  lemma {:induction false} FunctionTrip(f: Proto, p: Str, q: Str, strip: bool, check: Proto -> bool, rest: Bytes)
    requires Fits(f)
    ensures var r := LoadFunction(DumpFunction(f, p, strip) + rest, q, check);
      if Accepted(f, p, q, strip, check) then r == Ok(Norm(f, p, q, strip), rest) else r.Err?
    decreases f, |f.p| + 2
  {
    hide LoadHead, LoadCode, LoadKs, LoadDebug, LoadInt, DumpHead, DumpDebug, DumpCount, Join, LoadFunctions,
      DumpFunctions, AcceptedAll, Fits, Norms;
    FitsParts(f);
    var s := Norm(f, p, q, strip).source;
    var a, b := DumpCount(|f.code|) + Join(f.code, DumpWord), DumpCount(|f.k|) + Join(f.k, DumpConst);
    var n, c, d := DumpCount(|f.p|), DumpFunctions(f, 0, strip), DumpDebug(f, strip);
    assert DumpFunction(f, p, strip) + rest == DumpHead(f, p, strip) + (a + (b + (n + (c + (d + rest)))));
    HeadTrip(f, p, q, strip, a + (b + (n + (c + (d + rest)))));
    if f.linedefined >= 0 && f.lastlinedefined >= 0 {
      var f0 := Bare(f, s);
      CodeTrip(f, f0, b + (n + (c + (d + rest))));
      var f1 := f0.(code := f.code);
      KsTrip(f, f1, n + (c + (d + rest)));
      CountTrip(|f.p|, c + (d + rest));
      FunctionsTrip(f, 0, s, strip, check, d + rest);
      DebugTrip(f, strip, f1.(k := f.k, p := Norms(f, 0, s, strip)), rest);
    }
  }

  lemma FitsParts(f: Proto)
    requires Fits(f)
    ensures |f.code| <= INTMAX && |f.k| <= INTMAX && |f.p| <= INTMAX && FitsString(f.source)
    ensures forall i :: 0 <= i < |f.k| ==> FitsConst(f.k[i])
    ensures forall i :: 0 <= i < |f.p| ==> Fits(f.p[i])
  {
  }

  lemma {:induction false} FunctionsTrip(f: Proto, i: nat, s: Str, strip: bool, check: Proto -> bool, rest: Bytes)
    requires Fits(f) && i <= |f.p|
    ensures var r := LoadFunctions(DumpFunctions(f, i, strip) + rest, |f.p| - i, s, check);
      if AcceptedAll(f, i, s, strip, check) then r == Ok(Norms(f, i, s, strip), rest) else r.Err?
    decreases f, |f.p| - i + 1
  {
    hide LoadFunction, DumpFunction, Norm, Accepted, Fits;
    if i == |f.p| {
      assert DumpFunctions(f, i, strip) + rest == rest;
    } else {
      FitsParts(f);
      var a, b := DumpFunction(f.p[i], f.source, strip), DumpFunctions(f, i + 1, strip);
      assert DumpFunctions(f, i, strip) + rest == a + (b + rest);
      FunctionTrip(f.p[i], f.source, s, strip, check, b + rest);
      FunctionsTrip(f, i + 1, s, strip, check, rest);
    }
  }

  /** luaU_undump after luaU_dump: for every function whose sizes are representable. */
  lemma RoundTrip(f: Proto, strip: bool, check: Proto -> bool)
    requires Fits(f)
    ensures var r := Undump(Dump(f, strip), check);
      if Accepted(f, Null, UNKNOWN, strip, check) then r == Ok(Norm(f, Null, UNKNOWN, strip), []) else r.Err?
  {
    hide LoadFunction, DumpFunction, Accepted, Norm, Fits;
    var b := DumpFunction(f, Null, strip);
    BlockTrip(HEADER, b);
    FunctionTrip(f, Null, UNKNOWN, strip, check, []);
    assert b + [] == b;
  }

  // ----- when the function comes back unchanged

  /** No function in the tree is without a source. */
  predicate Sourced(f: Proto)
    decreases f, |f.p| + 2
  {
    f.source != Null && forall i :: 0 <= i < |f.p| ==> Sourced(f.p[i])
  }

  lemma NormsAt(f: Proto, i: nat, s: Str, strip: bool, j: nat)
    requires i <= j < |f.p|
    ensures Norms(f, i, s, strip)[j - i] == Norm(f.p[j], f.source, s, strip)
    decreases j - i
  {
    if i < j { NormsAt(f, i + 1, s, strip, j); }
  }

  /** Without stripping, exactly the trees in which every function has a source come back unchanged. */
  lemma {:induction false} NormIsSame(f: Proto, p: Str, q: Str)
    requires q != Null && (p == Null || p == q)
    ensures Norm(f, p, q, false) == f <==> Sourced(f)
    decreases f
  {
    var g := Norm(f, p, q, false);
    if f.source != Null {
      assert g.source == f.source;
      forall i | 0 <= i < |f.p| ensures g.p[i] == f.p[i] <==> Sourced(f.p[i]) {
        NormsAt(f, 0, f.source, false, i);
        NormIsSame(f.p[i], f.source, f.source);
      }
      if Sourced(f) { assert g.p == f.p; }
    }
  }

  /** A stripped function comes back without sources, without debug data, and with the same code. */
  lemma StrippedIs(f: Proto, p: Str, q: Str)
    ensures var g := Norm(f, p, q, true);
      && g.source == q && g.lineinfo == [] && g.locvars == [] && g.upvalues == [] && g.code == f.code && g.k == f.k
      && |g.p| == |f.p|
      && forall i :: 0 <= i < |f.p| ==> g.p[i] == Norm(f.p[i], f.source, q, true)
  {
    forall i | 0 <= i < |f.p|
      ensures Norms(f, 0, q, true)[i] == Norm(f.p[i], f.source, q, true)
    {
      NormsAt(f, 0, q, true, i);
    }
  }
}
