/** Dumping step by step through a writer that may fail (lua/ldump.c), and the whole way from one machine to another. */
module ChunkDump {
  import opened ChunkFormat
  import opened ChunkRoundTrip
  import opened ChunkStreams

  /** From an output `from` in status s0, the bytes b were written up to the first failure of the writer. */
  ghost predicate Wrote(from: Bytes, s0: int, to: Bytes, s: int, b: Bytes) {
    && (s0 != 0 ==> to == from && s == s0)
    && (s0 == 0 && s == 0 ==> to == from + b)
    && from <= to && to <= from + b
  }

  lemma WroteBoth(o0: Bytes, s0: int, o1: Bytes, s1: int, a: Bytes, o2: Bytes, s2: int, b: Bytes)
    requires Wrote(o0, s0, o1, s1, a) && Wrote(o1, s1, o2, s2, b)
    ensures Wrote(o0, s0, o2, s2, a + b)
  {
    if s0 == 0 && s1 == 0 {
      assert o0 + a + b == o0 + (a + b);
    } else {
      assert o2 == o1 && o1 <= o0 + a <= o0 + a + b == o0 + (a + b);
    }
  }

  lemma WroteNothing(o: Bytes, s: int)
    ensures Wrote(o, s, o, s, [])
  {
  }

  class Dumper {
    /** What the writer returns, call by call; zero once the script is over. */
    const script: seq<int>
    const strip: bool
    var calls: nat
    var out: Bytes
    var status: int

    /** The status is what the last call of the writer returned, and all calls before it succeeded. */
    ghost predicate Valid()
      reads this
    {
      && (forall i :: 0 <= i < calls - 1 && i < |script| ==> script[i] == 0)
      && status == if 0 < calls <= |script| then script[calls - 1] else 0
    }

    constructor (script: seq<int>, strip: bool)
      ensures Valid() && out == [] && status == 0 && this.strip == strip
    {
      this.script, this.strip := script, strip;
      calls, out, status := 0, [], 0;
    }

    /** DumpBlock: the writer is called only while nothing has failed. */
    method Block(b: Bytes)
      requires Valid()
      modifies this
      ensures Valid() && Wrote(old(out), old(status), out, status, b)
    {
      if status == 0 {
        status := if calls < |script| then script[calls] else 0;
        calls := calls + 1;
        if status == 0 { out := out + b; }
      }
    }

    method Text(s: Str)
      requires Valid()
      modifies this
      ensures Valid() && Wrote(old(out), old(status), out, status, DumpString(s))
    {
      hide Wrote, Valid, DumpSize;
      if s == Null {
        Block(DumpSize(0));
      } else {
        ghost var o0, s0 := out, status;
        Block(DumpSize(|s.s| + 1));
        ghost var o1, s1 := out, status;
        Block(s.s + [0]);
        WroteBoth(o0, s0, o1, s1, DumpSize(|s.s| + 1), out, status, s.s + [0]);
      }
    }

    method Constant(c: Const)
      requires Valid()
      modifies this
      ensures Valid() && Wrote(old(out), old(status), out, status, DumpConst(c))
    {
      hide Wrote, Valid, DumpString;
      ghost var o0, s0 := out, status;
      match c {
        case KNil => Block([0]);
        case KBool(b) =>
          Block([1]);
          ghost var o1, s1 := out, status;
          Block([CharByte(b)]);
          WroteBoth(o0, s0, o1, s1, [1], out, status, [CharByte(b)]);
          assert [1] + [CharByte(b)] == DumpConst(c);
        case KNumber(n) =>
          Block([3]);
          ghost var o1, s1 := out, status;
          Block(n);
          WroteBoth(o0, s0, o1, s1, [3], out, status, n);
        case KString(s) =>
          Block([4]);
          ghost var o1, s1 := out, status;
          Text(s);
          WroteBoth(o0, s0, o1, s1, [4], out, status, DumpString(s));
      }
    }

    /** The first loop of DumpConstants. */
    method Constants(k: seq<Const>)
      requires Valid()
      modifies this
      ensures Valid() && Wrote(old(out), old(status), out, status, DumpCount(|k|) + Join(k, DumpConst))
    {
      hide Wrote, Valid, DumpCount, DumpConst, Join;
      ghost var o0, s0 := out, status;
      Block(DumpCount(|k|));
      ghost var o1, s1 := out, status;
      WroteNothing(out, status);
      JoinStart(k, DumpConst);
      var i := 0;
      while i < |k|
        invariant 0 <= i <= |k| && Valid() && Wrote(o1, s1, out, status, Join(k[..i], DumpConst))
      {
        ghost var o2, s2 := out, status;
        Constant(k[i]);
        WroteBoth(o1, s1, o2, s2, Join(k[..i], DumpConst), out, status, DumpConst(k[i]));
        JoinStep(k, i, DumpConst);
        i := i + 1;
      }
      assert k[..i] == k;
      WroteBoth(o0, s0, o1, s1, DumpCount(|k|), out, status, Join(k, DumpConst));
    }

    method LocVars(vs: seq<LocVar>)
      requires Valid()
      modifies this
      ensures Valid() && Wrote(old(out), old(status), out, status, DumpCount(|vs|) + Join(vs, DumpLocVar))
    {
      hide Wrote, Valid, DumpCount, DumpLocVar, Join;
      ghost var o0, s0 := out, status;
      Block(DumpCount(|vs|));
      ghost var o1, s1 := out, status;
      WroteNothing(out, status);
      JoinStart(vs, DumpLocVar);
      var i := 0;
      while i < |vs|
        invariant 0 <= i <= |vs| && Valid() && Wrote(o1, s1, out, status, Join(vs[..i], DumpLocVar))
      {
        ghost var o2, s2 := out, status;
        OneLocVar(vs[i]);
        WroteBoth(o1, s1, o2, s2, Join(vs[..i], DumpLocVar), out, status, DumpLocVar(vs[i]));
        JoinStep(vs, i, DumpLocVar);
        i := i + 1;
      }
      assert vs[..i] == vs;
      WroteBoth(o0, s0, o1, s1, DumpCount(|vs|), out, status, Join(vs, DumpLocVar));
    }

    method OneLocVar(v: LocVar)
      requires Valid()
      modifies this
      ensures Valid() && Wrote(old(out), old(status), out, status, DumpLocVar(v))
    {
      hide Wrote, Valid, DumpString, DumpInt;
      ghost var o0, s0 := out, status;
      Text(v.name);
      ghost var o1, s1 := out, status;
      Block(DumpInt(v.startpc));
      WroteBoth(o0, s0, o1, s1, DumpString(v.name), out, status, DumpInt(v.startpc));
      ghost var o2, s2 := out, status;
      Block(DumpInt(v.endpc));
      WroteBoth(o0, s0, o2, s2, DumpString(v.name) + DumpInt(v.startpc), out, status, DumpInt(v.endpc));
    }

    method Upvalues(us: seq<Str>)
      requires Valid()
      modifies this
      ensures Valid() && Wrote(old(out), old(status), out, status, DumpCount(|us|) + Join(us, DumpString))
    {
      hide Wrote, Valid, DumpCount, DumpString, Join;
      ghost var o0, s0 := out, status;
      Block(DumpCount(|us|));
      ghost var o1, s1 := out, status;
      WroteNothing(out, status);
      JoinStart(us, DumpString);
      var i := 0;
      while i < |us|
        invariant 0 <= i <= |us| && Valid() && Wrote(o1, s1, out, status, Join(us[..i], DumpString))
      {
        ghost var o2, s2 := out, status;
        Text(us[i]);
        WroteBoth(o1, s1, o2, s2, Join(us[..i], DumpString), out, status, DumpString(us[i]));
        JoinStep(us, i, DumpString);
        i := i + 1;
      }
      assert us[..i] == us;
      WroteBoth(o0, s0, o1, s1, DumpCount(|us|), out, status, Join(us, DumpString));
    }

    /** DumpVector: the count, then all the words in one block. */
    method Vector(n: nat, b: Bytes)
      requires Valid()
      modifies this
      ensures Valid() && Wrote(old(out), old(status), out, status, DumpCount(n) + b)
    {
      hide Wrote, Valid, DumpCount;
      ghost var o0, s0 := out, status;
      Block(DumpCount(n));
      ghost var o1, s1 := out, status;
      Block(b);
      WroteBoth(o0, s0, o1, s1, DumpCount(n), out, status, b);
    }

    /** DumpDebug. */
    method Debug(f: Proto)
      requires Valid()
      modifies this
      ensures Valid() && Wrote(old(out), old(status), out, status, DumpDebug(f, strip))
    {
      hide Wrote, Valid, DumpCount, Join;
      ghost var o0, s0 := out, status;
      var li, lv, uv :=
        if strip then [] else f.lineinfo, if strip then [] else f.locvars, if strip then [] else f.upvalues;
      Vector(|li|, Join(li, DumpInt));
      ghost var o1, s1 := out, status;
      LocVars(lv);
      ghost var o2, s2 := out, status;
      var a, b, c := DumpCount(|li|) + Join(li, DumpInt), DumpCount(|lv|) + Join(lv, DumpLocVar),
        DumpCount(|uv|) + Join(uv, DumpString);
      WroteBoth(o0, s0, o1, s1, a, out, status, b);
      Upvalues(uv);
      WroteBoth(o0, s0, o2, s2, a + b, out, status, c);
      DebugBytes(f, strip, li, lv, uv);
    }

    method Head(f: Proto, p: Str)
      requires Valid()
      modifies this
      ensures Valid() && Wrote(old(out), old(status), out, status, DumpHead(f, p, strip))
    {
      hide Wrote, Valid, DumpString, DumpInt;
      ghost var o0, s0 := out, status;
      var s := if f.source == p || strip then Null else f.source;
      Text(s);
      ghost var o1, s1 := out, status;
      Block(DumpInt(f.linedefined));
      ghost var o2, s2 := out, status;
      Block(DumpInt(f.lastlinedefined));
      ghost var o3, s3 := out, status;
      Chars(f);
      var c := [f.nups, f.numparams, f.isVararg, f.maxstack];
      var x, y := DumpInt(f.linedefined), DumpInt(f.lastlinedefined);
      WroteBoth(o1, s1, o2, s2, x, o3, s3, y);
      WroteBoth(o1, s1, o3, s3, x + y, out, status, c);
      WroteBoth(o0, s0, o1, s1, DumpString(s), out, status, x + y + c);
    }

    method Chars(f: Proto)
      requires Valid()
      modifies this
      ensures Valid() && Wrote(old(out), old(status), out, status, [f.nups, f.numparams, f.isVararg, f.maxstack])
    {
      hide Wrote, Valid;
      ghost var o0, s0 := out, status;
      Block([f.nups]);
      ghost var o1, s1 := out, status;
      Block([f.numparams]);
      WroteBoth(o0, s0, o1, s1, [f.nups], out, status, [f.numparams]);
      ghost var o2, s2 := out, status;
      Block([f.isVararg]);
      WroteBoth(o0, s0, o2, s2, [f.nups] + [f.numparams], out, status, [f.isVararg]);
      ghost var o3, s3 := out, status;
      Block([f.maxstack]);
      WroteBoth(o0, s0, o3, s3, [f.nups] + [f.numparams] + [f.isVararg], out, status, [f.maxstack]);
      assert [f.nups] + [f.numparams] + [f.isVararg] + [f.maxstack] == [f.nups, f.numparams, f.isVararg, f.maxstack];
    }

    /** DumpFunction. */
    method Function(f: Proto, p: Str)
      requires Valid()
      modifies this
      ensures Valid() && Wrote(old(out), old(status), out, status, DumpFunction(f, p, strip))
      decreases f, |f.p| + 2
    {
      hide Wrote, Valid, DumpHead, DumpCount, Join, DumpFunctions, DumpDebug;
      ghost var o0, s0 := out, status;
      Head(f, p);
      ghost var o1, s1 := out, status;
      Vector(|f.code|, Join(f.code, DumpWord));
      ghost var o2, s2 := out, status;
      Constants(f.k);
      ghost var o3, s3 := out, status;
      Block(DumpCount(|f.p|));
      ghost var o4, s4 := out, status;
      Functions(f);
      ghost var o5, s5 := out, status;
      Debug(f);
      ghost var a, b := DumpCount(|f.code|) + Join(f.code, DumpWord), DumpCount(|f.k|) + Join(f.k, DumpConst);
      ghost var n, c, d := DumpCount(|f.p|), DumpFunctions(f, 0, strip), DumpDebug(f, strip);
      WroteBoth(o3, s3, o4, s4, n, o5, s5, c);
      WroteBoth(o3, s3, o5, s5, n + c, out, status, d);
      WroteBoth(o2, s2, o3, s3, b, out, status, n + c + d);
      WroteBoth(o1, s1, o2, s2, a, out, status, b + (n + c + d));
      WroteBoth(o0, s0, o1, s1, DumpHead(f, p, strip), out, status, a + (b + (n + c + d)));
    }

    /** The second loop of DumpConstants. */
    method Functions(f: Proto)
      requires Valid()
      modifies this
      ensures Valid() && Wrote(old(out), old(status), out, status, DumpFunctions(f, 0, strip))
      decreases f, |f.p| + 1
    {
      hide Wrote, Valid, DumpFunction, DumpFunctions;
      ghost var o0, s0, done := out, status, [];
      WroteNothing(out, status);
      assert [] + DumpFunctions(f, 0, strip) == DumpFunctions(f, 0, strip);
      var i := 0;
      while i < |f.p|
        invariant 0 <= i <= |f.p| && Valid() && Wrote(o0, s0, out, status, done)
        invariant done + DumpFunctions(f, i, strip) == DumpFunctions(f, 0, strip)
      {
        ghost var o1, s1 := out, status;
        Function(f.p[i], f.source);
        WroteBoth(o0, s0, o1, s1, done, out, status, DumpFunction(f.p[i], f.source, strip));
        FunctionsStep(f, i, strip, done);
        done := done + DumpFunction(f.p[i], f.source, strip);
        i := i + 1;
      }
      FunctionsEnd(f, strip);
      assert done + [] == done;
    }

    /** luaU_dump: with status 0 the whole chunk was written; otherwise a beginning of it was, and the status is the
        writer's. */
    method DumpAll(f: Proto) returns (r: int)
      requires Valid() && out == [] && status == 0
      modifies this
      ensures Valid() && r == status && (r == 0 ==> out == Dump(f, strip)) && out <= Dump(f, strip)
      ensures r != 0 ==> r in script
    {
      hide Valid, DumpFunction, Wrote;
      ghost var o0, s0 := out, status;
      Block(HEADER);
      ghost var o1, s1 := out, status;
      Function(f, Null);
      WroteBoth(o0, s0, o1, s1, HEADER, out, status, DumpFunction(f, Null, strip));
      WroteAll(out, status, HEADER + DumpFunction(f, Null, strip));
      StatusIsWriters();
      r := status;
    }

    lemma StatusIsWriters()
      requires Valid()
      ensures status != 0 ==> status in script
    {
    }
  }

  lemma WroteAll(out: Bytes, s: int, b: Bytes)
    requires Wrote([], 0, out, s, b)
    ensures (s == 0 ==> out == b) && out <= b
  {
    assert [] + b == b;
  }

  lemma JoinStart<T>(xs: seq<T>, d: T -> Bytes)
    ensures Join(xs[..0], d) == []
  {
  }

  lemma {:induction false} JoinConcat<T>(a: seq<T>, b: seq<T>, d: T -> Bytes)
    ensures Join(a + b, d) == Join(a, d) + Join(b, d)
  {
    hide Join;
    JoinFirst(a, d);
    if a == [] { assert a + b == b; } else {
      JoinConcat(a[1..], b, d);
      assert (a + b)[0] == a[0] && (a + b)[1..] == a[1..] + b;
      JoinFirst(a + b, d);
      Associative(d(a[0]), Join(a[1..], d), Join(b, d));
    }
  }

  lemma Associative(a: Bytes, b: Bytes, c: Bytes)
    ensures a + (b + c) == a + b + c
  {
  }

  lemma JoinFirst<T>(xs: seq<T>, d: T -> Bytes)
    ensures Join(xs, d) == if xs == [] then [] else d(xs[0]) + Join(xs[1..], d)
  {
  }

  lemma JoinStep<T>(xs: seq<T>, i: nat, d: T -> Bytes)
    requires i < |xs|
    ensures Join(xs[..i + 1], d) == Join(xs[..i], d) + d(xs[i])
  {
    JoinConcat(xs[..i], [xs[i]], d);
    assert xs[..i + 1] == xs[..i] + [xs[i]];
    assert [xs[i]][1..] == [];
    assert Join([xs[i]], d) == d(xs[i]) + Join([], d);
  }

  lemma FunctionsStep(f: Proto, i: nat, strip: bool, done: Bytes)
    requires i < |f.p|
    ensures
      done + DumpFunctions(f, i, strip) ==
        done + DumpFunction(f.p[i], f.source, strip) + DumpFunctions(f, i + 1, strip)
  {
    hide DumpFunction;
    Associative(done, DumpFunction(f.p[i], f.source, strip), DumpFunctions(f, i + 1, strip));
  }

  lemma FunctionsEnd(f: Proto, strip: bool)
    ensures DumpFunctions(f, |f.p|, strip) == []
  {
  }

  lemma DebugBytes(f: Proto, strip: bool, li: seq<Int32>, lv: seq<LocVar>, uv: seq<Str>)
    requires li == (if strip then [] else f.lineinfo) && lv == (if strip then [] else f.locvars)
    requires uv == (if strip then [] else f.upvalues)
    ensures
      DumpCount(|li|) + Join(li, DumpInt) + (DumpCount(|lv|) + Join(lv, DumpLocVar)) +
        (DumpCount(|uv|) + Join(uv, DumpString)) == DumpDebug(f, strip)
  {
  }

  /** A function dumped through a writer that does not fail, and loaded through a reader that delivers the bytes in
      any blocks. */
  method Transport(f: Proto, strip: bool, check: Proto -> bool, split: seq<Bytes>) returns (g: Got<Proto>)
    requires Fits(f) && Flow(split) == Dump(f, strip)
    ensures if Accepted(f, Null, UNKNOWN, strip, check) then g == Got(Norm(f, Null, UNKNOWN, strip)) else g.Fail?
  {
    hide Accepted, Norm, Fits, Undump, Dump, Flow;
    RoundTrip(f, strip, check);
    var z := new Zio(split);
    var l := new Loader(z, check);
    g := l.UndumpAll();
  }
}
