/** Reading and writing chunks step by step: the buffered input stream (lua/lzio.c), the loader (lua/lundump.c) and the
    dumper (lua/ldump.c). */
module ChunkStreams {
  import opened ChunkFormat

  /** What a reader that delivers these blocks delivers in all: an empty block is the end. */
  ghost function Flow(chunks: seq<Bytes>): Bytes {
    if chunks == [] || chunks[0] == [] then [] else chunks[0] + Flow(chunks[1..])
  }

  lemma FlowStep(chunks: seq<Bytes>)
    ensures Flow(chunks) == if chunks == [] || chunks[0] == [] then [] else chunks[0] + Flow(chunks[1..])
  {
  }

  lemma TakeSome(buf: Bytes, p: nat, m: nat, rest: Bytes)
    requires p + m <= |buf|
    ensures buf[p..] + rest == buf[p..p + m] + (buf[p + m..] + rest)
  {
    assert buf[p..] == buf[p..p + m] + buf[p + m..];
  }

  lemma Regroup(b: Bytes, s: Bytes, r: Bytes, r': Bytes)
    requires r == s + r'
    ensures b + r == b + s + r'
  {
  }

  class Zio {
    /** The blocks the reader will deliver, one a call. */
    var chunks: seq<Bytes>
    var buf: Bytes
    var p: nat
    var n: nat

    ghost predicate Valid()
      reads this
    {
      p + n == |buf|
    }

    /** Everything still to be read. */
    ghost function Rest(): Bytes
      requires Valid()
      reads this
    {
      buf[p..] + Flow(chunks)
    }

    constructor (input: seq<Bytes>)
      ensures Valid() && Rest() == Flow(input)
    {
      chunks, buf, p, n := input, [], 0, 0;
    }

    /** luaZ_fill: takes the first byte of the next block, -1 at the end. */
    method Fill() returns (c: int)
      requires Valid() && n == 0
      modifies this
      ensures Valid() && (c == -1 <==> old(Rest()) == [])
      ensures c == -1 ==> n == 0
      ensures c != -1 ==> old(Rest()) == [c] + Rest() && p > 0 && buf[p - 1] == c
    {
      hide Flow;
      FlowStep(chunks);
      assert buf[p..] == [];
      if chunks == [] { return -1; }
      var block := chunks[0];
      chunks := chunks[1..];
      if block == [] { return -1; }
      n, p, buf := |block| - 1, 0, block;
      c := buf[p];
      p := p + 1;
    }

    /** luaZ_lookahead. */
    method Lookahead() returns (c: int)
      requires Valid()
      modifies this
      ensures Valid() && (c == -1 <==> old(Rest()) == [])
      ensures c != -1 ==> Rest() == old(Rest()) && n > 0 && Rest()[0] == c
    {
      if n == 0 {
        c := Fill();
        if c == -1 { return; }
        n, p := n + 1, p - 1;
      }
      c := buf[p];
    }

    /** luaZ_read: len bytes, however they are split into blocks; `missing` is what the stream is short of. */
    method Read(len: nat) returns (b: Bytes, missing: nat)
      requires Valid()
      modifies this
      ensures Valid()
      ensures missing == if |old(Rest())| >= len then 0 else len - |old(Rest())|
      ensures missing == 0 ==> old(Rest()) == b + Rest() && |b| == len
    {
      hide Flow;
      b, missing := [], len;
      ghost var all := Rest();
      while missing > 0
        invariant Valid() && all == b + Rest() && |b| + missing == len
      {
        var c := Lookahead();
        if c == -1 { return; }
        var m := if missing <= n then missing else n;
        ghost var rest := Rest();
        var s := Copy(m);
        Regroup(b, s, rest, Rest());
        b := b + s;
        missing := missing - m;
      }
    }

    /** The memcpy of luaZ_read: the next m bytes of the block at hand. */
    method Copy(m: nat) returns (s: Bytes)
      requires Valid() && m <= n
      modifies this`p, this`n
      ensures Valid() && |s| == m && old(Rest()) == s + Rest()
    {
      hide Flow;
      s := buf[p..p + m];
      TakeSome(buf, p, m, Flow(chunks));
      n, p := n - m, p + m;
    }
  }

  // ----- loading

  datatype Got<T> = Got(v: T) | Fail(e: Error)

  /** The step got what loading from all the rest of the stream would get, and left what that leaves. */
  ghost predicate Agrees<T>(g: Got<T>, r: Res<T>, rest: Bytes) {
    match r
    case Ok(v, left) => g == Got(v) && rest == left
    case Err(e) => g == Fail(e)
  }

  /** The elements loaded so far, and what loading the others gives, make up the whole list. */
  ghost predicate Continues<T>(whole: Res<seq<T>>, done: seq<T>, more: Res<seq<T>>) {
    match more
    case Ok(vs, rest) => whole == Ok(done + vs, rest)
    case Err(e) => whole == Err(e)
  }

  lemma ContinueStart<T>(b: Bytes, n: nat, l: Bytes -> Res<T>)
    ensures Continues(LoadList(b, n, l), [], LoadList(b, n, l))
  {
    var r := LoadList(b, n, l);
    if r.Ok? { assert [] + r.v == r.v; }
  }

  lemma ContinueStep<T>(whole: Res<seq<T>>, done: seq<T>, b: Bytes, n: nat, l: Bytes -> Res<T>)
    requires n > 0 && Continues(whole, done, LoadList(b, n, l))
    ensures match l(b) {
      case Err(e) => whole == Err(e)
      case Ok(v, rest) => Continues(whole, done + [v], LoadList(rest, n - 1, l)) }
  {
    var r := LoadList(b, n, l);
    if l(b).Ok? {
      var more := LoadList(l(b).rest, n - 1, l);
      if more.Ok? { assert done + ([l(b).v] + more.v) == done + [l(b).v] + more.v; }
    }
  }

  lemma ContinueEnd<T>(whole: Res<seq<T>>, done: seq<T>, b: Bytes, l: Bytes -> Res<T>)
    requires Continues(whole, done, LoadList(b, 0, l))
    ensures whole == Ok(done, b)
  {
    assert done + [] == done;
  }

  /** The n words of a block. */
  function Words(b: Bytes, n: nat): (w: seq<Word32>)
    requires |b| == 4 * n
    ensures |w| == n
    decreases n
  {
    if n == 0 then [] else (FromLEBound(b[..4]); [FromLE(b[..4])] + Words(b[4..], n - 1))
  }

  function Signs(w: seq<Word32>): (r: seq<Int32>)
    ensures |r| == |w|
  {
    if w == [] then [] else [Signed(w[0])] + Signs(w[1..])
  }

  /** Reading a vector as one block is reading its elements one by one. */
  lemma {:induction false} WordsBlock(b: Bytes, n: nat)
    ensures LoadList(b, n, LoadWord) == if |b| < 4 * n then Err(UnexpectedEnd) else Ok(Words(b[..4 * n], n), b[4 * n..])
    ensures
      LoadList(b, n, LoadRawInt) ==
        if |b| < 4 * n then Err(UnexpectedEnd) else Ok(Signs(Words(b[..4 * n], n)), b[4 * n..])
    decreases n
  {
    if n > 0 && |b| >= 4 {
      WordsBlock(b[4..], n - 1);
      if |b| >= 4 * n {
        assert b[..4 * n][..4] == b[..4] && b[..4 * n][4..] == b[4..][..4 * (n - 1)];
        assert b[4..][4 * (n - 1)..] == b[4 * n..];
      }
    }
  }

  class Loader {
    const z: Zio
    const check: Proto -> bool

    constructor (z: Zio, check: Proto -> bool)
      ensures this.z == z && this.check == check
    {
      this.z, this.check := z, check;
    }

    method Block(n: nat) returns (g: Got<Bytes>)
      requires z.Valid()
      modifies z
      ensures z.Valid() && Agrees(g, LoadBlock(old(z.Rest()), n), z.Rest())
    {
      ghost var all := z.Rest();
      var b, missing := z.Read(n);
      if missing != 0 { return Fail(UnexpectedEnd); }
      assert all[..n] == b && all[n..] == z.Rest();
      g := Got(b);
    }

    method ByteOf() returns (g: Got<Byte>)
      requires z.Valid()
      modifies z
      ensures z.Valid() && Agrees(g, LoadByte(old(z.Rest())), z.Rest())
    {
      var b := Block(1);
      if b.Fail? { return Fail(b.e); }
      g := Got(b.v[0]);
    }

    method IntOf() returns (g: Got<Int32>)
      requires z.Valid()
      modifies z
      ensures z.Valid() && Agrees(g, LoadInt(old(z.Rest())), z.Rest())
    {
      var b := Block(4);
      if b.Fail? { return Fail(b.e); }
      FromLEBound(b.v);
      var x := Signed(FromLE(b.v));
      if x < 0 { return Fail(BadInteger); }
      g := Got(x);
    }

    method StringOf() returns (g: Got<Str>)
      requires z.Valid()
      modifies z
      ensures z.Valid() && Agrees(g, LoadString(old(z.Rest())), z.Rest())
    {
      var b := Block(8);
      if b.Fail? { return Fail(b.e); }
      var size := FromLE(b.v);
      if size == 0 { return Got(Null); }
      var s := Block(size);
      if s.Fail? { return Fail(s.e); }
      g := Got(Text(s.v[..size - 1]));
    }

    /** LoadCode. */
    method Code(f: Proto) returns (g: Got<Proto>)
      requires z.Valid()
      modifies z
      ensures z.Valid() && Agrees(g, LoadCode(old(z.Rest()), f), z.Rest())
    {
      var n := IntOf();
      if n.Fail? { return Fail(n.e); }
      WordsBlock(z.Rest(), n.v);
      var b := Block(4 * n.v);
      if b.Fail? { return Fail(b.e); }
      g := Got(f.(code := Words(b.v, n.v)));
    }

    method LineInfo() returns (g: Got<seq<Int32>>)
      requires z.Valid()
      modifies z
      ensures z.Valid() && Agrees(g, LoadCounted(old(z.Rest()), LoadRawInt), z.Rest())
    {
      var n := IntOf();
      if n.Fail? { return Fail(n.e); }
      WordsBlock(z.Rest(), n.v);
      var b := Block(4 * n.v);
      if b.Fail? { return Fail(b.e); }
      g := Got(Signs(Words(b.v, n.v)));
    }

    method ConstOf() returns (g: Got<Const>)
      requires z.Valid()
      modifies z
      ensures z.Valid() && Agrees(g, LoadConst(old(z.Rest())), z.Rest())
    {
      hide LoadString, LoadBlock, LoadByte;
      var t := ByteOf();
      if t.Fail? { return Fail(t.e); }
      if t.v == 0 {
        g := Got(KNil);
      } else if t.v == 1 {
        var b := ByteOf();
        g := if b.Fail? then Fail(b.e) else Got(KBool(ByteChar(b.v)));
      } else if t.v == 3 {
        var b := Block(8);
        g := if b.Fail? then Fail(b.e) else Got(KNumber(b.v));
      } else if t.v == 4 {
        var s := StringOf();
        g := if s.Fail? then Fail(s.e) else Got(KString(s.v));
      } else {
        g := Fail(BadConstant);
      }
    }

    /** The first loop of LoadConstants. */
    method Constants(f: Proto) returns (g: Got<Proto>)
      requires z.Valid()
      modifies z
      ensures z.Valid() && Agrees(g, LoadKs(old(z.Rest()), f), z.Rest())
    {
      hide LoadConst, LoadInt, Continues;
      var n := IntOf();
      if n.Fail? { return Fail(n.e); }
      ghost var whole := LoadList(z.Rest(), n.v, LoadConst);
      ContinueStart(z.Rest(), n.v, LoadConst);
      var k, i := [], 0;
      while i < n.v
        invariant z.Valid() && 0 <= i <= n.v && Continues(whole, k, LoadList(z.Rest(), n.v - i, LoadConst))
      {
        ContinueStep(whole, k, z.Rest(), n.v - i, LoadConst);
        var c := ConstOf();
        if c.Fail? { return Fail(c.e); }
        k := k + [c.v];
        i := i + 1;
      }
      ContinueEnd(whole, k, z.Rest(), LoadConst);
      g := Got(f.(k := k));
    }

    method LocVars() returns (g: Got<seq<LocVar>>)
      requires z.Valid()
      modifies z
      ensures z.Valid() && Agrees(g, LoadCounted(old(z.Rest()), LoadLocVar), z.Rest())
    {
      hide LoadLocVar, LoadInt, Continues;
      var n := IntOf();
      if n.Fail? { return Fail(n.e); }
      ghost var whole := LoadList(z.Rest(), n.v, LoadLocVar);
      ContinueStart(z.Rest(), n.v, LoadLocVar);
      var vs, i := [], 0;
      while i < n.v
        invariant z.Valid() && 0 <= i <= n.v && Continues(whole, vs, LoadList(z.Rest(), n.v - i, LoadLocVar))
      {
        ContinueStep(whole, vs, z.Rest(), n.v - i, LoadLocVar);
        var v := LocVarOf();
        if v.Fail? { return Fail(v.e); }
        vs := vs + [v.v];
        i := i + 1;
      }
      ContinueEnd(whole, vs, z.Rest(), LoadLocVar);
      g := Got(vs);
    }

    method LocVarOf() returns (g: Got<LocVar>)
      requires z.Valid()
      modifies z
      ensures z.Valid() && Agrees(g, LoadLocVar(old(z.Rest())), z.Rest())
    {
      hide LoadString, LoadInt;
      var s := StringOf();
      if s.Fail? { return Fail(s.e); }
      var x := IntOf();
      if x.Fail? { return Fail(x.e); }
      var y := IntOf();
      if y.Fail? { return Fail(y.e); }
      g := Got(LocVar(s.v, x.v, y.v));
    }

    method Upvalues() returns (g: Got<seq<Str>>)
      requires z.Valid()
      modifies z
      ensures z.Valid() && Agrees(g, LoadCounted(old(z.Rest()), LoadString), z.Rest())
    {
      hide LoadString, LoadInt, Continues;
      var n := IntOf();
      if n.Fail? { return Fail(n.e); }
      ghost var whole := LoadList(z.Rest(), n.v, LoadString);
      ContinueStart(z.Rest(), n.v, LoadString);
      var vs, i := [], 0;
      while i < n.v
        invariant z.Valid() && 0 <= i <= n.v && Continues(whole, vs, LoadList(z.Rest(), n.v - i, LoadString))
      {
        ContinueStep(whole, vs, z.Rest(), n.v - i, LoadString);
        var v := StringOf();
        if v.Fail? { return Fail(v.e); }
        vs := vs + [v.v];
        i := i + 1;
      }
      ContinueEnd(whole, vs, z.Rest(), LoadString);
      g := Got(vs);
    }

    /** LoadDebug. */
    method Debug(f: Proto) returns (g: Got<Proto>)
      requires z.Valid()
      modifies z
      ensures z.Valid() && Agrees(g, LoadDebug(old(z.Rest()), f), z.Rest())
    {
      hide LoadCounted;
      var li := LineInfo();
      if li.Fail? { return Fail(li.e); }
      var lv := LocVars();
      if lv.Fail? { return Fail(lv.e); }
      var uv := Upvalues();
      if uv.Fail? { return Fail(uv.e); }
      g := Got(f.(lineinfo := li.v, locvars := lv.v, upvalues := uv.v));
    }

    method Head(p: Str) returns (g: Got<Proto>)
      requires z.Valid()
      modifies z
      ensures z.Valid() && Agrees(g, LoadHead(old(z.Rest()), p), z.Rest())
    {
      hide LoadString, LoadInt, LoadBlock;
      var s := StringOf();
      if s.Fail? { return Fail(s.e); }
      var x := IntOf();
      if x.Fail? { return Fail(x.e); }
      var y := IntOf();
      if y.Fail? { return Fail(y.e); }
      var b := Block(4);
      if b.Fail? { return Fail(b.e); }
      g := Got(Proto(if s.v == Null then p else s.v, x.v, y.v, b.v[0], b.v[1], b.v[2], b.v[3], [], [], [], [], [], []));
    }

    /** LoadFunction. */
    method Function(p: Str) returns (g: Got<Proto>)
      requires z.Valid()
      modifies z
      ensures z.Valid() && Agrees(g, LoadFunction(old(z.Rest()), p, check), z.Rest())
      decreases |z.Rest()|, 0
    {
      hide LoadHead, LoadCode, LoadKs, LoadInt, LoadFunctions, LoadDebug;
      var f0 := Head(p);
      if f0.Fail? { return Fail(f0.e); }
      var f1 := Code(f0.v);
      if f1.Fail? { return Fail(f1.e); }
      var f2 := Constants(f1.v);
      if f2.Fail? { return Fail(f2.e); }
      var n := IntOf();
      if n.Fail? { return Fail(n.e); }
      var ps := Functions(n.v, f0.v.source);
      if ps.Fail? { return Fail(ps.e); }
      var f := Debug(f2.v.(p := ps.v));
      if f.Fail? { return Fail(f.e); }
      if !check(f.v) { return Fail(BadCode); }
      g := f;
    }

    /** The second loop of LoadConstants. */
    method Functions(n: nat, p: Str) returns (g: Got<seq<Proto>>)
      requires z.Valid()
      modifies z
      ensures z.Valid() && Agrees(g, LoadFunctions(old(z.Rest()), n, p, check), z.Rest())
      decreases |z.Rest()|, 1
    {
      hide LoadFunction, Continues;
      var l := (b: Bytes) => LoadFunction(b, p, check);
      ghost var whole := LoadList(z.Rest(), n, l);
      FunctionsAreList(z.Rest(), n, p, check, l);
      ContinueStart(z.Rest(), n, l);
      var fs, i := [], 0;
      while i < n
        invariant z.Valid() && 0 <= i <= n && Continues(whole, fs, LoadList(z.Rest(), n - i, l))
        invariant |z.Rest()| <= |old(z.Rest())|
      {
        ContinueStep(whole, fs, z.Rest(), n - i, l);
        var f := Function(p);
        if f.Fail? { return Fail(f.e); }
        fs := fs + [f.v];
        i := i + 1;
      }
      ContinueEnd(whole, fs, z.Rest(), l);
      g := Got(fs);
    }

    /** luaU_undump: what it loads depends on the bytes alone, not on how the reader splits them. */
    method UndumpAll() returns (g: Got<Proto>)
      requires z.Valid()
      modifies z
      ensures z.Valid() && Agrees(g, Undump(old(z.Rest()), check), z.Rest())
    {
      hide LoadFunction, LoadBlock;
      var h := Block(|HEADER|);
      if h.Fail? { return Fail(h.e); }
      if h.v != HEADER { return Fail(BadHeader); }
      g := Function(UNKNOWN);
    }
  }

  lemma {:induction false} FunctionsAreList(b: Bytes, n: nat, p: Str, check: Proto -> bool, l: Bytes -> Res<Proto>)
    requires forall a :: l(a) == LoadFunction(a, p, check)
    ensures LoadFunctions(b, n, p, check) == LoadList(b, n, l)
    decreases n
  {
    hide LoadFunction;
    if n > 0 && l(b).Ok? { FunctionsAreList(l(b).rest, n - 1, p, check, l); }
  }
}
