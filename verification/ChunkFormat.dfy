/** Precompiled Lua chunks (lua/ldump.c, lua/lundump.c): what dumping writes and what loading reads, as functions.
    The sizes are those of a 64-bit little-endian machine. */
module ChunkFormat {

  type Byte = x: int | 0 <= x < 256
  type Bytes = seq<Byte>
  type Int32 = x: int | -0x8000_0000 <= x < 0x8000_0000
  type Word32 = x: int | 0 <= x < 0x1_0000_0000
  type Char = x: int | -128 <= x < 128

  const INTMAX: int := 0x7FFF_FFFF
  const SIZEMAX: int := 0xFFFF_FFFF_FFFF_FFFF

  /** A string, or the null pointer. */
  datatype Str = Null | Text(s: Bytes)

  /** A constant; a number is its eight bytes, a Boolean the integer that stands for it. */
  datatype Const = KNil | KBool(b: Char) | KNumber(n: Bytes) | KString(str: Str)

  datatype LocVar = LocVar(name: Str, startpc: Int32, endpc: Int32)

  datatype Proto = Proto(source: Str, linedefined: Int32, lastlinedefined: Int32, nups: Byte, numparams: Byte,
    isVararg: Byte, maxstack: Byte,
    code: seq<Word32>, k: seq<Const>, p: seq<Proto>, lineinfo: seq<Int32>, locvars: seq<LocVar>, upvalues: seq<Str>)

  datatype Error = UnexpectedEnd | BadInteger | BadConstant | BadCode | BadHeader

  datatype Res<T> = Ok(v: T, rest: Bytes) | Err(e: Error)

  // ----- numbers

  /** The n low-order bytes of x, lowest first. */
  function LE(x: nat, n: nat): (b: Bytes)
    ensures |b| == n
  {
    if n == 0 then [] else [x % 256] + LE(x / 256, n - 1)
  }

  function FromLE(b: Bytes): nat { if b == [] then 0 else b[0] + 256 * FromLE(b[1..]) }

  function Pow256(n: nat): nat { if n == 0 then 1 else 256 * Pow256(n - 1) }

  lemma {:induction false} FromLEOfLE(x: nat, n: nat)
    requires x < Pow256(n)
    ensures FromLE(LE(x, n)) == x
  {
    if n > 0 { FromLEOfLE(x / 256, n - 1); }
  }

  lemma Powers()
    ensures Pow256(1) == 0x100 && Pow256(4) == 0x1_0000_0000 && Pow256(8) == SIZEMAX + 1
  {
    assert Pow256(4) == 0x1_0000_0000;
    assert Pow256(8) == 256 * 256 * 256 * 256 * Pow256(4);
  }

  function Unsigned(x: Int32): Word32 { if x < 0 then x + 0x1_0000_0000 else x }

  /** The int with the bits of x. */
  function Signed(x: int): int { if x >= 0x8000_0000 then x - 0x1_0000_0000 else x }

  function CharByte(c: Char): Byte { if c < 0 then c + 256 else c }

  function ByteChar(b: Byte): Char { if b >= 128 then b - 256 else b }

  // ----- dumping

  function DumpInt(x: Int32): Bytes { LE(Unsigned(x), 4) }

  function DumpSize(n: nat): Bytes { LE(n, 8) }

  function DumpString(s: Str): Bytes {
    match s
    case Null => DumpSize(0)
    case Text(t) => DumpSize(|t| + 1) + (t + [0])
  }

  /** Strings with their sizes representable. */
  predicate FitsString(s: Str) { s.Text? ==> |s.s| < SIZEMAX }

  function Join<T>(xs: seq<T>, d: T -> Bytes): Bytes {
    if xs == [] then [] else d(xs[0]) + Join(xs[1..], d)
  }

  function DumpWord(w: Word32): Bytes { LE(w, 4) }

  /** The element count that precedes a list. */
  function DumpCount(n: nat): Bytes { LE(n, 4) }

  function DumpConst(c: Const): Bytes {
    match c
    case KNil => [0]
    case KBool(b) => [1, CharByte(b)]
    case KNumber(n) => [3] + n
    case KString(s) => [4] + DumpString(s)
  }

  predicate FitsConst(c: Const) { (c.KNumber? ==> |c.n| == 8) && (c.KString? ==> FitsString(c.str)) }

  function DumpLocVar(v: LocVar): Bytes { DumpString(v.name) + DumpInt(v.startpc) + DumpInt(v.endpc) }

  /** DumpDebug. */
  function DumpDebug(f: Proto, strip: bool): Bytes {
    if strip then DumpCount(0) + DumpCount(0) + DumpCount(0)
    else
      DumpCount(|f.lineinfo|) + Join(f.lineinfo, DumpInt) + (DumpCount(|f.locvars|) + Join(f.locvars, DumpLocVar))
        + (DumpCount(|f.upvalues|) + Join(f.upvalues, DumpString))
  }

  function DumpHead(f: Proto, p: Str, strip: bool): Bytes {
    DumpString(if f.source == p || strip then Null else f.source) + (DumpInt(f.linedefined) + DumpInt(f.lastlinedefined)
      + [f.nups, f.numparams, f.isVararg, f.maxstack])
  }

  /** DumpFunction; p is the source of the enclosing function. */
  function DumpFunction(f: Proto, p: Str, strip: bool): Bytes
    decreases f, |f.p| + 2
  {
    DumpHead(f, p, strip) + (DumpCount(|f.code|) + Join(f.code, DumpWord) + (DumpCount(|f.k|) + Join(f.k, DumpConst)
      + (DumpCount(|f.p|) + DumpFunctions(f, 0, strip) + DumpDebug(f, strip))))
  }

  /** The inner functions from the i-th on. */
  function DumpFunctions(f: Proto, i: nat, strip: bool): Bytes
    requires i <= |f.p|
    decreases f, |f.p| - i + 1
  {
    if i == |f.p| then [] else DumpFunction(f.p[i], f.source, strip) + DumpFunctions(f, i + 1, strip)
  }

  /** luaU_header: signature, version, format, endianness, the sizes of int, size_t, instructions and numbers,
      integral numbers. */
  const HEADER: Bytes := [0x1B, 0x4C, 0x75, 0x61, 0x51, 0, 1, 4, 8, 4, 8, 0]

  function Dump(f: Proto, strip: bool): Bytes { HEADER + DumpFunction(f, Null, strip) }

  // ----- loading

  function LoadBlock(b: Bytes, n: nat): (r: Res<Bytes>)
    ensures r.Ok? ==> |r.rest| + n == |b| && |r.v| == n
  {
    if |b| < n then Err(UnexpectedEnd) else Ok(b[..n], b[n..])
  }

  function LoadByte(b: Bytes): (r: Res<Byte>)
    ensures r.Ok? ==> |r.rest| + 1 == |b|
  {
    match LoadBlock(b, 1)
    case Err(e) => Err(e)
    case Ok(v, rest) => Ok(v[0], rest)
  }

  function LoadInt(b: Bytes): (r: Res<Int32>)
    ensures r.Ok? ==> |r.rest| + 4 == |b| && r.v >= 0
  {
    match LoadBlock(b, 4)
    case Err(e) => Err(e)
    case Ok(v, rest) => (
      var x := Signed(FromLE(v));
      FromLEBound(v);
      if x < 0 then Err(BadInteger) else Ok(x, rest))
  }

  lemma {:induction false} FromLEBound(b: Bytes)
    ensures FromLE(b) < Pow256(|b|)
    ensures |b| == 4 ==> FromLE(b) < 0x1_0000_0000
  {
    if b != [] { FromLEBound(b[1..]); }
    Powers();
  }

  /** LoadString: a size of zero is the null pointer; otherwise the last byte read is dropped. */
  function LoadString(b: Bytes): (r: Res<Str>)
    ensures r.Ok? ==> |r.rest| < |b|
  {
    match LoadBlock(b, 8)
    case Err(e) => Err(e)
    case Ok(v, rest) => (
      var n := FromLE(v);
      if n == 0 then Ok(Null, rest)
      else match LoadBlock(rest, n)
        case Err(e) => Err(e)
        case Ok(s, rest2) => Ok(Text(s[..n - 1]), rest2))
  }

  /** n elements in a row. */
  function LoadList<T>(b: Bytes, n: nat, l: Bytes -> Res<T>): (r: Res<seq<T>>)
    decreases n
  {
    if n == 0 then Ok([], b)
    else match l(b)
      case Err(e) => Err(e)
      case Ok(v, rest) => (
        match LoadList(rest, n - 1, l)
        case Err(e) => Err(e)
        case Ok(vs, rest2) => Ok([v] + vs, rest2))
  }

  /** A count, then as many elements. */
  function LoadCounted<T>(b: Bytes, l: Bytes -> Res<T>): (r: Res<seq<T>>) {
    match LoadInt(b)
    case Err(e) => Err(e)
    case Ok(n, rest) => LoadList(rest, n, l)
  }

  function LoadWord(b: Bytes): (r: Res<Word32>)
    ensures r.Ok? ==> |r.rest| <= |b|
  {
    match LoadBlock(b, 4)
    case Err(e) => Err(e)
    case Ok(v, rest) => (FromLEBound(v); Ok(FromLE(v), rest))
  }

  /** An element of the vector of line numbers: any int. */
  function LoadRawInt(b: Bytes): (r: Res<Int32>)
    ensures r.Ok? ==> |r.rest| <= |b|
  {
    match LoadBlock(b, 4)
    case Err(e) => Err(e)
    case Ok(v, rest) => (FromLEBound(v); Ok(Signed(FromLE(v)), rest))
  }

  function LoadConst(b: Bytes): (r: Res<Const>)
    ensures r.Ok? ==> |r.rest| <= |b|
  {
    match LoadByte(b)
    case Err(e) => Err(e)
    case Ok(t, rest) => (
      if t == 0 then Ok(KNil, rest)
      else if t == 1 then (match LoadByte(rest) case Err(e) => Err(e) case Ok(v, rest2) => Ok(KBool(ByteChar(v)),
        rest2))
      else if t == 3 then (match LoadBlock(rest, 8) case Err(e) => Err(e) case Ok(v, rest2) => Ok(KNumber(v), rest2))
      else if t == 4 then (match LoadString(rest) case Err(e) => Err(e) case Ok(v, rest2) => Ok(KString(v), rest2))
      else Err(BadConstant))
  }

  function LoadLocVar(b: Bytes): (r: Res<LocVar>)
    ensures r.Ok? ==> |r.rest| <= |b|
  {
    match LoadString(b)
    case Err(e) => Err(e)
    case Ok(name, b1) => (
      match LoadInt(b1)
      case Err(e) => Err(e)
      case Ok(x, b2) => (
        match LoadInt(b2)
        case Err(e) => Err(e)
        case Ok(y, b3) => Ok(LocVar(name, x, y), b3)))
  }

  /** The first fields of a function, with nothing in its lists; p is the source of the enclosing function. */
  function LoadHead(b: Bytes, p: Str): (r: Res<Proto>)
    ensures r.Ok? ==> |r.rest| < |b|
  {
    match LoadString(b)
    case Err(e) => Err(e)
    case Ok(s, b1) => (
      match LoadInt(b1)
      case Err(e) => Err(e)
      case Ok(x, b2) => (
        match LoadInt(b2)
        case Err(e) => Err(e)
        case Ok(y, b3) => (
          match LoadBlock(b3, 4)
          case Err(e) => Err(e)
          case Ok(v, b4) =>
            Ok(Proto(if s == Null then p else s, x, y, v[0], v[1], v[2], v[3], [], [], [], [], [], []), b4))))
  }

  lemma {:induction false} ListShrinks<T>(b: Bytes, n: nat, l: Bytes -> Res<T>)
    requires forall a :: l(a).Ok? ==> |l(a).rest| <= |a|
    ensures var r := LoadList(b, n, l); r.Ok? ==> |r.rest| <= |b| && |r.v| == n
    decreases n
  {
    if n > 0 && l(b).Ok? { ListShrinks(l(b).rest, n - 1, l); }
  }

  lemma CountedShrinks<T>(b: Bytes, l: Bytes -> Res<T>)
    requires forall a :: l(a).Ok? ==> |l(a).rest| <= |a|
    ensures var r := LoadCounted(b, l); r.Ok? ==> |r.rest| <= |b|
  {
    if LoadInt(b).Ok? { ListShrinks(LoadInt(b).rest, LoadInt(b).v, l); }
  }

  function LoadCode(b: Bytes, f: Proto): (r: Res<Proto>)
    ensures r.Ok? ==> |r.rest| <= |b|
  {
    CountedShrinks(b, LoadWord);
    match LoadCounted(b, LoadWord)
    case Err(e) => Err(e)
    case Ok(v, rest) => Ok(f.(code := v), rest)
  }

  function LoadKs(b: Bytes, f: Proto): (r: Res<Proto>)
    ensures r.Ok? ==> |r.rest| <= |b|
  {
    CountedShrinks(b, LoadConst);
    match LoadCounted(b, LoadConst)
    case Err(e) => Err(e)
    case Ok(v, rest) => Ok(f.(k := v), rest)
  }

  function LoadDebug(b: Bytes, f: Proto): (r: Res<Proto>)
    ensures r.Ok? ==> |r.rest| <= |b|
  {
    CountedShrinks(b, LoadRawInt);
    match LoadCounted(b, LoadRawInt)
    case Err(e) => Err(e)
    case Ok(li, b1) => (
      CountedShrinks(b1, LoadLocVar);
      match LoadCounted(b1, LoadLocVar)
      case Err(e) => Err(e)
      case Ok(lv, b2) => (
        CountedShrinks(b2, LoadString);
        match LoadCounted(b2, LoadString)
        case Err(e) => Err(e)
        case Ok(uv, b3) => Ok(f.(lineinfo := li, locvars := lv, upvalues := uv), b3)))
  }

  /** LoadFunction; `check` is the bytecode checker. */
  function LoadFunction(b: Bytes, p: Str, check: Proto -> bool): (r: Res<Proto>)
    ensures r.Ok? ==> |r.rest| < |b|
    decreases |b|, 0, 0
  {
    match LoadHead(b, p)
    case Err(e) => Err(e)
    case Ok(f0, b0) => (
      match LoadCode(b0, f0)
      case Err(e) => Err(e)
      case Ok(f1, b1) => (
        match LoadKs(b1, f1)
        case Err(e) => Err(e)
        case Ok(f2, b2) => (
          match LoadInt(b2)
          case Err(e) => Err(e)
          case Ok(n, b3) => (
            match LoadFunctions(b3, n, f0.source, check)
            case Err(e) => Err(e)
            case Ok(ps, b4) => (
              match LoadDebug(b4, f2.(p := ps))
              case Err(e) => Err(e)
              case Ok(f, b5) => if check(f) then Ok(f, b5) else Err(BadCode))))))
  }

  function LoadFunctions(b: Bytes, n: nat, p: Str, check: Proto -> bool): (r: Res<seq<Proto>>)
    ensures r.Ok? ==> |r.rest| <= |b|
    decreases |b|, 1, n
  {
    if n == 0 then Ok([], b)
    else match LoadFunction(b, p, check)
      case Err(e) => Err(e)
      case Ok(f, rest) => (
        match LoadFunctions(rest, n - 1, p, check)
        case Err(e) => Err(e)
        case Ok(fs, rest2) => Ok([f] + fs, rest2))
  }

  /** "=?", the source of a main function that was dumped without one. */
  const UNKNOWN: Str := Text([0x3D, 0x3F])

  /** luaU_undump. */
  function Undump(b: Bytes, check: Proto -> bool): (r: Res<Proto>) {
    match LoadBlock(b, |HEADER|)
    case Err(e) => Err(e)
    case Ok(h, rest) => if h != HEADER then Err(BadHeader) else LoadFunction(rest, UNKNOWN, check)
  }
}
