/** DES in the form of crypt/qdes.c: permutations by masked exchanges, sixteen rounds, blocks of eight bytes. The round
    function and the key schedule are arbitrary; words are 32 bits wide. */
module Des {

  /** The table lookups of D_ENCRYPT, on R ^ s[S] and R ^ s[S + 1]. */
  type Tables = (bv32, bv32) -> bv32

  /** The key schedule, two words a round. */
  type Schedule = s: seq<bv32> | |s| == 32 witness seq(32, _ => 0)

  // ----- the permutations

  datatype Pair = Pair(a: bv32, b: bv32)

  // The word operations, named so that the proofs below can go by their laws.

  function Xor(a: bv32, b: bv32): bv32 { a ^ b }

  function And(a: bv32, b: bv32): bv32 { a & b }

  function Up(a: bv32, n: bv6): bv32
    requires n < 32
  {
    a << n
  }

  function Down(a: bv32, n: bv6): bv32
    requires n < 32
  {
    a >> n
  }

  /** PERM_OP. */
  function PermOp(x: Pair, n: bv6, m: bv32): (y: Pair)
    requires n < 32
  {
    var t := And(Xor(Down(x.a, n), x.b), m);
    Pair(Xor(x.a, Up(t, n)), Xor(x.b, t))
  }

  /** Shifting the mask up loses none of its bits. */
  predicate IsExchange(n: bv6, m: bv32) { (n == 1 || n == 2 || n == 4 || n == 8 || n == 16) && Down(Up(m, n), n) == m }

  /** PERM_OP is an involution. */
  lemma PermOpTwice(x: Pair, n: bv6, m: bv32)
    requires IsExchange(n, m)
    ensures PermOp(PermOp(x, n, m), n, m) == x
  {
    hide Xor, And, Up, Down;
    var u := Down(x.a, n);
    var t := And(Xor(u, x.b), m);
    MaskTwice(Xor(u, x.b), m);
    ShiftBack(t, m, n);
    ShiftXor(x.a, Up(t, n), n);
    SameMask(u, x.b, t, m);
    XorTwice(x.a, Up(t, n));
    XorTwice(x.b, t);
  }

  lemma XorTwice(a: bv32, b: bv32)
    ensures Xor(Xor(a, b), b) == a
  {
  }

  lemma MaskTwice(a: bv32, m: bv32)
    ensures And(And(a, m), m) == And(a, m)
  {
  }

  lemma ShiftBack(t: bv32, m: bv32, n: bv6)
    requires n < 32 && And(t, m) == t && Down(Up(m, n), n) == m
    ensures Down(Up(t, n), n) == t
  {
  }

  lemma ShiftXor(a: bv32, c: bv32, n: bv6)
    requires n == 1 || n == 2 || n == 4 || n == 8 || n == 16
    ensures Down(Xor(a, c), n) == Xor(Down(a, n), Down(c, n))
  {
    hide Xor, Down;
    if n == 1 { ShiftXor1(a, c); } else if n == 2 { ShiftXor2(a, c); } else if n == 4 { ShiftXor4(a, c); }
    else if n == 8 { ShiftXor8(a, c); } else { ShiftXor16(a, c); }
  }

  lemma ShiftXor1(a: bv32, c: bv32)
    ensures Down(Xor(a, c), 1) == Xor(Down(a, 1), Down(c, 1))
  {
  }

  lemma ShiftXor2(a: bv32, c: bv32)
    ensures Down(Xor(a, c), 2) == Xor(Down(a, 2), Down(c, 2))
  {
  }

  lemma ShiftXor4(a: bv32, c: bv32)
    ensures Down(Xor(a, c), 4) == Xor(Down(a, 4), Down(c, 4))
  {
  }

  lemma ShiftXor8(a: bv32, c: bv32)
    ensures Down(Xor(a, c), 8) == Xor(Down(a, 8), Down(c, 8))
  {
  }

  lemma ShiftXor16(a: bv32, c: bv32)
    ensures Down(Xor(a, c), 16) == Xor(Down(a, 16), Down(c, 16))
  {
  }

  lemma SameMask(u: bv32, b: bv32, t: bv32, m: bv32)
    ensures And(Xor(Xor(u, t), Xor(b, t)), m) == And(Xor(u, b), m)
  {
    hide And, Xor;
    XorSwap(b, t);
    XorMove(u, t, Xor(t, b));
    XorSwap(t, Xor(t, b));
    XorTwice(b, t);
  }

  lemma XorSwap(a: bv32, b: bv32)
    ensures Xor(a, b) == Xor(b, a)
  {
  }

  lemma XorMove(a: bv32, b: bv32, c: bv32)
    ensures Xor(Xor(a, b), c) == Xor(a, Xor(b, c))
  {
  }

  /** The shifts and masks in IP and FP. */
  lemma Exchanges()
    ensures IsExchange(4, 0x0f0f0f0f) && IsExchange(16, 0x0000ffff) && IsExchange(2, 0x33333333)
    ensures IsExchange(8, 0x00ff00ff) && IsExchange(1, 0x55555555)
  {
  }

  function Swap(x: Pair): Pair { Pair(x.b, x.a) }

  /** PERM_OP(r, l, ...) on the pair (l, r). */
  function PermRL(x: Pair, n: bv6, m: bv32): Pair
    requires n < 32
  {
    Swap(PermOp(Swap(x), n, m))
  }

  /** IP(l, r) on the pair (l, r). */
  function IP(x: Pair): Pair {
    PermRL(PermOp(PermRL(PermOp(PermRL(x, 4, 0x0f0f0f0f), 16, 0x0000ffff), 2, 0x33333333), 8, 0x00ff00ff), 1,
      0x55555555)
  }

  /** FP(l, r) on the pair (l, r). */
  function FP(x: Pair): Pair {
    PermOp(PermRL(PermOp(PermRL(PermOp(x, 1, 0x55555555), 8, 0x00ff00ff), 2, 0x33333333), 16, 0x0000ffff), 4,
      0x0f0f0f0f)
  }

  /** FP(r, l) on the pair (l, r), as the end of a block calls it. */
  function FinalPermutation(x: Pair): Pair { Swap(FP(Swap(x))) }

  lemma PermRLTwice(x: Pair, n: bv6, m: bv32)
    requires IsExchange(n, m)
    ensures PermRL(PermRL(x, n, m), n, m) == x
  {
    hide PermOp;
    PermOpTwice(Swap(x), n, m);
  }

  /** FP(r, l) makes the exchanges of IP(l, r) in the opposite order. */
  lemma FinalIs(x: Pair)
    ensures
      FinalPermutation(x) ==
        PermRL(PermOp(PermRL(PermOp(PermRL(x, 1, 0x55555555), 8, 0x00ff00ff), 2, 0x33333333), 16, 0x0000ffff), 4,
          0x0f0f0f0f)
  {
    hide PermOp;
  }

  lemma FinalAfterInitial(x: Pair)
    ensures FinalPermutation(IP(x)) == x
  {
    hide PermOp, PermRL, FinalPermutation, IsExchange;
    Exchanges();
    FinalIs(IP(x));
    var x1 := PermRL(x, 4, 0x0f0f0f0f);
    var x2 := PermOp(x1, 16, 0x0000ffff);
    var x3 := PermRL(x2, 2, 0x33333333);
    var x4 := PermOp(x3, 8, 0x00ff00ff);
    PermRLTwice(x4, 1, 0x55555555);
    PermOpTwice(x3, 8, 0x00ff00ff);
    PermRLTwice(x2, 2, 0x33333333);
    PermOpTwice(x1, 16, 0x0000ffff);
    PermRLTwice(x, 4, 0x0f0f0f0f);
  }

  lemma InitialAfterFinal(x: Pair)
    ensures IP(FinalPermutation(x)) == x
  {
    hide PermOp, PermRL, FinalPermutation, IsExchange;
    Exchanges();
    FinalIs(x);
    var x1 := PermRL(x, 1, 0x55555555);
    var x2 := PermOp(x1, 8, 0x00ff00ff);
    var x3 := PermRL(x2, 2, 0x33333333);
    var x4 := PermOp(x3, 16, 0x0000ffff);
    PermRLTwice(x4, 4, 0x0f0f0f0f);
    PermOpTwice(x3, 16, 0x0000ffff);
    PermRLTwice(x2, 2, 0x33333333);
    PermOpTwice(x1, 8, 0x00ff00ff);
    PermRLTwice(x, 1, 0x55555555);
  }

  function RotL(x: bv32): bv32 {
    var one: bv32, rest: bv32 := 1, 31;
    (x << one) | (x >> rest)
  }

  function RotR(x: bv32): bv32 {
    var one: bv32, rest: bv32 := 1, 31;
    (x >> one) | (x << rest)
  }

  lemma RotBack(x: bv32)
    ensures RotR(RotL(x)) == x && RotL(RotR(x)) == x
  {
  }

  // ----- the rounds

  /** D_ENCRYPT on the word w with the other word r: key words S and S + 1. */
  function Half(w: bv32, r: bv32, s: int, ks: Schedule, f: Tables): bv32
    requires 0 <= s < 31
  {
    Xor(w, f(Xor(r, ks[s]), Xor(r, ks[s + 1])))
  }

  /** The words (l, r) after the first i rounds of enciphering. */
  function Enciphered(x: Pair, i: nat, ks: Schedule, f: Tables): Pair
    requires i <= 16
  {
    if i == 0 then x
    else
      var y := Enciphered(x, i - 1, ks, f);
      if i % 2 == 1 then y.(a := Half(y.a, y.b, 2 * (i - 1), ks, f)) else y.(b := Half(y.b, y.a, 2 * (i - 1), ks, f))
  }

  /** The words (l, r) after the first i rounds of deciphering: the keys come in the opposite order. */
  function Deciphered(x: Pair, i: nat, ks: Schedule, f: Tables): Pair
    requires i <= 16
  {
    if i == 0 then x
    else
      var y := Deciphered(x, i - 1, ks, f);
      if i % 2 == 1 then y.(a := Half(y.a, y.b, 2 * (16 - i), ks, f)) else y.(b := Half(y.b, y.a, 2 * (16 - i), ks, f))
  }

  lemma HalfTwice(w: bv32, r: bv32, s: int, ks: Schedule, f: Tables)
    requires 0 <= s < 31
    ensures Half(Half(w, r, s, ks, f), r, s, ks, f) == w
  {
    hide Xor;
    XorTwice(w, f(Xor(r, ks[s]), Xor(r, ks[s + 1])));
  }

  /** Deciphering the exchanged words undoes the rounds one by one, from the last. */
  lemma {:induction false} RoundsBack(x: Pair, i: nat, ks: Schedule, f: Tables)
    requires i <= 16
    ensures Deciphered(Swap(Enciphered(x, 16, ks, f)), i, ks, f) == Swap(Enciphered(x, 16 - i, ks, f))
  {
    hide Half;
    if i > 0 {
      RoundsBack(x, i - 1, ks, f);
      var y := Enciphered(x, 16 - i, ks, f);
      HalfTwice(y.a, y.b, 2 * (16 - i), ks, f);
      HalfTwice(y.b, y.a, 2 * (16 - i), ks, f);
    }
  }

  lemma {:induction false} RoundsForth(x: Pair, i: nat, ks: Schedule, f: Tables)
    requires i <= 16
    ensures Enciphered(Swap(Deciphered(x, 16, ks, f)), i, ks, f) == Swap(Deciphered(x, 16 - i, ks, f))
  {
    hide Half;
    if i > 0 {
      RoundsForth(x, i - 1, ks, f);
      var y := Deciphered(x, 16 - i, ks, f);
      HalfTwice(y.a, y.b, 2 * (i - 1), ks, f);
      HalfTwice(y.b, y.a, 2 * (i - 1), ks, f);
    }
  }

  // ----- a block

  function Before(x: Pair): Pair { var y := IP(x); Pair(RotL(y.b), RotL(y.a)) }

  function After(x: Pair): Pair { FinalPermutation(Pair(RotR(x.a), RotR(x.b))) }

  /** do_des_ecb_encrypt on the words (data[0], data[1]). */
  function Block(x: Pair, encrypt: bool, ks: Schedule, f: Tables): Pair {
    After(if encrypt then Enciphered(Before(x), 16, ks, f) else Deciphered(Before(x), 16, ks, f))
  }

  lemma BeforeAfter(x: Pair)
    ensures Before(After(x)) == Swap(x) && After(Swap(Before(x))) == x
  {
    hide IP, FinalPermutation, RotL, RotR;
    RotBack(x.a);
    RotBack(x.b);
    InitialAfterFinal(Pair(RotR(x.a), RotR(x.b)));
    var y := IP(x);
    RotBack(y.a);
    RotBack(y.b);
    FinalAfterInitial(x);
  }

  /** For every key schedule and every round function, deciphering undoes enciphering and enciphering undoes
      deciphering. */
  lemma BlockBack(x: Pair, encrypt: bool, ks: Schedule, f: Tables)
    ensures Block(Block(x, encrypt, ks, f), !encrypt, ks, f) == x
  {
    hide Before, After;
    var y := Before(x);
    BeforeAfter(x);
    if encrypt {
      BeforeAfter(Enciphered(y, 16, ks, f));
      RoundsBack(y, 16, ks, f);
    } else {
      BeforeAfter(Deciphered(y, 16, ks, f));
      RoundsForth(y, 16, ks, f);
    }
  }

  // ----- bytes

  type Bytes = seq<bv8>

  /** c2l. */
  function Word(a: bv8, b: bv8, c: bv8, d: bv8): bv32 {
    (a as bv32) | ((b as bv32) << 8) | ((c as bv32) << 16) | ((d as bv32) << 24)
  }

  /** l2c. */
  function Byte0(w: bv32): bv8 { (w & 0xff) as bv8 }
  function Byte1(w: bv32): bv8 { ((w >> 8) & 0xff) as bv8 }
  function Byte2(w: bv32): bv8 { ((w >> 16) & 0xff) as bv8 }
  function Byte3(w: bv32): bv8 { ((w >> 24) & 0xff) as bv8 }

  lemma WordOfBytes(w: bv32)
    ensures Word(Byte0(w), Byte1(w), Byte2(w), Byte3(w)) == w
  {
  }

  lemma BytesOfWord(a: bv8, b: bv8, c: bv8, d: bv8)
    ensures var w := Word(a, b, c, d); Byte0(w) == a && Byte1(w) == b && Byte2(w) == c && Byte3(w) == d
  {
  }

  function Load(s: Bytes): Pair
    requires |s| == 8
  {
    Pair(Word(s[0], s[1], s[2], s[3]), Word(s[4], s[5], s[6], s[7]))
  }

  function Save(x: Pair): (s: Bytes)
    ensures |s| == 8
  {
    [Byte0(x.a), Byte1(x.a), Byte2(x.a), Byte3(x.a), Byte0(x.b), Byte1(x.b), Byte2(x.b), Byte3(x.b)]
  }

  lemma LoadSave(x: Pair, s: Bytes)
    requires |s| == 8
    ensures Load(Save(x)) == x && Save(Load(s)) == s
  {
    hide Word, Byte0, Byte1, Byte2, Byte3;
    WordOfBytes(x.a);
    WordOfBytes(x.b);
    BytesOfWord(s[0], s[1], s[2], s[3]);
    BytesOfWord(s[4], s[5], s[6], s[7]);
  }

  /** des_ecb_encrypt. */
  function Ecb(s: Bytes, encrypt: bool, ks: Schedule, f: Tables): (d: Bytes)
    requires |s| == 8
    ensures |d| == 8
  {
    Save(Block(Load(s), encrypt, ks, f))
  }

  lemma EcbBack(s: Bytes, encrypt: bool, ks: Schedule, f: Tables)
    requires |s| == 8
    ensures Ecb(Ecb(s, encrypt, ks, f), !encrypt, ks, f) == s
  {
    hide Load, Save, Block;
    LoadSave(Block(Load(s), encrypt, ks, f), s);
    BlockBack(Load(s), encrypt, ks, f);
  }

  /** n blocks, one after the other. */
  function EcbN(s: Bytes, n: nat, encrypt: bool, ks: Schedule, f: Tables): (d: Bytes)
    requires |s| == 8 * n
    ensures |d| == |s|
  {
    if n == 0 then [] else EcbN(s[..8 * (n - 1)], n - 1, encrypt, ks, f) + Ecb(s[8 * (n - 1)..], encrypt, ks, f)
  }

  /** des_decrypt_n undoes des_encrypt_n, and the other way round. */
  lemma {:induction false} EcbNBack(s: Bytes, n: nat, encrypt: bool, ks: Schedule, f: Tables)
    requires |s| == 8 * n
    ensures EcbN(EcbN(s, n, encrypt, ks, f), n, !encrypt, ks, f) == s
  {
    hide Ecb;
    if n > 0 {
      var k := 8 * (n - 1);
      EcbNBack(s[..k], n - 1, encrypt, ks, f);
      EcbBack(s[k..], encrypt, ks, f);
      var d := EcbN(s, n, encrypt, ks, f);
      assert d[..k] == EcbN(s[..k], n - 1, encrypt, ks, f) && d[k..] == Ecb(s[k..], encrypt, ks, f);
      assert s[..k] + s[k..] == s;
    }
  }

  // ----- in place

  /** do_des_ecb_encrypt: data[0] and data[1] are replaced. */
  method DoEcb(data: array<bv32>, ks: Schedule, f: Tables, encrypt: bool)
    requires data.Length == 2
    modifies data
    ensures Pair(data[0], data[1]) == Block(Pair(old(data[0]), old(data[1])), encrypt, ks, f)
  {
    hide IP, FP, RotL, RotR, Half, Enciphered, Deciphered;
    ghost var x := Pair(data[0], data[1]);
    var p := IP(Pair(data[0], data[1]));
    var l, r := RotL(p.b), RotL(p.a);
    NoRounds(Before(x), ks, f);
    if encrypt {
      var i := 0;
      while i < 32
        invariant 0 <= i <= 32 && i % 4 == 0 && Pair(l, r) == Enciphered(Before(x), i / 2, ks, f)
      {
        TwoForth(Before(x), i / 2, ks, f);
        l := Half(l, r, i, ks, f);
        r := Half(r, l, i + 2, ks, f);
        i := i + 4;
      }
    } else {
      var i := 30;
      while i > 0
        invariant -2 <= i <= 30 && i % 4 == 2 && Pair(l, r) == Deciphered(Before(x), (30 - i) / 2, ks, f)
      {
        TwoBack(Before(x), (30 - i) / 2, ks, f);
        l := Half(l, r, i, ks, f);
        r := Half(r, l, i - 2, ks, f);
        i := i - 4;
      }
    }
    var q := FinalPermutation(Pair(RotR(l), RotR(r)));
    data[0], data[1] := q.a, q.b;
  }

  lemma NoRounds(x: Pair, ks: Schedule, f: Tables)
    ensures Enciphered(x, 0, ks, f) == x && Deciphered(x, 0, ks, f) == x
  {
  }

  lemma TwoForth(x: Pair, i: nat, ks: Schedule, f: Tables)
    requires i < 16 && i % 2 == 0
    ensures var y := Enciphered(x, i, ks, f); var l := Half(y.a, y.b, 2 * i, ks, f);
      Enciphered(x, i + 2, ks, f) == Pair(l, Half(y.b, l, 2 * i + 2, ks, f))
  {
    hide Half;
    assert
      Enciphered(x, i + 1, ks, f) ==
        Enciphered(x, i, ks, f).(a := Half(Enciphered(x, i, ks, f).a, Enciphered(x, i, ks, f).b, 2 * i, ks, f));
  }

  lemma TwoBack(x: Pair, i: nat, ks: Schedule, f: Tables)
    requires i < 16 && i % 2 == 0
    ensures var y := Deciphered(x, i, ks, f); var l := Half(y.a, y.b, 30 - 2 * i, ks, f);
      Deciphered(x, i + 2, ks, f) == Pair(l, Half(y.b, l, 28 - 2 * i, ks, f))
  {
    hide Half;
    assert
      Deciphered(x, i + 1, ks, f) ==
        Deciphered(x, i, ks, f).(a := Half(Deciphered(x, i, ks, f).a, Deciphered(x, i, ks, f).b, 30 - 2 * i, ks, f));
  }

  /** des_ecb_encrypt on the block at `at`; source and target may be the same array. */
  method EcbAt(src: array<bv8>, dst: array<bv8>, at: nat, ks: Schedule, f: Tables, encrypt: bool)
    requires at + 8 <= src.Length && at + 8 <= dst.Length
    modifies dst
    ensures dst[at..at + 8] == Ecb(old(src[at..at + 8]), encrypt, ks, f)
    ensures dst[..at] == old(dst[..at]) && dst[at + 8..] == old(dst[at + 8..])
  {
    hide Load, Save, Block;
    var ll := new bv32[2];
    var x := Load(src[at..at + 8]);
    ll[0], ll[1] := x.a, x.b;
    DoEcb(ll, ks, f, encrypt);
    Put(dst, at, Save(Pair(ll[0], ll[1])));
  }

  /** The bytes of d go to dst from `at` on. */
  method Put(dst: array<bv8>, at: nat, d: Bytes)
    requires at + |d| <= dst.Length
    modifies dst
    ensures dst[at..at + |d|] == d && dst[..at] == old(dst[..at]) && dst[at + |d|..] == old(dst[at + |d|..])
  {
    var j := 0;
    while j < |d|
      invariant 0 <= j <= |d|
      invariant forall k :: 0 <= k < dst.Length ==> dst[k] == if at <= k < at + j then d[k - at] else old(dst[k])
    {
      dst[at + j] := d[j];
      j := j + 1;
    }
  }

  /** des_encrypt_n and des_decrypt_n. */
  method EcbBlocks(src: array<bv8>, dst: array<bv8>, n: nat, ks: Schedule, f: Tables, encrypt: bool)
    requires n > 0 && 8 * n <= src.Length && 8 * n <= dst.Length
    modifies dst
    ensures dst[..8 * n] == EcbN(old(src[..8 * n]), n, encrypt, ks, f) && dst[8 * n..] == old(dst[8 * n..])
  {
    hide Ecb;
    ghost var s, d := src[..], dst[..];
    var i := 0;
    while i != n
      invariant 0 <= i <= n && dst[..8 * i] == EcbN(s[..8 * i], i, encrypt, ks, f)
      invariant src[8 * i..] == s[8 * i..] && dst[8 * i..] == d[8 * i..]
    {
      ghost var before := dst[..];
      assert src[8 * i..8 * i + 8] == src[8 * i..][..8] == s[8 * i..8 * i + 8];
      EcbAt(src, dst, 8 * i, ks, f, encrypt);
      OneMore(s, d, before, dst[..], i, encrypt, ks, f);
      assert src != dst ==> src[..] == s;
      i := i + 1;
    }
  }

  lemma OneMore(s: Bytes, d: Bytes, b: Bytes, a: Bytes, i: nat, encrypt: bool, ks: Schedule, f: Tables)
    requires 8 * i + 8 <= |s| && 8 * i + 8 <= |b| == |a| == |d|
    requires b[..8 * i] == EcbN(s[..8 * i], i, encrypt, ks, f) && b[8 * i..] == d[8 * i..]
    requires a[8 * i..8 * i + 8] == Ecb(s[8 * i..8 * i + 8], encrypt, ks, f) && a[..8 * i] == b[..8 * i]
    requires a[8 * i + 8..] == b[8 * i + 8..]
    ensures a[..8 * (i + 1)] == EcbN(s[..8 * (i + 1)], i + 1, encrypt, ks, f) && a[8 * (i + 1)..] == d[8 * (i + 1)..]
  {
    hide Ecb;
    var k := 8 * i;
    assert s[..k + 8][..k] == s[..k] && s[..k + 8][k..] == s[k..k + 8];
    assert a[..k + 8] == a[..k] + a[k..k + 8];
    assert a[k + 8..] == b[k..][8..] == d[k..][8..] == d[k + 8..];
  }
}
