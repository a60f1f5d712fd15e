/** The permutations of DES bit by bit: what PERM_OP exchanges, and that IP is the table of FIPS PUB 46-3. */
module DesBits {
  import opened Des

  // ----- the bits of a word

  /** Bit i of a word, counted from the lowest. */
  predicate Bit(w: bv32, i: bv6)
    requires i < 32
  {
    And(Down(w, i), 1) == 1
  }

  lemma BitStep(w: bv32, i: bv6)
    requires 0 < i < 32
    ensures Bit(w, i) == Bit(Down(w, 1), i - 1)
  {
  }

  lemma DownDown(a: bv32, n: bv6)
    requires n < 32
    ensures Down(Down(a, n), 1) == Down(Down(a, 1), n)
  {
  }

  lemma LowestBit(a: bv32, b: bv32, n: bv6)
    requires n < 32
    ensures Bit(Xor(a, b), 0) == (Bit(a, 0) != Bit(b, 0)) && Bit(Down(a, n), 0) == Bit(a, n)
  {
  }

  lemma {:induction false} XorBit(a: bv32, b: bv32, i: bv6)
    requires i < 32
    ensures Bit(Xor(a, b), i) == (Bit(a, i) != Bit(b, i))
    decreases i
  {
    hide Bit, Xor, Down;
    if i == 0 { LowestBit(a, b, 0); } else {
      BitStep(Xor(a, b), i);
      BitStep(a, i);
      BitStep(b, i);
      ShiftXor1(a, b);
      XorBit(Down(a, 1), Down(b, 1), i - 1);
    }
  }

  lemma AndBit(a: bv32, b: bv32, i: bv6)
    requires i < 32
    ensures Bit(And(a, b), i) == (Bit(a, i) && Bit(b, i))
  {
  }

  lemma {:induction false} DownBit(a: bv32, n: bv6, i: bv6)
    requires n < 32 && i < 32 && i + n < 32
    ensures Bit(Down(a, n), i) == Bit(a, i + n)
    decreases i
  {
    hide Bit, Down;
    if i == 0 { LowestBit(a, a, n); } else {
      BitStep(Down(a, n), i);
      DownDown(a, n);
      DownBit(Down(a, 1), n, i - 1);
      BitStep(a, i + n);
    }
  }

  /** A shift brings in zeros. */
  lemma ShiftedIn(a: bv32, n: bv6, i: bv6)
    requires n < 32 && i < 32
    ensures (Bit(Down(a, n), i) ==> i + n < 32) && (Bit(Up(a, n), i) ==> n <= i)
  {
  }

  /** What a masked exchange does to the words: t is what changes. */
  lemma ExchangedBits(a: bv32, t: bv32, n: bv6, i: bv6)
    requires n < 32 && Down(Up(t, n), n) == t && i < 32
    ensures Bit(Xor(a, Up(t, n)), i) == (Bit(a, i) != (n <= i && Bit(t, i - n)))
  {
    hide Bit, Xor, Up, Down;
    XorBit(a, Up(t, n), i);
    ShiftedIn(t, n, i);
    if n <= i { DownBit(Up(t, n), n, i - n); }
  }

  lemma TakenBits(x: Pair, n: bv6, m: bv32, i: bv6)
    requires n < 32 && i < 32 && Down(Up(m, n), n) == m
    ensures
      Bit(And(Xor(Down(x.a, n), x.b), m), i) == (Bit(m, i) && i + n < 32 && Bit(x.a, i + n) != Bit(x.b, i))
    ensures Bit(m, i) ==> i + n < 32
  {
    hide Bit, Xor, And, Up, Down;
    AndBit(Xor(Down(x.a, n), x.b), m, i);
    XorBit(Down(x.a, n), x.b, i);
    ShiftedIn(Up(m, n), n, i);
    if i + n < 32 { DownBit(x.a, n, i); }
  }

  lemma LowerBits(x: Pair, n: bv6, m: bv32, i: bv6)
    requires IsExchange(n, m) && i < 32
    ensures Bit(m, i) ==> i + n < 32
    ensures Bit(PermOp(x, n, m).b, i) == if Bit(m, i) then Bit(x.a, i + n) else Bit(x.b, i)
  {
    hide Bit, Xor, And, Up, Down;
    XorBit(x.b, And(Xor(Down(x.a, n), x.b), m), i);
    TakenBits(x, n, m, i);
  }

  lemma UpperBits(x: Pair, n: bv6, m: bv32, i: bv6)
    requires IsExchange(n, m) && i < 32
    ensures Bit(PermOp(x, n, m).a, i) == if n <= i && Bit(m, i - n) then Bit(x.b, i - n) else Bit(x.a, i)
  {
    hide Bit, Xor, And, Up, Down;
    var t := And(Xor(Down(x.a, n), x.b), m);
    MaskTwice(Xor(Down(x.a, n), x.b), m);
    ShiftBack(t, m, n);
    ExchangedBits(x.a, t, n, i);
    if n <= i { TakenBits(x, n, m, i - n); }
  }

  /** PERM_OP exchanges bit i + n of a with bit i of b for every i at which the mask has a bit, and nothing else. */
  lemma PermOpBits(x: Pair, n: bv6, m: bv32, i: bv6)
    requires IsExchange(n, m) && i < 32
    ensures var y := PermOp(x, n, m);
      && (Bit(m, i) ==> i + n < 32 && Bit(y.a, i + n) == Bit(x.b, i) && Bit(y.b, i) == Bit(x.a, i + n))
      && (!Bit(m, i) ==> Bit(y.b, i) == Bit(x.b, i))
      && (i < n || !Bit(m, i - n) ==> Bit(y.a, i) == Bit(x.a, i))
  {
    hide Bit, PermOp, Up, Down;
    LowerBits(x, n, m, i);
    UpperBits(x, n, m, i);
    if Bit(m, i) { UpperBits(x, n, m, i + n); }
  }

  // ----- IP

  /** Bit k of a pair of words: those of a from the lowest on, then those of b. */
  predicate PairBit(x: Pair, k: bv6) { if k < 32 then Bit(x.a, k) else Bit(x.b, k - 32) }

  /** The place PERM_OP fetches the bit at the place k from, if the mask holds the places whose bit n is 0. */
  function Across(k: bv6, n: bv6): bv6 { if (k & 32 == 0) != (k & n == 0) then k ^ 32 ^ n else k }

  lemma MaskBits(i: bv6)
    requires i < 32
    ensures Bit(0x55555555, i) == (i & 1 == 0) && Bit(0x33333333, i) == (i & 2 == 0)
    ensures Bit(0x0f0f0f0f, i) == (i & 4 == 0) && Bit(0x00ff00ff, i) == (i & 8 == 0)
    ensures Bit(0x0000ffff, i) == (i & 16 == 0)
  {
  }

  predicate IsMask(n: bv6, m: bv32) {
    || (n == 1 && m == 0x55555555) || (n == 2 && m == 0x33333333) || (n == 4 && m == 0x0f0f0f0f)
    || (n == 8 && m == 0x00ff00ff) || (n == 16 && m == 0x0000ffff)
  }

  lemma Fetched(x: Pair, n: bv6, m: bv32, k: bv6)
    requires IsMask(n, m)
    ensures PairBit(PermOp(x, n, m), k) == PairBit(x, Across(k, n))
  {
    hide Bit, PermOp, IsExchange;
    Exchanges();
    if k < 32 {
      UpperBits(x, n, m, k);
      if n <= k { MaskBits(k - n); }
    } else {
      LowerBits(x, n, m, k - 32);
      MaskBits(k - 32);
    }
  }

  lemma SwapBits(x: Pair, k: bv6)
    ensures PairBit(Swap(x), k) == PairBit(x, k ^ 32)
  {
    hide Bit;
  }

  lemma FetchedRL(x: Pair, n: bv6, m: bv32, k: bv6)
    requires IsMask(n, m)
    ensures PairBit(PermRL(x, n, m), k) == PairBit(x, Across(k ^ 32, n) ^ 32)
  {
    hide Bit, PermOp, PairBit, Swap, Across;
    SwapBits(PermOp(Swap(x), n, m), k);
    Fetched(Swap(x), n, m, k ^ 32);
    SwapBits(x, Across(k ^ 32, n));
  }

  /** The initial permutation of FIPS PUB 46-3, bits counted from 0: the bit that comes to the place k. */
  function Source(k: bv6): bv6 {
    (if k >> 3 < 4 then 57 + 2 * (k >> 3) else 48 + 2 * (k >> 3)) - 8 * (k & 7)
  }

  function Number(k: bv6): nat { Source(k) as nat + 1 }

  function Row(r: bv6): seq<nat>
    requires r < 8
  {
    var k := 8 * r;
    [Number(k), Number(k + 1), Number(k + 2), Number(k + 3), Number(k + 4), Number(k + 5), Number(k + 6), Number(k + 7)]
  }

  /** The table as the standard prints it, where bits are counted from 1. */
  lemma TheTable()
    ensures Row(0) == [58, 50, 42, 34, 26, 18, 10, 2]
    ensures Row(1) == [60, 52, 44, 36, 28, 20, 12, 4]
    ensures Row(2) == [62, 54, 46, 38, 30, 22, 14, 6]
    ensures Row(3) == [64, 56, 48, 40, 32, 24, 16, 8]
    ensures Row(4) == [57, 49, 41, 33, 25, 17, 9, 1]
    ensures Row(5) == [59, 51, 43, 35, 27, 19, 11, 3]
    ensures Row(6) == [61, 53, 45, 37, 29, 21, 13, 5]
    ensures Row(7) == [63, 55, 47, 39, 31, 23, 15, 7]
  {
  }

  lemma IPBits(x: Pair, k: bv6)
    ensures PairBit(Swap(IP(x)), k) == PairBit(x, Source(k) ^ 7)
  {
    hide Bit, PermOp, PairBit, Swap, PermRL;
    var x1 := PermRL(x, 4, 0x0f0f0f0f);
    var x2 := PermOp(x1, 16, 0x0000ffff);
    var x3 := PermRL(x2, 2, 0x33333333);
    var x4 := PermOp(x3, 8, 0x00ff00ff);
    var x5 := PermRL(x4, 1, 0x55555555);
    SwapBits(x5, k);
    var k5 := k ^ 32;
    FetchedRL(x4, 1, 0x55555555, k5);
    var k4 := Across(k5 ^ 32, 1) ^ 32;
    Fetched(x3, 8, 0x00ff00ff, k4);
    var k3 := Across(k4, 8);
    FetchedRL(x2, 2, 0x33333333, k3);
    var k2 := Across(k3 ^ 32, 2) ^ 32;
    Fetched(x1, 16, 0x0000ffff, k2);
    var k1 := Across(k2, 16);
    FetchedRL(x, 4, 0x0f0f0f0f, k1);
  }

  // ----- the bits of a block

  function Wide(b: bv8): bv32 { b as bv32 }

  /** Bit p of a block, counted from 0 from the left. */
  predicate BlockBit(s: Bytes, p: bv6)
    requires |s| == 8
  {
    Bit(Wide(s[(p >> 3) as nat]), 7 - (p & 7))
  }

  lemma ByteBits(w: bv32, n: bv6, b: bv32, j: bv6)
    requires n < 32 && j < 8 && j + n < 32 && b == And(Down(w, n), 0xff)
    ensures Bit(w, j + n) == Bit(b, j)
  {
    hide Bit, And, Down;
    AndBit(Down(w, n), 0xff, j);
    LowByte(j);
    DownBit(w, n, j);
  }

  lemma LowByte(j: bv6)
    requires j < 8
    ensures Bit(0xff, j)
  {
  }

  lemma BytesAre(w: bv32)
    ensures Wide(Byte0(w)) == And(Down(w, 0), 0xff) && Wide(Byte1(w)) == And(Down(w, 8), 0xff)
    ensures Wide(Byte2(w)) == And(Down(w, 16), 0xff) && Wide(Byte3(w)) == And(Down(w, 24), 0xff)
  {
  }

  lemma WordBits(a: bv8, b: bv8, c: bv8, d: bv8, w: bv32, j: bv6)
    requires w == Word(a, b, c, d) && j < 8
    ensures Bit(w, j) == Bit(Wide(a), j) && Bit(w, j + 8) == Bit(Wide(b), j)
    ensures Bit(w, j + 16) == Bit(Wide(c), j) && Bit(w, j + 24) == Bit(Wide(d), j)
  {
    hide Bit, Word, And, Down, Byte0, Byte1, Byte2, Byte3, Wide;
    BytesOfWord(a, b, c, d);
    BytesAre(w);
    ByteBits(w, 0, Wide(a), j);
    ByteBits(w, 8, Wide(b), j);
    ByteBits(w, 16, Wide(c), j);
    ByteBits(w, 24, Wide(d), j);
  }

  lemma LoadBits(s: Bytes, p: bv6)
    requires |s| == 8
    ensures PairBit(Load(s), p ^ 7) == BlockBit(s, p)
  {
    hide Bit, Word, Wide;
    var j := 7 - (p & 7);
    var x := Load(s);
    WordBits(s[0], s[1], s[2], s[3], x.a, j);
    WordBits(s[4], s[5], s[6], s[7], x.b, j);
    Places(p);
    assert PairBit(x, p ^ 7) == PairBit(x, 8 * (p >> 3) + j);
    if p < 8 { } else if p < 16 { } else if p < 24 { } else if p < 32 { }
    else if p < 40 { } else if p < 48 { } else if p < 56 { }
  }

  lemma Places(p: bv6)
    ensures p ^ 7 == 8 * (p >> 3) + 7 - (p & 7)
  {
  }

  // ----- what the permutations do to a block

  /** u is the block s after the initial permutation: the left half in u.a, the right half in u.b. */
  ghost predicate IsInitial(s: Bytes, u: Pair)
    requires |s| == 8
  {
    forall k: bv6 :: PairBit(u, k) == BlockBit(s, Source(k))
  }

  lemma InitialIs(s: Bytes)
    requires |s| == 8
    ensures IsInitial(s, Swap(IP(Load(s))))
  {
    hide PairBit, BlockBit, Source, Swap, IP, Load;
    var u := Swap(IP(Load(s)));
    forall k: bv6 ensures PairBit(u, k) == BlockBit(s, Source(k)) {
      IPBits(Load(s), k);
      LoadBits(s, Source(k));
    }
  }

  /** A word with a bit. */
  lemma {:induction false} SomeBit(w: bv32) returns (k: bv6)
    requires w != 0
    ensures k < 32 && Bit(w, k)
    decreases w
  {
    hide Bit;
    Halved(w);
    if Bit(w, 0) { k := 0; } else {
      k := SomeBit(Down(w, 1));
      ShiftedIn(w, 1, k);
      BitStep(w, k + 1);
      k := k + 1;
    }
  }

  lemma Halved(w: bv32)
    requires w != 0
    ensures Down(w, 1) < w && (!Bit(w, 0) ==> Down(w, 1) != 0)
  {
  }

  lemma SameWord(a: bv32, b: bv32)
    requires forall i: bv6 :: i < 32 ==> Bit(a, i) == Bit(b, i)
    ensures a == b
  {
    hide Bit;
    if a != b {
      assert Xor(a, b) != 0;
      var k := SomeBit(Xor(a, b));
      XorBit(a, b, k);
      assert false;
    }
  }

  /** A block has one initial permutation only, and no two blocks have the same. */
  lemma InitialOnce(s: Bytes, u: Pair, s': Bytes, u': Pair)
    requires |s| == |s'| == 8 && IsInitial(s, u) && IsInitial(s', u')
    ensures s == s' <==> u == u'
  {
    hide IP, Load, Save, BlockBit, Source, Bit, FinalPermutation;
    InitialIs(s);
    InitialIs(s');
    SamePair(u, Swap(IP(Load(s))));
    SamePair(u', Swap(IP(Load(s'))));
    FinalAfterInitial(Load(s));
    FinalAfterInitial(Load(s'));
    LoadSave(Load(s), s);
    LoadSave(Load(s'), s');
  }

  lemma SamePair(u: Pair, v: Pair)
    requires forall k: bv6 :: PairBit(u, k) == PairBit(v, k)
    ensures u == v
  {
    hide Bit;
    forall i: bv6 | i < 32 ensures Bit(u.a, i) == Bit(v.a, i) && Bit(u.b, i) == Bit(v.b, i) {
      assert PairBit(u, i) == PairBit(v, i) && PairBit(u, i + 32) == PairBit(v, i + 32);
    }
    SameWord(u.a, v.a);
    SameWord(u.b, v.b);
  }
}
