/** What a block goes through, in the terms of FIPS PUB 46-3: the initial permutation, sixteen rounds, the exchange of
    the halves, and the inverse of the initial permutation. */
module DesStandard {
  import opened Des
  import opened DesBits

  /** The round function on a half that is not rotated, with the j-th pair of key words. */
  function Cipher(r: bv32, j: nat, ks: Schedule, f: Tables): bv32
    requires j < 16
  {
    RotR(f(Xor(RotL(r), ks[2 * j]), Xor(RotL(r), ks[2 * j + 1])))
  }

  /** The halves after i rounds (L, R) -> (R, L ^ Cipher(R)): the keys in order, or for deciphering the other way
      round. */
  function Rounds(u: Pair, i: nat, encrypt: bool, ks: Schedule, f: Tables): Pair
    requires i <= 16
  {
    if i == 0 then u
    else
      var y := Rounds(u, i - 1, encrypt, ks, f);
      Pair(y.b, Xor(y.a, Cipher(y.b, if encrypt then i - 1 else 16 - i, ks, f)))
  }

  function Rotated(u: Pair): Pair { Pair(RotL(u.a), RotL(u.b)) }

  lemma RotParts(x: bv32)
    ensures RotL(x) == Xor(Up(x, 1), Down(x, 31))
  {
  }

  lemma PartsXor(a: bv32, b: bv32)
    ensures Up(Xor(a, b), 1) == Xor(Up(a, 1), Up(b, 1)) && Down(Xor(a, b), 31) == Xor(Down(a, 31), Down(b, 31))
  {
  }

  lemma XorPairs(a: bv32, b: bv32, c: bv32, d: bv32)
    ensures Xor(Xor(a, b), Xor(c, d)) == Xor(Xor(a, c), Xor(b, d))
  {
    hide Xor;
    XorMove(a, b, Xor(c, d));
    XorMove(b, c, d);
    XorSwap(b, c);
    XorMove(c, b, d);
    XorMove(a, c, Xor(b, d));
  }

  lemma RotXor(a: bv32, b: bv32)
    ensures RotL(Xor(a, b)) == Xor(RotL(a), RotL(b))
  {
    hide RotL, Xor, Up, Down;
    RotParts(a);
    RotParts(b);
    RotParts(Xor(a, b));
    PartsXor(a, b);
    XorPairs(Up(a, 1), Up(b, 1), Down(a, 31), Down(b, 31));
  }

  /** Half works on rotated words. */
  lemma HalfIs(w: bv32, r: bv32, j: nat, ks: Schedule, f: Tables)
    requires j < 16
    ensures Half(RotL(w), RotL(r), 2 * j, ks, f) == RotL(Xor(w, Cipher(r, j, ks, f)))
  {
    hide Xor, RotL, RotR;
    RotXor(w, Cipher(r, j, ks, f));
    RotBack(f(Xor(RotL(r), ks[2 * j]), Xor(RotL(r), ks[2 * j + 1])));
  }

  lemma TwoRounds(u: Pair, i: nat, encrypt: bool, ks: Schedule, f: Tables)
    requires i <= 14
    ensures var y := Rounds(u, i, encrypt, ks, f);
      var l := Xor(y.a, Cipher(y.b, if encrypt then i else 15 - i, ks, f));
      Rounds(u, i + 2, encrypt, ks, f) == Pair(l, Xor(y.b, Cipher(l, if encrypt then i + 1 else 14 - i, ks, f)))
  {
    hide Xor, Cipher;
    var z := Rounds(u, i + 1, encrypt, ks, f);
  }

  /** After every second round the words of the code are the halves of the standard, rotated. */
  lemma {:induction false} RoundsAre(u: Pair, i: nat, ks: Schedule, f: Tables)
    requires i <= 16 && i % 2 == 0
    ensures Enciphered(Rotated(u), i, ks, f) == Rotated(Rounds(u, i, true, ks, f))
    ensures Deciphered(Rotated(u), i, ks, f) == Rotated(Rounds(u, i, false, ks, f))
  {
    hide Half, RotL, Xor, Cipher, Enciphered, Deciphered, Rounds;
    if i == 0 { NoRoundsYet(u, ks, f); } else {
      var k := i - 2;
      RoundsAre(u, k, ks, f);
      TwoForth(Rotated(u), k, ks, f);
      TwoBack(Rotated(u), k, ks, f);
      TwoRounds(u, k, true, ks, f);
      TwoRounds(u, k, false, ks, f);
      var y, z := Rounds(u, k, true, ks, f), Rounds(u, k, false, ks, f);
      HalfIs(y.a, y.b, k, ks, f);
      HalfIs(y.b, Xor(y.a, Cipher(y.b, k, ks, f)), k + 1, ks, f);
      HalfIs(z.a, z.b, 15 - k, ks, f);
      HalfIs(z.b, Xor(z.a, Cipher(z.b, 15 - k, ks, f)), 14 - k, ks, f);
    }
  }

  lemma NoRoundsYet(u: Pair, ks: Schedule, f: Tables)
    ensures Rounds(u, 0, true, ks, f) == u == Rounds(u, 0, false, ks, f)
    ensures Enciphered(Rotated(u), 0, ks, f) == Rotated(u) == Deciphered(Rotated(u), 0, ks, f)
  {
  }

  lemma BlockIs(x: Pair, encrypt: bool, ks: Schedule, f: Tables)
    ensures Swap(IP(Block(x, encrypt, ks, f))) == Swap(Rounds(Swap(IP(x)), 16, encrypt, ks, f))
  {
    hide IP, FinalPermutation, RotL, RotR, Enciphered, Deciphered, Rounds;
    var u := Swap(IP(x));
    RoundsAre(u, 16, ks, f);
    var y := Rounds(u, 16, encrypt, ks, f);
    RotBack(y.a);
    RotBack(y.b);
    InitialAfterFinal(y);
  }

  /** des_ecb_encrypt: the initial permutation of the block that comes out is that of the block that went in, after
      sixteen rounds and with its halves exchanged. */
  lemma EcbIs(s: Bytes, u: Pair, encrypt: bool, ks: Schedule, f: Tables)
    requires |s| == 8 && IsInitial(s, u)
    ensures IsInitial(Ecb(s, encrypt, ks, f), Swap(Rounds(u, 16, encrypt, ks, f)))
  {
    hide IsInitial, IP, Load, Save, Block, Rounds, Swap;
    InitialIs(s);
    InitialOnce(s, u, s, Swap(IP(Load(s))));
    var y := Block(Load(s), encrypt, ks, f);
    BlockIs(Load(s), encrypt, ks, f);
    LoadSave(y, Save(y));
    InitialIs(Save(y));
  }

  /** des_encrypt_n and des_decrypt_n: so it is for every block of the text, each on its own. */
  lemma {:induction false} EcbNIs(s: Bytes, n: nat, i: nat, u: Pair, encrypt: bool, ks: Schedule, f: Tables)
    requires |s| == 8 * n && i < n && IsInitial(s[8 * i..8 * i + 8], u)
    ensures
      IsInitial(EcbN(s, n, encrypt, ks, f)[8 * i..8 * i + 8], Swap(Rounds(u, 16, encrypt, ks, f)))
  {
    hide IsInitial, Ecb, Rounds, Swap;
    var k := 8 * (n - 1);
    var d := EcbN(s, n, encrypt, ks, f);
    if i == n - 1 {
      assert d[k..k + 8] == Ecb(s[k..], encrypt, ks, f) && s[k..] == s[k..k + 8];
      EcbIs(s[k..], u, encrypt, ks, f);
    } else {
      var c := EcbN(s[..k], n - 1, encrypt, ks, f);
      assert d[8 * i..8 * i + 8] == c[8 * i..8 * i + 8] && s[..k][8 * i..8 * i + 8] == s[8 * i..8 * i + 8];
      EcbNIs(s[..k], n - 1, i, u, encrypt, ks, f);
    }
  }
}
