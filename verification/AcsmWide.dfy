/** A text that acsm_pattern_replace (tm_dirty/acsm.c) does not star in full: the word XABC in full-width letters,
    with the patterns AB and XABC. The stars on the padding of AB count as letters when XABC is starred, so its X is
    left. */
module AcsmWide {
  import opened AcsmWords
  import opened AcsmTrie
  import opened AcsmBfs
  import opened AcsmMachine
  import opened Utf8Punc
  import opened AcsmSearch
  import opened AcsmStars
  import opened AcsmLetters
  import opened AcsmReplace

  const AB: Bytes := [0x41, 0x42]
  const XABC: Bytes := [0x58, 0x41, 0x42, 0x43]
  const WORDS: seq<Bytes> := [AB, XABC]

  /** U+FF38, U+FF21, U+FF22, U+FF23. */
  const TEXT: Bytes := [0xEF, 0xBC, 0xB8, 0xEF, 0xBC, 0xA1, 0xEF, 0xBC, 0xA2, 0xEF, 0xBC, 0xA3]

  /** The text after string_replace. */
  const PADDED: Bytes := [0x58, DASH, DASH, 0x41, DASH, DASH, 0x42, DASH, DASH, 0x43, DASH, DASH]

  lemma WideLetter(s: Bytes, c: Byte)
    requires 0x41 <= c <= 0x5A && |s| >= 3 && s[0] == 0xEF && s[1] == 0xBC && s[2] == c + 0x60
    ensures Replace(s) == [c, DASH, DASH] + Replace(s[3..])
  {
    hide ToHalf;
    HalfBytes(c);
    assert StepOf(s, true) == Take(3, c);
    assert Pad(DASH, 2) == [DASH, DASH];
    assert [c] + Pad(DASH, 2) == [c, DASH, DASH];
  }

  lemma Padded()
    ensures Replace(TEXT) == PADDED
  {
    hide StepOf, Replace;
    WideLetter(TEXT, 0x58);
    WideLetter(TEXT[3..], 0x41);
    WideLetter(TEXT[3..][3..], 0x42);
    WideLetter(TEXT[3..][3..][3..], 0x43);
    assert TEXT[3..][3..][3..][3..] == [];
    NothingPadded();
  }

  lemma NothingPadded()
    ensures Replace([]) == []
  {
  }

  // ----- the letters of the text and their places

  lemma RankAt(i: nat)
    requires i < 12
    ensures Dense(Letters, PADDED[..i + 1]) == XABC[..i / 3 + 1] && Rank(Letters, PADDED, i + 1) == i / 3 + 1
    ensures i % 3 == 0 ==> Rank(Letters, PADDED, i) == i / 3
  {
    hide Dense;
    DenseStep(Letters, PADDED, i);
    if i > 0 { RankAt(i - 1); } else { NothingRead0(); }
  }

  lemma NothingRead0()
    ensures Dense(Letters, PADDED[..0]) == []
  {
  }

  lemma AllLetters()
    ensures Dense(Letters, PADDED) == XABC
  {
    hide Dense;
    RankAt(11);
    assert PADDED[..12] == PADDED;
  }

  lemma OccursWhere(j: int, a: int)
    requires 0 <= j < |WORDS| && OccursAt(WORDS[j], XABC, a)
    ensures (j == 0 && a == 1) || (j == 1 && a == 0)
  {
    if j == 0 { assert XABC[a..a + 2][0] == XABC[a] == 0x41; }
  }

  lemma CoveredWhere(n: int, x: int)
    ensures CoveredUpTo(WORDS, XABC, n, x) <==> (n >= 3 && 1 <= x < 3) || (n >= 4 && 0 <= x < 4)
  {
    if CoveredUpTo(WORDS, XABC, n, x) {
      var j, a :| 0 <= j < |WORDS| && OccursAt(WORDS[j], XABC, a) && a + |WORDS[j]| <= n && a <= x < a + |WORDS[j]|;
      OccursWhere(j, a);
    }
    assert OccursAt(WORDS[0], XABC, 1) && OccursAt(WORDS[1], XABC, 0);
  }

  // ----- the match of XABC is blocked, that of AB is not

  lemma {:induction false} PadsNone(i: nat, lo: nat, hi: nat)
    requires i <= 12 && hi <= 12 && forall p: nat :: p < 12 && !IsAlpha(PADDED[p]) ==> !ToStar(WORDS, PADDED, i, p)
    ensures Pads(WORDS, PADDED, i, lo, hi) == 0
    decreases hi
  {
    if lo < hi { PadsNone(i, lo, hi - 1); }
  }

  lemma {:induction false} PadsSome(i: nat, lo: nat, hi: nat, p: nat)
    requires i <= 12 && lo <= p < hi <= 12 && !IsAlpha(PADDED[p]) && ToStar(WORDS, PADDED, i, p)
    ensures Pads(WORDS, PADDED, i, lo, hi) > 0
    decreases hi
  {
    if p < hi - 1 { PadsSome(i, lo, hi - 1, p); }
  }

  lemma NoneStarred()
    ensures forall p: nat :: p < 12 && !IsAlpha(PADDED[p]) ==> !ToStar(WORDS, PADDED, 6, p)
  {
    hide Dense, CoveredUpTo, EndsHere;
    RankAt(5);
    AllLetters();
    forall k: nat | k <= 12 ensures !Covered(WORDS, PADDED, 6, k) { CoveredWhere(2, Rank(Letters, PADDED, k)); }
  }

  lemma NotBlocked(j: nat)
    requires j < 9
    ensures !Blocked(WORDS, PADDED, j)
  {
    hide Dense, Best, Misses;
    RankAt(j);
    if j == 6 {
      forall n: nat, k: nat ensures !Misses(WORDS, PADDED, 6, n, k) { NothingMissed(n, k); }
    } else if j == 0 || j == 3 {
      var u := Dense(Letters, PADDED[..j + 1]);
      forall ix | 0 <= ix < |WORDS| ensures !Best(WORDS, u, ix) { TooShort(j / 3 + 1, ix); }
    }
  }

  lemma TooShort(n: nat, ix: int)
    requires 1 <= n <= 2 && 0 <= ix < |WORDS|
    ensures !Best(WORDS, XABC[..n], ix)
  {
    var w := WORDS[ix];
    assert |w| == n ==> XABC[..n][n - |w|..][0] == 0x58;
  }

  lemma NothingMissed(n: nat, k: nat)
    ensures !Misses(WORDS, PADDED, 6, n, k)
  {
    hide Covered, Rank, Pads, ToStar;
    NoneStarred();
    if k <= 6 { PadsNone(6, k, 7); }
  }

  lemma BlockedAtEnd()
    ensures FirstBlock(WORDS, PADDED, 9) && Quiet(WORDS, PADDED, 9, 12)
  {
    hide Dense, Covered, Rank, Pads, EndsHere, Blocked;
    forall j: nat | j < 9 ensures !Blocked(WORDS, PADDED, j) { NotBlocked(j); }
    RankAt(9);
    RankAt(11);
    XIsMissed();
  }

  lemma XIsMissed()
    ensures Blocked(WORDS, PADDED, 9)
  {
    hide Dense, Rank, Covered, Pads, ToStar, Best;
    RankAt(0);
    RankAt(9);
    AStarred();
    PadsSome(9, 0, 10, 4);
    EndsWithAll();
    assert Misses(WORDS, PADDED, 9, |WORDS[1]|, 0);
  }

  lemma AStarred()
    ensures !Covered(WORDS, PADDED, 9, 0) && ToStar(WORDS, PADDED, 9, 4)
  {
    hide Dense, CoveredUpTo, EndsHere;
    AllLetters();
    RankAt(0);
    RankAt(3);
    RankAt(8);
    CoveredWhere(3, 0);
    CoveredWhere(3, 1);
  }

  lemma EndsWithAll()
    ensures Best(WORDS, Dense(Letters, PADDED[..10]), 1)
  {
    hide Dense, Best;
    RankAt(9);
    assert XABC[..4] == XABC;
    LongestIsAll();
  }

  lemma LongestIsAll()
    ensures Best(WORDS, XABC, 1)
  {
    assert XABC[0..] == XABC && XABC[2..][0] == 0x42;
  }

  lemma {:induction false} NothingKept(r: Round, t: Bytes)
    requires forall i :: 0 <= i < |t| ==> !Keep(r, t[i])
    ensures Project(r, t) == []
  {
    if t != [] { NothingKept(r, t[..|t| - 1]); }
  }

  /** No pattern occurs in the padded text as it is. */
  lemma Broken(j: int, a: int)
    requires 0 <= j < |WORDS|
    ensures !OccursAt(WORDS[j], PADDED, a)
  {
    if 0 <= a <= a + |WORDS[j]| <= 12 {
      var w := PADDED[a..a + |WORDS[j]|];
      assert w[0] == PADDED[a] && w[1] == PADDED[a + 1];
    }
  }

  lemma OnlyLetters()
    ensures LeftToLetters(WORDS, PADDED) && AnyOccurrence(WORDS, PADDED)
  {
    hide Dense, Project;
    forall j, a | 0 <= j < |WORDS| ensures !OccursAt(WORDS[j], PADDED, a) { Broken(j, a); }
    NothingKept(Others, PADDED);
    AllLetters();
    DenseIsProject(Letters, PADDED);
    assert OccursAt(WORDS[1], XABC, 0);
  }

  /** Whatever the tables held before: with the patterns AB and XABC, the full-width text XABC is found dirty, and
      yet one of its letters, which is in an occurrence, is left as it was. */
  method LeavesLetter(m: Acsm, buf: Bytes) returns (tx: array<Byte>, flag: int)
    requires m.Valid() && m.patterns == [] && |buf| == MAXTEXT
    modifies m
    ensures m.Compiled() && m.patterns == WORDS && flag == 1 && tx.Length == 12
    ensures Replace(TEXT) == PADDED && exists k :: 0 <= k < 12 && InOccurrence(WORDS, PADDED, k) && tx[k] == TEXT[k]
  {
    hide Automaton, AllKept, Filter, Replace, InOccurrence, AnyOccurrence, LeftToLetters, FirstBlock, Quiet,
      TotalLength, InStretch, Starred, Without, Wide;
    PlainStays(AB);
    PlainStays(XABC);
    var ok := m.AddPattern(AB);
    ok := m.AddPattern(XABC);
    assert m.patterns == WORDS;
    SmallEnough();
    ok := m.Compile();
    tx := Copy(TEXT);
    flag := PatternReplace(m, tx, false, buf);
    Padded();
    OnlyLetters();
    BlockedAtEnd();
    assert LastBlocked(WORDS, PADDED);
  }

  lemma SmallEnough()
    ensures 1 + TotalLength(WORDS) <= MAXSTATE
  {
    LengthSnoc([], AB);
    LengthSnoc([AB], XABC);
    assert [] + [AB] == [AB] && [AB] + [XABC] == WORDS;
  }
}
