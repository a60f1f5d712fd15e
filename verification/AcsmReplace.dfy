/** Starring out the patterns of a text in place (tm_dirty/acsm.c: acsm_pattern_replace). */
module AcsmReplace {
  import opened AcsmWords
  import opened AcsmTrie
  import opened AcsmBfs
  import opened AcsmMachine
  import opened Utf8Punc
  import opened AcsmSearch
  import opened AcsmStars
  import opened AcsmLetters

  // ----- what holds between two bytes of a round

  /** Some pattern ends in the first n bytes of q. */
  ghost predicate EndsBy(pats: seq<Bytes>, q: Bytes, n: int) { exists j :: j <= n && EndsAt(pats, q, j) }

  /** The last byte of the round at or before k lies in an occurrence, apart from padding, that ends among the first
      i bytes. */
  ghost predicate InStretch(pats: seq<Bytes>, r: Round, t: Bytes, i: nat, k: nat)
    requires i <= |t| && k < |t|
  {
    Rank(r, t, k + 1) > 0 && CoveredUpTo(pats, Dense(r, t), Rank(r, t, i), Rank(r, t, k + 1) - 1)
  }

  ghost predicate Sound(pats: seq<Bytes>, r: Round, t: Bytes, b: Bytes, i: nat)
    requires i <= |t| == |b|
  {
    forall k :: 0 <= k < |t| && b[k] == STAR ==> InStretch(pats, r, t, i, k)
  }

  /** What was read since the last padding ends c. */
  ghost predicate Tail(t: Bytes, i: nat, c: Bytes)
    requires i <= |t|
  {
    forall j :: 0 <= j <= i && Without(t[j..i], DASH) ==> IsSuffix(t[j..i], c)
  }

  /** The first round: padding ends whatever is being matched, unless a match ended just before it. Every occurrence
      is starred. */
  ghost predicate WholeOk(pats: seq<Bytes>, t: Bytes, b: Bytes, i: nat, c: Bytes, found: bool)
    requires i <= |t| == |b|
  {
    && (found <==> EndsBy(pats, t, i)) && (!found ==> c == t[..i]) && Tail(t, i, c)
    && forall k :: 0 <= k < |t| && CoveredUpTo(pats, t, i, k) ==> b[k] == STAR
  }

  ghost predicate FoundOk(pats: seq<Bytes>, r: Round, t: Bytes, i: nat, found: bool)
    requires i <= |t|
  {
    found <==> EndsBy(pats, Dense(r, t), Rank(r, t, i))
  }

  ghost predicate OthersOk(pats: seq<Bytes>, t: Bytes, b: Bytes, i: nat)
    requires i <= |t| == |b|
  {
    && (forall k :: 0 <= k < |t| ==> b[k] == t[k] || (b[k] == STAR && Keep(Others, t[k])))
    && forall k ::
         && 0 <= k < |t| && Keep(Others, t[k])
         && CoveredUpTo(pats, Dense(Others, t), Rank(Others, t, i), Rank(Others, t, k)) ==>
           b[k] == STAR
  }

  /** The match at j is the first one that is blocked. */
  ghost predicate FirstBlock(pats: seq<Bytes>, t: Bytes, j: nat)
    requires j < |t|
  {
    Unblocked(pats, t, j) && Blocked(pats, t, j)
  }

  /** No match ends at a letter behind j, among the first i bytes. */
  ghost predicate Quiet(pats: seq<Bytes>, t: Bytes, j: nat, i: nat)
    requires j <= |t| && i <= |t|
  {
    forall n :: Rank(Letters, t, j) + 1 < n <= Rank(Letters, t, i) ==> !EndsAt(pats, Dense(Letters, t), n)
  }

  /** A letter of an occurrence has been left as it was. */
  ghost predicate Missed(pats: seq<Bytes>, t: Bytes, b: Bytes, i: nat)
    requires i <= |t| == |b|
  {
    exists k :: 0 <= k < |t| && IsAlpha(t[k]) && Covered(pats, t, i, k) && b[k] != STAR
  }

  ghost predicate LettersOk(pats: seq<Bytes>, t: Bytes, b: Bytes, i: nat)
    requires i <= |t| == |b|
  {
    && (Unblocked(pats, t, i) ==> Marked(pats, t, b, i))
    && forall j: nat :: j < i && FirstBlock(pats, t, j) && Quiet(pats, t, j, i) ==> Missed(pats, t, b, i)
  }

  /** What a round keeps true after i bytes of t, of which it has read c. */
  ghost predicate RoundOk(pats: seq<Bytes>, words: seq<Bytes>, r: Round, t: Bytes, b: Bytes, i: nat, c: Bytes,
      state: int, found: bool) {
    && i <= |t| && OnlyStars(t, b, i) && 0 <= state < |words| && words[state] == Longest(pats, c)
    && AllRead(r, c) && Dense(r, c) == Dense(r, t[..i]) && Sound(pats, r, t, b, i) && (!found ==> b == t)
    && (r == Whole ==> WholeOk(pats, t, b, i, c, found))
    && (r != Whole ==> FoundOk(pats, r, t, i, found))
    && (r == Others ==> OthersOk(pats, t, b, i))
    && (r == Letters ==> LettersOk(pats, t, b, i))
  }

  // ----- a byte is read

  /** The byte at i, which the round reads: the longest pattern that ends there is ix, and the padding up to e is
      skipped. */
  ghost predicate Reads(pats: seq<Bytes>, r: Round, t: Bytes, b: Bytes, i: nat, e: nat, c: Bytes, ix: int, b': Bytes) {
    && r != NonLetters && i < |t| && Keep(r, t[i]) && OnlyStars(t, b, i) && |b'| == |b| && Without(t, STAR)
    && AllRead(r, c) && Dense(r, c) == Dense(r, t[..i])
    && (forall j :: 0 <= j < |pats| ==> pats[j] != [] && Without(pats[j], DASH))
    && -1 <= ix < |pats| && Best(pats, c + [t[i]], ix)
    && e == (if ix == -1 then i else SkipTo(r, t, i))
    && forall k :: 0 <= k < |b| ==> b'[k] == if ix == -1 then b[k] else After(r, b, e, |pats[ix]|, k)
  }

  lemma ReadsOn(pats: seq<Bytes>, r: Round, t: Bytes, b: Bytes, i: nat, e: nat, c: Bytes, ix: int, b': Bytes)
    requires Reads(pats, r, t, b, i, e, c, ix, b')
    ensures i <= e < |t| && (forall k :: i < k <= e ==> t[k] == DASH) && OnlyStars(t, b', e + 1)
    ensures Dense(r, c + [t[i]]) == Dense(r, t[..i + 1]) == Dense(r, t[..e + 1])
    ensures Rank(r, t, e + 1) == Rank(r, t, i + 1)
    ensures AllRead(r, c + [t[i]])
  {
    hide Dense, Best, Tally, Stars, Without;
    DenseSnoc(r, c, t[i]);
    DenseStep(r, t, i);
    RankOverDashes(r, t, i + 1, e + 1);
  }

  /** In the second and third round, what was read is the projection without padding. */
  lemma ReadsDense(pats: seq<Bytes>, r: Round, t: Bytes, b: Bytes, i: nat, e: nat, c: Bytes, ix: int, b': Bytes)
    requires Reads(pats, r, t, b, i, e, c, ix, b') && r != Whole
    ensures Rank(r, t, i) + 1 == Rank(r, t, i + 1) <= |Dense(r, t)|
    ensures c + [t[i]] == Dense(r, t[..i + 1]) == Dense(r, t)[..Rank(r, t, i + 1)]
  {
    hide Dense, Best, SkipTo, After;
    ReadsOn(pats, r, t, b, i, e, c, ix, b');
    ReadIsDense(r, c + [t[i]]);
    DensePrefix(r, t, i + 1);
    RankStep(r, t, i);
  }

  lemma SoundStep(pats: seq<Bytes>, r: Round, t: Bytes, b: Bytes, i: nat, e: nat, c: Bytes, ix: int, b': Bytes)
    requires Reads(pats, r, t, b, i, e, c, ix, b') && Sound(pats, r, t, b, i)
    ensures e < |t| && Sound(pats, r, t, b', e + 1)
  {
    hide Best, CoveredUpTo, Tally, Stars, SkipTo, Dense, Rank;
    ReadsOn(pats, r, t, b, i, e, c, ix, b');
    RankOrder(r, t, i, e + 1);
    forall k | 0 <= k < |t| && b'[k] == STAR ensures InStretch(pats, r, t, e + 1, k) {
      if b[k] == STAR {
        CoveredMore(pats, Dense(r, t), Rank(r, t, i), Rank(r, t, e + 1), Rank(r, t, k + 1) - 1);
      } else {
        StretchOf(pats, r, t, b, i, e, c, ix, k);
      }
    }
  }

  /** What the backward loop passes lies in the stretch of the pattern. */
  lemma StretchOf(pats: seq<Bytes>, r: Round, t: Bytes, b: Bytes, i: nat, e: nat, c: Bytes, ix: int, k: nat)
    requires i <= e < |t| && k <= e && OnlyStars(t, b, i) && AllRead(r, c + [t[i]])
    requires Dense(r, c + [t[i]]) == Dense(r, t[..i + 1])
    requires 0 <= ix < |pats| && Best(pats, c + [t[i]], ix) && Without(pats[ix], DASH)
    requires Rank(r, t, e + 1) == Rank(r, t, i + 1)
    requires Tally(r, b, k + 1, e + 1) < |pats[ix]|
    ensures InStretch(pats, r, t, e + 1, k)
  {
    hide Tally, Dense;
    var q, n, p := Dense(r, t), Rank(r, t, i + 1), pats[ix];
    PatternIsDense(r, c + [t[i]], p);
    DensePrefix(r, t, i + 1);
    EnoughToCount(r, t, b, k + 1, e + 1);
    RankOrder(r, t, k + 1, e + 1);
    assert q[..n][n - |p|..] == q[n - |p|..n];
    assert OccursAt(p, q, n - |p|) && (n - |p|) + |p| <= n;
  }

  lemma EndsMore(pats: seq<Bytes>, q: Bytes, n: nat, m: int, ix: int)
    requires n < |q| && Best(pats, q[..n + 1], ix) && (m == n + 1 || (m > n && ix != -1))
    ensures EndsBy(pats, q, m) <==> EndsBy(pats, q, n) || ix != -1
  {
    hide EndsAt, Best;
    BestMeansEnds(pats, q, n + 1, ix);
    BestRange(pats, q[..n + 1], ix);
  }

  lemma FoundStep(pats: seq<Bytes>, r: Round, t: Bytes, b: Bytes, i: nat, e: nat, c: Bytes, ix: int, b': Bytes,
      found: bool)
    requires Reads(pats, r, t, b, i, e, c, ix, b') && r != Whole && FoundOk(pats, r, t, i, found)
    ensures e < |t| && FoundOk(pats, r, t, e + 1, found || ix != -1)
  {
    hide Best, EndsBy, Dense, After, SkipTo;
    ReadsOn(pats, r, t, b, i, e, c, ix, b');
    ReadsDense(pats, r, t, b, i, e, c, ix, b');
    EndsMore(pats, Dense(r, t), Rank(r, t, i), Rank(r, t, i + 1), ix);
  }

  // ----- the first round

  lemma TailStep(t: Bytes, i: nat, e: nat, c: Bytes)
    requires i <= e < |t| && Tail(t, i, c) && forall k :: i < k <= e ==> t[k] == DASH
    ensures Tail(t, e + 1, c + [t[i]])
  {
    var n := e + 1;
    forall j | 0 <= j <= n && Without(t[j..n], DASH) ensures IsSuffix(t[j..n], c + [t[i]]) {
      if j <= e {
        assert t[j..n][e - j] == t[e];
        assert e == i && t[j..n] == t[j..i] + [t[i]];
        assert forall k :: 0 <= k < i - j ==> t[j..i][k] == t[j..n][k];
        SuffixSnoc(t[j..i], c, t[i]);
      }
    }
  }

  /** An occurrence that ends at the byte i ends what was read. */
  lemma OccurrenceRead(t: Bytes, i: nat, c: Bytes, p: Bytes, a: int)
    requires i < |t| && Tail(t, i, c) && OccursAt(p, t, a) && a + |p| == i + 1 && p != [] && Without(p, DASH)
    ensures IsSuffix(p, c + [t[i]])
  {
    var w := t[a..i];
    assert p == w + [t[i]];
    assert forall x :: 0 <= x < |w| ==> w[x] == p[x];
    SuffixSnoc(w, c, t[i]);
  }

  /** An occurrence that ends at the byte i is starred now. */
  lemma OccurrenceStarred(pats: seq<Bytes>, t: Bytes, b: Bytes, i: nat, e: nat, c: Bytes, ix: int, b': Bytes, j: int,
      a: int, k: nat)
    requires Reads(pats, Whole, t, b, i, e, c, ix, b') && Tail(t, i, c) && 0 <= j < |pats| && OccursAt(pats[j], t, a)
    requires a + |pats[j]| == i + 1
    requires a <= k <= i
    ensures b'[k] == STAR
  {
    hide Tally, Tail, Dense, IsSuffix, OccursAt, SkipTo;
    ReadsOn(pats, Whole, t, b, i, e, c, ix, b');
    OccurrenceRead(t, i, c, pats[j], a);
    TallyShort(Whole, b, k + 1, i + 1, e + 1);
  }

  lemma WholeStep(pats: seq<Bytes>, t: Bytes, b: Bytes, i: nat, e: nat, c: Bytes, ix: int, b': Bytes, found: bool)
    requires Reads(pats, Whole, t, b, i, e, c, ix, b') && WholeOk(pats, t, b, i, c, found)
    ensures e < |t| && WholeOk(pats, t, b', e + 1, c + [t[i]], found || ix != -1)
  {
    hide Tally, Dense, Best, EndsBy;
    ReadsOn(pats, Whole, t, b, i, e, c, ix, b');
    TailStep(t, i, e, c);
    WholeFound(pats, t, i, e, c, ix, found);
    forall k | 0 <= k < |t| && CoveredUpTo(pats, t, e + 1, k) ensures b'[k] == STAR {
      var j, a :| 0 <= j < |pats| && OccursAt(pats[j], t, a) && a + |pats[j]| <= e + 1 && a <= k < a + |pats[j]|;
      if a + |pats[j]| <= i {
        assert CoveredUpTo(pats, t, i, k);
      } else {
        var x := |pats[j]| - 1;
        assert t[a..a + |pats[j]|][x] == pats[j][x];
        OccurrenceStarred(pats, t, b, i, e, c, ix, b', j, a, k);
      }
    }
  }

  lemma WholeFound(pats: seq<Bytes>, t: Bytes, i: nat, e: nat, c: Bytes, ix: int, found: bool)
    requires i <= e < |t| && (found <==> EndsBy(pats, t, i)) && (!found ==> c == t[..i]) && Best(pats, c + [t[i]], ix)
    requires ix == -1 ==> e == i
    ensures (found || ix != -1 <==> EndsBy(pats, t, e + 1)) && (!found && ix == -1 ==> c + [t[i]] == t[..e + 1])
  {
    hide Best, EndsAt;
    if !found {
      assert c + [t[i]] == t[..i + 1];
      EndsMore(pats, t, i, e + 1, ix);
    }
  }

  // ----- the third round

  lemma {:induction false} TallyOthers(t: Bytes, b: Bytes, lo: nat, hi: nat)
    requires lo <= hi <= |t| == |b| && forall k :: 0 <= k < |t| ==> b[k] == t[k] || (b[k] == STAR && Keep(Others, t[k]))
    ensures Tally(Others, b, lo, hi) == Rank(Others, t, hi) - Rank(Others, t, lo)
    decreases hi
  {
    hide Rank;
    if lo < hi {
      TallyOthers(t, b, lo, hi - 1);
      RankStep(Others, t, hi - 1);
    }
  }

  lemma OthersStep(pats: seq<Bytes>, t: Bytes, b: Bytes, i: nat, e: nat, c: Bytes, ix: int, b': Bytes)
    requires Reads(pats, Others, t, b, i, e, c, ix, b') && OthersOk(pats, t, b, i)
    ensures e == i && OthersOk(pats, t, b', e + 1)
  {
    hide Tally, Dense, Best, CoveredUpTo, Rank;
    ReadsDense(pats, Others, t, b, i, e, c, ix, b');
    var q := Dense(Others, t);
    forall k | 0 <= k < |t| && Keep(Others, t[k]) && CoveredUpTo(pats, q, Rank(Others, t, i + 1), Rank(Others, t, k))
      ensures b'[k] == STAR
    {
      CoveredStep(pats, q, Rank(Others, t, i), ix, Rank(Others, t, k));
      if !CoveredUpTo(pats, q, Rank(Others, t, i), Rank(Others, t, k)) {
        if k > i { RankOrder(Others, t, i + 1, k); }
        TallyOthers(t, b, k + 1, i + 1);
        RankStep(Others, t, k);
      }
    }
  }

  // ----- the second round

  lemma LettersStep(pats: seq<Bytes>, t: Bytes, b: Bytes, i: nat, e: nat, c: Bytes, ix: int, b': Bytes)
    requires Reads(pats, Letters, t, b, i, e, c, ix, b') && LettersOk(pats, t, b, i)
    ensures e < |t| && LettersOk(pats, t, b', e + 1)
  {
    hide Tally, Dense, Best, Rank, Blocked, Marked, Missed, Quiet, After, SkipTo;
    ReadsOn(pats, Letters, t, b, i, e, c, ix, b');
    ReadsDense(pats, Letters, t, b, i, e, c, ix, b');
    if Unblocked(pats, t, e + 1) {
      LetterRead(pats, t, b, i, e, ix, b');
    }
    forall j: nat | j < e + 1 && FirstBlock(pats, t, j) && Quiet(pats, t, j, e + 1) ensures Missed(pats, t, b', e + 1) {
      BlockedIsLetter(pats, t, j);
      if j < i {
        StillMissed(pats, t, b, i, e, c, ix, b', j);
      } else {
        assert j == i;
        MissedNow(pats, t, b, i, e, c, ix, b');
      }
    }
  }

  lemma BlockedIsLetter(pats: seq<Bytes>, t: Bytes, j: nat)
    requires j < |t| && Blocked(pats, t, j)
    ensures IsAlpha(t[j])
  {
  }

  lemma StillMissed(pats: seq<Bytes>, t: Bytes, b: Bytes, i: nat, e: nat, c: Bytes, ix: int, b': Bytes, j: nat)
    requires Reads(pats, Letters, t, b, i, e, c, ix, b') && LettersOk(pats, t, b, i) && e < |t|
    requires j < i && FirstBlock(pats, t, j) && Quiet(pats, t, j, e + 1) && IsAlpha(t[j])
    ensures Missed(pats, t, b', e + 1)
  {
    hide Tally, Dense, Best, Rank, Blocked, Marked, After, EndsAt, CoveredUpTo, FirstBlock, Unblocked;
    ReadsOn(pats, Letters, t, b, i, e, c, ix, b');
    ReadsDense(pats, Letters, t, b, i, e, c, ix, b');
    RankOrder(Letters, t, j, i);
    BestMeansEnds(pats, Dense(Letters, t), Rank(Letters, t, i + 1), ix);
    assert !EndsAt(pats, Dense(Letters, t), Rank(Letters, t, i + 1));
    assert Quiet(pats, t, j, i);
    var k :| 0 <= k < |t| && IsAlpha(t[k]) && Covered(pats, t, i, k) && b[k] != STAR;
    CoveredMore(pats, Dense(Letters, t), Rank(Letters, t, i), Rank(Letters, t, e + 1), Rank(Letters, t, k));
  }

  lemma MissedNow(pats: seq<Bytes>, t: Bytes, b: Bytes, i: nat, e: nat, c: Bytes, ix: int, b': Bytes)
    requires Reads(pats, Letters, t, b, i, e, c, ix, b') && LettersOk(pats, t, b, i) && FirstBlock(pats, t, i)
    requires e < |t|
    ensures Missed(pats, t, b', e + 1)
  {
    hide Tally, Dense, Rank, Marked, After, Misses, CoveredUpTo;
    ReadsOn(pats, Letters, t, b, i, e, c, ix, b');
    ReadsDense(pats, Letters, t, b, i, e, c, ix, b');
    var k := BlockedLeaves(pats, t, b, i, ix);
    CoveredMore(pats, Dense(Letters, t), Rank(Letters, t, i + 1), Rank(Letters, t, e + 1), Rank(Letters, t, k));
  }

  // ----- from byte to byte

  lemma NothingYet(pats: seq<Bytes>, q: Bytes)
    requires forall i :: 0 <= i < |pats| ==> pats[i] != []
    ensures !EndsBy(pats, q, 0) && forall x :: !CoveredUpTo(pats, q, 0, x)
  {
  }

  lemma RoundStarts(pats: seq<Bytes>, words: seq<Bytes>, r: Round, t: Bytes)
    requires 0 < |words| && words[0] == Longest(pats, []) && Without(t, STAR)
    requires forall i :: 0 <= i < |pats| ==> pats[i] != []
    ensures RoundOk(pats, words, r, t, t, 0, [], 0, false)
  {
    hide Longest, EndsBy, CoveredUpTo, Owner;
    assert t[..0] == [] && t[0..0] == [];
    NothingYet(pats, t);
    NothingYet(pats, Dense(r, t));
  }

  /** A byte that the round does not read changes nothing. */
  lemma RoundSkips(pats: seq<Bytes>, words: seq<Bytes>, r: Round, t: Bytes, b: Bytes, i: nat, c: Bytes, state: int,
      found: bool)
    requires RoundOk(pats, words, r, t, b, i, c, state, found) && i < |t| && !Keep(r, t[i])
    ensures RoundOk(pats, words, r, t, b, i + 1, c, state, found)
  {
    hide Longest, EndsBy, Dense, CoveredUpTo, Marked, Quiet, Missed, WholeOk, LettersOk;
    DenseStep(r, t, i);
    if r == Letters { LettersSkip(pats, t, b, i); }
  }

  lemma LettersSkip(pats: seq<Bytes>, t: Bytes, b: Bytes, i: nat)
    requires i < |t| == |b| && LettersOk(pats, t, b, i) && !IsAlpha(t[i])
    ensures LettersOk(pats, t, b, i + 1)
  {
    hide Dense, CoveredUpTo, Marked, EndsAt, Misses;
    DenseStep(Letters, t, i);
    if Unblocked(pats, t, i + 1) { SameRank(pats, t, b, i, i + 1); }
  }

  /** The byte at i is read, the padding up to e is skipped, and the stars are written. */
  lemma RoundReads(pats: seq<Bytes>, words: seq<Bytes>, r: Round, t: Bytes, b: Bytes, i: nat, e: nat, c: Bytes,
      state: int, found: bool, ix: int, n: int, b': Bytes)
    requires RoundOk(pats, words, r, t, b, i, c, state, found) && Reads(pats, r, t, b, i, e, c, ix, b')
    requires 0 <= n < |words| && words[n] == Longest(pats, c + [t[i]])
    ensures RoundOk(pats, words, r, t, b', e + 1, c + [t[i]], n, found || ix != -1)
  {
    hide Longest, EndsBy, Dense, CoveredUpTo, WholeOk, LettersOk, OthersOk, Sound, Best, After, SkipTo;
    ReadsOn(pats, r, t, b, i, e, c, ix, b');
    SoundStep(pats, r, t, b, i, e, c, ix, b');
    if r == Whole {
      WholeStep(pats, t, b, i, e, c, ix, b', found);
    } else {
      FoundStep(pats, r, t, b, i, e, c, ix, b', found);
    }
    if r == Others { OthersStep(pats, t, b, i, e, c, ix, b'); }
    if r == Letters { LettersStep(pats, t, b, i, e, c, ix, b'); }
  }

  /** The longest pattern found fits into what can be counted backwards. */
  lemma RoomToStar(pats: seq<Bytes>, r: Round, t: Bytes, b: Bytes, i: nat, e: nat, c: Bytes, ix: int)
    requires i <= e < |t| && OnlyStars(t, b, i) && Keep(r, t[i]) && AllRead(r, c) && Dense(r, c) == Dense(r, t[..i])
    requires 0 <= ix < |pats| && Best(pats, c + [t[i]], ix) && Without(pats[ix], DASH)
    ensures Tally(r, b, 0, e + 1) >= |pats[ix]|
  {
    hide Rank, Tally, Without, AllRead, Best, Dense;
    PatternFits(pats, r, t, i, c, ix);
    RankOrder(r, t, i + 1, e + 1);
    EnoughToCount(r, t, b, 0, e + 1);
    RankNone(r, t);
  }

  lemma PatternFits(pats: seq<Bytes>, r: Round, t: Bytes, i: nat, c: Bytes, ix: int)
    requires i < |t| && Keep(r, t[i]) && AllRead(r, c) && Dense(r, c) == Dense(r, t[..i])
    requires 0 <= ix < |pats| && Best(pats, c + [t[i]], ix) && Without(pats[ix], DASH)
    ensures |pats[ix]| <= Rank(r, t, i + 1)
  {
    hide Dense;
    DenseSnoc(r, c, t[i]);
    DenseStep(r, t, i);
    PatternIsDense(r, c + [t[i]], pats[ix]);
  }

  lemma RankNone(r: Round, t: Bytes)
    ensures Rank(r, t, 0) == 0
  {
  }

  lemma RoundFacts(pats: seq<Bytes>, words: seq<Bytes>, r: Round, t: Bytes, b: Bytes, i: nat, c: Bytes, state: int,
      found: bool)
    requires RoundOk(pats, words, r, t, b, i, c, state, found)
    ensures i <= |t| == |b| && 0 <= state < |words| && words[state] == Longest(pats, c) && AllRead(r, c)
    ensures Dense(r, c) == Dense(r, t[..i]) && OnlyStars(t, b, i)
  {
  }

  lemma NoDashInside(p: Bytes)
    requires AllKept(p, true)
    ensures Without(p, DASH)
  {
  }

  // ----- one round

  /** The first blocked match of the text is its last match. */
  ghost predicate LastBlocked(pats: seq<Bytes>, t: Bytes) {
    exists j: nat :: j < |t| && FirstBlock(pats, t, j) && Quiet(pats, t, j, |t|)
  }

  /** What a round makes of the text t. For every text: the verdict is exact, and stars are written inside the
      stretches of occurrences only. The first and the third round star every occurrence in the text or its
      projection, and the third nothing else; so does the second, with the padding of the letters, when no match is
      blocked. When the first match that is blocked is the last one, then it does not. */
  ghost predicate Outcome(pats: seq<Bytes>, r: Round, t: Bytes, b: Bytes, found: bool) {
    && OnlyStars(t, b, |t|) && (found <==> Occurs(pats, Project(r, t))) && (!found ==> b == t)
    && (forall k :: 0 <= k < |t| && b[k] == STAR ==> InStretch(pats, r, t, |t|, k))
    && (r != Letters || Unblocked(pats, t, |t|) ==> forall k :: 0 <= k < |t| && Starred(pats, r, t, k) ==> b[k] == STAR)
    && (r == Others ==> forall k :: 0 <= k < |t| && b[k] == STAR ==> Starred(pats, r, t, k))
    && (r == Letters && Unblocked(pats, t, |t|) ==> Marked(pats, t, b, |t|))
    && (r == Letters && LastBlocked(pats, t) ==> exists k :: 0 <= k < |t| && Starred(pats, r, t, k) && b[k] != STAR)
  }

  lemma StarredIsCovered(pats: seq<Bytes>, r: Round, t: Bytes, k: nat)
    requires k < |t| && (r == Letters || r == Others || (r == Whole && Without(t, DASH)))
    ensures Starred(pats, r, t, k) <==> Keep(r, t[k]) && CoveredUpTo(pats, Dense(r, t), Rank(r, t, |t|), Rank(r, t, k))
    ensures Keep(r, t[k]) ==> Rank(r, t, k + 1) == Rank(r, t, k) + 1
  {
    hide Dense, Project, CoveredUpTo;
    assert t[..|t|] == t;
    assert forall x :: 0 <= x < k ==> t[..k][x] == t[x];
    DenseIsProject(r, t);
    DenseIsProject(r, t[..k]);
    DenseStep(r, t, k);
  }

  lemma EndsMeansOccurs(pats: seq<Bytes>, q: Bytes)
    ensures EndsBy(pats, q, |q|) <==> Occurs(pats, q)
  {
    hide Occurs;
    OccursMeansEnds(pats, q);
  }

  lemma FoundMeansOccurs(pats: seq<Bytes>, words: seq<Bytes>, r: Round, t: Bytes, b: Bytes, c: Bytes, state: int,
      found: bool)
    requires RoundOk(pats, words, r, t, b, |t|, c, state, found) && r != NonLetters
    ensures found <==> Occurs(pats, Project(r, t))
  {
    hide Longest, Occurs, EndsBy, Dense, Project, Sound, LettersOk, OthersOk, CoveredUpTo;
    assert t[..|t|] == t;
    if r == Whole {
      ProjectWhole(t);
      EndsMeansOccurs(pats, t);
    } else {
      DenseIsProject(r, t);
      EndsMeansOccurs(pats, Dense(r, t));
    }
  }

  lemma RoundEnds(pats: seq<Bytes>, words: seq<Bytes>, r: Round, t: Bytes, b: Bytes, c: Bytes, state: int, found: bool)
    requires RoundOk(pats, words, r, t, b, |t|, c, state, found) && r != NonLetters && Without(t, STAR)
    ensures Outcome(pats, r, t, b, found)
  {
    hide Longest, Occurs, EndsBy, Dense, Project, CoveredUpTo, Starred, Marked, FirstBlock, Quiet, Unblocked, Rank;
    FoundMeansOccurs(pats, words, r, t, b, c, state, found);
    if r == Whole { WholeEnds(pats, t, b, c, found); }
    if r != Whole {
      forall k | 0 <= k < |t|
        ensures
          Starred(pats, r, t, k) <==> Keep(r, t[k]) && CoveredUpTo(pats, Dense(r, t), Rank(r, t, |t|), Rank(r, t, k))
        ensures Keep(r, t[k]) ==> Rank(r, t, k + 1) == Rank(r, t, k) + 1
      {
        StarredIsCovered(pats, r, t, k);
      }
    }
    if r == Letters { LettersEnd(pats, t, b); }
  }

  lemma WholeEnds(pats: seq<Bytes>, t: Bytes, b: Bytes, c: Bytes, found: bool)
    requires |t| == |b| && WholeOk(pats, t, b, |t|, c, found)
    ensures forall k :: 0 <= k < |t| && Starred(pats, Whole, t, k) ==> b[k] == STAR
  {
    hide EndsBy, CoveredUpTo, Project;
    ProjectWhole(t);
    forall k | 0 <= k < |t| ensures Project(Whole, t[..k]) == t[..k] { ProjectWhole(t[..k]); }
  }

  lemma LettersEnd(pats: seq<Bytes>, t: Bytes, b: Bytes)
    requires |t| == |b| && LettersOk(pats, t, b, |t|) && Without(t, STAR)
    requires forall k :: 0 <= k < |t| ==> (Starred(pats, Letters, t, k) <==> IsAlpha(t[k]) && Covered(pats, t, |t|, k))
    ensures Unblocked(pats, t, |t|) ==>
        Marked(pats, t, b, |t|) && forall k :: 0 <= k < |t| && Starred(pats, Letters, t, k) ==> b[k] == STAR
    ensures LastBlocked(pats, t) ==> exists k :: 0 <= k < |t| && Starred(pats, Letters, t, k) && b[k] != STAR
  {
    hide Covered, Starred, FirstBlock, Quiet, Unblocked, Owner;
  }

  /** One round over its own copy of the text. */
  method MarkRound(m: Acsm, buf: array<Byte>, r: Round) returns (found: bool)
    requires m.Compiled() && r != NonLetters && Without(buf[..], STAR)
    modifies buf
    ensures Outcome(m.patterns, r, old(buf[..]), buf[..], found)
  {
    hide Automaton, Wide, Longest, RoundOk, Outcome, AllKept;
    ghost var t, c := buf[..], [];
    StartState(m.patterns, m.table, m.words);
    RoundStarts(m.patterns, m.words, r, t);
    var state, i := 0, 0;
    found := false;
    while i < buf.Length
      invariant 0 <= i <= buf.Length && RoundOk(m.patterns, m.words, r, t, buf[..], i, c, state, found)
      decreases buf.Length - i
    {
      RoundFacts(m.patterns, m.words, r, t, buf[..], i, c, state, found);
      if !Keep(r, buf[i]) {
        RoundSkips(m.patterns, m.words, r, t, buf[..], i, c, state, found);
      } else {
        ghost var i0 := i;
        i, state, found := ReadOne(m, buf, r, i, state, found, t, c);
        c := c + [t[i0]];
      }
      i := i + 1;
    }
    RoundEnds(m.patterns, m.words, r, t, buf[..], c, state, found);
  }

  /** The byte at i, which the round reads: at the end of a pattern its padding is skipped and the pattern is
      starred. */
  method ReadOne(m: Acsm, buf: array<Byte>, r: Round, i: nat, state: int, found: bool, ghost t: Bytes, ghost c: Bytes)
    returns (e: nat, state': int, found': bool)
    requires m.Compiled() && r != NonLetters && Without(t, STAR) && |t| == buf.Length
    requires i < buf.Length && RoundOk(m.patterns, m.words, r, t, buf[..], i, c, state, found) && Keep(r, buf[i])
    modifies buf
    ensures i <= e < buf.Length && RoundOk(m.patterns, m.words, r, t, buf[..], e + 1, c + [t[i]], state', found')
  {
    hide Automaton, Wide, Longest, RoundOk, Best, AllKept, Tally, After, Dense, AllRead, Without, Keep, SkipTo;
    RoundFacts(m.patterns, m.words, r, t, buf[..], i, c, state, found);
    ghost var b0 := buf[..];
    assert buf[i] == t[i] == b0[i];
    ReadByte(m.patterns, m.table, m.words, state, c, t[i]);
    state', e, found' := m.table[state].next[buf[i]], i, found;
    var ix := m.table[state'].longest;
    BestRange(m.patterns, c + [t[i]], ix);
    forall j | 0 <= j < |m.patterns| ensures Without(m.patterns[j], DASH) { NoDashInside(m.patterns[j]); }
    if ix != -1 {
      e := SkipPadding(buf, i, r);
      SameSkip(r, t, b0, i);
      RoomToStar(m.patterns, r, t, b0, i, e, c, ix);
      StarBack(buf, e, |m.patterns[ix]|, r);
      found' := true;
    }
    RoundReads(m.patterns, m.words, r, t, b0, i, e, c, state, found, ix, state', buf[..]);
  }

  /** The padding ahead has not been starred. */
  lemma SameSkip(r: Round, t: Bytes, b: Bytes, i: nat)
    requires i < |t| && OnlyStars(t, b, i)
    ensures SkipTo(r, b, i) == SkipTo(r, t, i)
  {
  }

  // ----- the whole replacement

  method Copy(t: Bytes) returns (buf: array<Byte>)
    ensures fresh(buf) && buf[..] == t
  {
    buf := new Byte[|t|](i requires 0 <= i < |t| => t[i]);
    assert buf[..] == t;
  }

  /** Byte k is in an occurrence of a pattern in the text d or in one of its two projections. */
  ghost predicate InOccurrence(pats: seq<Bytes>, d: Bytes, k: nat)
    requires k < |d|
  {
    Starred(pats, Whole, d, k) || Starred(pats, Letters, d, k) || Starred(pats, Others, d, k)
  }

  ghost predicate AnyOccurrence(pats: seq<Bytes>, d: Bytes) {
    Occurs(pats, d) || Occurs(pats, Project(Letters, d)) || Occurs(pats, Project(Others, d))
  }

  /** Byte k is in the stretch of an occurrence in the text d or in one of its two projections, apart from padding. */
  ghost predicate NearOccurrence(pats: seq<Bytes>, d: Bytes, k: nat)
    requires k < |d|
  {
    InStretch(pats, Whole, d, |d|, k) || InStretch(pats, Letters, d, |d|, k) || InStretch(pats, Others, d, |d|, k)
  }

  /** d is the text t after string_replace, t' the text afterwards. The flag is exact. Bytes change to stars only,
      and only in stretches of occurrences. Bytes of occurrences are starred, unless they are such in the second
      round alone and that is blocked; and without padding they alone are. */
  ghost predicate StarsRight(pats: seq<Bytes>, d: Bytes, t: Bytes, t': Bytes, flag: int) {
    && |d| == |t| == |t'| && (flag == if AnyOccurrence(pats, d) then 1 else 0) && (flag == 0 ==> t' == t)
    && (forall k :: 0 <= k < |t| ==> t'[k] == t[k] || (t'[k] == STAR && NearOccurrence(pats, d, k)))
    && (forall k :: 0 <= k < |t| && (Starred(pats, Whole, d, k) || Starred(pats, Others, d, k)) ==> t'[k] == STAR)
    && (Unblocked(pats, d, |d|) ==> forall k :: 0 <= k < |t| && InOccurrence(pats, d, k) ==> t'[k] == STAR)
    && (Without(d, DASH) ==> forall k :: 0 <= k < |t| ==> t'[k] == if InOccurrence(pats, d, k) then STAR else t[k])
    && (LeftToLetters(pats, d) && LastBlocked(pats, d) ==>
          exists k :: 0 <= k < |t| && InOccurrence(pats, d, k) && t'[k] == t[k])
  }

  /** Only the second round can find anything. */
  ghost predicate LeftToLetters(pats: seq<Bytes>, d: Bytes) { !Occurs(pats, d) && !Occurs(pats, Project(Others, d)) }

  /** acsm_pattern_replace, on the text tx in place; buf is what the target of the blanking of brackets holds before. */
  method PatternReplace(m: Acsm, tx: array<Byte>, jump: bool, buf: Bytes) returns (flag: int)
    requires m.Compiled() && |buf| == MAXTEXT
    modifies tx
    ensures flag == -1 <==> tx.Length > MAXTEXT
    ensures flag == -1 ==> tx[..] == old(tx[..])
    ensures flag != -1 ==>
        exists c ::
          IsCleared(old(tx[..]), jump, buf, c) && StarsRight(m.patterns, Replace(c), old(tx[..]), tx[..], flag)
  {
    hide Automaton, Wide, Outcome, Replace, IsCleared, AllKept, StarsRight, Without;
    if tx.Length > MAXTEXT { return -1; }
    ghost var t0 := tx[..];
    var cl := Clear(tx[..], jump, buf);
    var d := StringReplace(cl);
    ReplaceIsFilter(cl);
    NoStarInside(d);
    ProjectWhole(d);
    var b0, f0 := RoundOver(m, d, Whole);
    var b1, f1 := RoundOver(m, d, Letters);
    var b2, f2 := RoundOver(m, d, Others);
    Merge(tx, b0, b1, b2);
    flag := if f0 || f1 || f2 then 1 else 0;
    Merged(m.patterns, d, b0, b1, b2, f0, f1, f2, t0, tx[..]);
    assert IsCleared(t0, jump, buf, cl) && StarsRight(m.patterns, Replace(cl), t0, tx[..], flag);
  }

  method RoundOver(m: Acsm, d: Bytes, r: Round) returns (b: Bytes, found: bool)
    requires m.Compiled() && r != NonLetters && Without(d, STAR)
    ensures |b| == |d| && Outcome(m.patterns, r, d, b, found)
  {
    hide Automaton, Wide, Outcome, AllKept, Without;
    var buf := Copy(d);
    found := MarkRound(m, buf, r);
    b := buf[..];
    OutcomeSize(m.patterns, r, d, b, found);
  }

  lemma OutcomeSize(pats: seq<Bytes>, r: Round, t: Bytes, b: Bytes, found: bool)
    requires Outcome(pats, r, t, b, found)
    ensures |b| == |t|
  {
  }

  lemma NoStarInside(d: Bytes)
    requires forall i :: 0 <= i < |d| ==> IsPad(d[i]) || IsKept(d[i], true)
    ensures Without(d, STAR)
  {
  }

  /** Without padding the rounds star exactly the occurrences. */
  lemma ExactWithout(pats: seq<Bytes>, r: Round, t: Bytes, b: Bytes, found: bool, k: nat)
    requires Outcome(pats, r, t, b, found) && Without(t, DASH) && Without(t, STAR) && r != NonLetters && k < |t| == |b|
    ensures b[k] == STAR <==> Starred(pats, r, t, k)
  {
    hide CoveredUpTo, Dense, Starred, Blocked, Rank, Occurs, LastBlocked;
    StarredIsCovered(pats, r, t, k);
    if r == Letters { NeverBlocked(pats, t); }
  }

  lemma {:induction false} NoPads(pats: seq<Bytes>, t: Bytes, i: nat, lo: nat, hi: nat)
    requires i <= |t| && hi <= |t| && Without(t, DASH)
    ensures Pads(pats, t, i, lo, hi) == 0
    decreases hi
  {
    if lo < hi { NoPads(pats, t, i, lo, hi - 1); }
  }

  /** Without padding no match is blocked. */
  lemma NeverBlocked(pats: seq<Bytes>, t: Bytes)
    requires Without(t, DASH)
    ensures Unblocked(pats, t, |t|)
  {
    hide Dense, Best, Covered, Rank;
    forall i: nat, n: nat, k: nat | i < |t| ensures !Misses(pats, t, i, n, k) {
      if k <= i { NoPads(pats, t, i, k, i + 1); }
    }
  }

  /** t' is t with the stars of the three buffers. */
  ghost predicate IsMerge(b0: Bytes, b1: Bytes, b2: Bytes, t: Bytes, t': Bytes) {
    && |b0| == |b1| == |b2| == |t| == |t'|
    && forall k :: 0 <= k < |t| ==> t'[k] == if b0[k] == STAR || b1[k] == STAR || b2[k] == STAR then STAR else t[k]
  }

  lemma Merged(pats: seq<Bytes>, d: Bytes, b0: Bytes, b1: Bytes, b2: Bytes, f0: bool, f1: bool, f2: bool, t: Bytes,
      t': Bytes)
    requires Outcome(pats, Whole, d, b0, f0) && Outcome(pats, Letters, d, b1, f1) && Outcome(pats, Others, d, b2, f2)
    requires IsMerge(b0, b1, b2, t, t') && |d| == |t| && Without(d, STAR) && Project(Whole, d) == d
    ensures StarsRight(pats, d, t, t', if f0 || f1 || f2 then 1 else 0)
  {
    hide Starred, InStretch, Unblocked, Marked, LastBlocked, Occurs;
    if Without(d, DASH) {
      forall k | 0 <= k < |t| ensures t'[k] == if InOccurrence(pats, d, k) then STAR else t[k] {
        ExactWithout(pats, Whole, d, b0, f0, k);
        ExactWithout(pats, Letters, d, b1, f1, k);
        ExactWithout(pats, Others, d, b2, f2, k);
      }
    }
    if LeftToLetters(pats, d) && LastBlocked(pats, d) {
      var k :| 0 <= k < |d| && Starred(pats, Letters, d, k) && b1[k] != STAR;
      assert t'[k] == t[k] && InOccurrence(pats, d, k);
    }
  }

  method Merge(tx: array<Byte>, b0: Bytes, b1: Bytes, b2: Bytes)
    requires |b0| == |b1| == |b2| == tx.Length
    modifies tx
    ensures IsMerge(b0, b1, b2, old(tx[..]), tx[..])
  {
    var i := 0;
    while i < tx.Length
      invariant 0 <= i <= tx.Length && forall k :: i <= k < tx.Length ==> tx[k] == old(tx[k])
      invariant forall k ::
          0 <= k < i ==> tx[k] == if b0[k] == STAR || b1[k] == STAR || b2[k] == STAR then STAR else old(tx[k])
    {
      if b0[i] == STAR || b1[i] == STAR || b2[i] == STAR { tx[i] := STAR; }
      i := i + 1;
    }
  }
}
