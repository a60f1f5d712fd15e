/** The second round of the replacement (tm_dirty/acsm.c: acsm_pattern_replace), over the letters of a text with
    padding. Padding that is starred counts like a letter from then on, so a later match may run out of letters to
    count before it is starred in full: it is blocked. The round stars exactly what it should until a match is
    blocked. */
module AcsmLetters {
  import opened AcsmWords
  import opened Utf8Punc
  import opened AcsmSearch
  import opened AcsmStars

  /** The letter at k lies in an occurrence that ends among the first i bytes. */
  ghost predicate Covered(pats: seq<Bytes>, t: Bytes, i: nat, k: nat)
    requires i <= |t| && k <= |t|
  {
    CoveredUpTo(pats, Dense(Letters, t), Rank(Letters, t, i), Rank(Letters, t, k))
  }

  ghost predicate EndsHere(pats: seq<Bytes>, t: Bytes, k: nat)
    requires k <= |t|
  {
    EndsAt(pats, Dense(Letters, t), Rank(Letters, t, k) + 1)
  }

  /** The letter that the padding at p is starred with, or -1: a letter one or two bytes before it. Two bytes
      before, with another byte in between, it is passed over when the letter is the last one of a match. */
  ghost function Owner(pats: seq<Bytes>, t: Bytes, p: nat): (k: int)
    requires p < |t|
    ensures -1 <= k < p && (k >= 0 ==> p - 2 <= k && IsAlpha(t[k]) && t[p] == DASH)
  {
    if t[p] != DASH then -1
    else if p >= 1 && IsAlpha(t[p - 1]) then p - 1
    else if p >= 2 && IsAlpha(t[p - 2]) && (t[p - 1] == DASH || !EndsHere(pats, t, p - 2)) then p - 2
    else -1
  }

  /** Byte k is a letter in an occurrence that ends among the first i bytes, or the padding of one. */
  ghost predicate ToStar(pats: seq<Bytes>, t: Bytes, i: nat, k: nat)
    requires i <= |t| && k < |t|
  {
    if IsAlpha(t[k]) then Covered(pats, t, i, k) else Owner(pats, t, k) >= 0 && Covered(pats, t, i, Owner(pats, t, k))
  }

  ghost predicate Marked(pats: seq<Bytes>, t: Bytes, b: Bytes, i: nat)
    requires i <= |t|
  {
    |b| == |t| && forall k :: 0 <= k < |t| ==> b[k] == if ToStar(pats, t, i, k) then STAR else t[k]
  }

  /** How many padding bytes from lo on, below hi, are starred when i bytes have been read. */
  ghost function Pads(pats: seq<Bytes>, t: Bytes, i: nat, lo: nat, hi: nat): nat
    requires i <= |t| && hi <= |t|
    decreases hi
  {
    if hi <= lo then 0
    else Pads(pats, t, i, lo, hi - 1) + if !IsAlpha(t[hi - 1]) && ToStar(pats, t, i, hi - 1) then 1 else 0
  }

  /** The match of n letters that ends at i does not get as far back as its letter k, which no earlier match has
      starred: there are more starred padding bytes on the way than letters of the match before k. */
  ghost predicate Misses(pats: seq<Bytes>, t: Bytes, i: nat, n: nat, k: nat)
    requires i < |t|
  {
    && k <= i && IsAlpha(t[k]) && !Covered(pats, t, i, k)
    && Rank(Letters, t, i + 1) <= Rank(Letters, t, k) + n < Rank(Letters, t, i + 1) + Pads(pats, t, i, k, i + 1)
  }

  /** The longest match that ends at the letter i misses one of its letters. */
  ghost predicate Blocked(pats: seq<Bytes>, t: Bytes, i: nat)
    requires i < |t|
  {
    && IsAlpha(t[i])
    && exists ix, k: nat ::
         0 <= ix < |pats| && Best(pats, Dense(Letters, t[..i + 1]), ix) && Misses(pats, t, i, |pats[ix]|, k)
  }

  /** No match among the first i bytes is blocked. */
  ghost predicate Unblocked(pats: seq<Bytes>, t: Bytes, i: nat)
    requires i <= |t|
  {
    forall j: nat :: j < i ==> !Blocked(pats, t, j)
  }

  // ----- one more letter

  lemma CoveredNow(pats: seq<Bytes>, t: Bytes, i: nat, ix: int, k: nat)
    requires i < |t| && k <= |t| && IsAlpha(t[i]) && Best(pats, Dense(Letters, t[..i + 1]), ix)
    ensures Covered(pats, t, i + 1, k) <==>
      || Covered(pats, t, i, k)
      || (ix >= 0 && Rank(Letters, t, i + 1) - |pats[ix]| <= Rank(Letters, t, k) < Rank(Letters, t, i + 1))
  {
    hide CoveredUpTo, Dense, Best;
    var q, n := Dense(Letters, t), Rank(Letters, t, i);
    RankStep(Letters, t, i);
    DensePrefix(Letters, t, i + 1);
    CoveredStep(pats, q, n, ix, Rank(Letters, t, k));
  }

  lemma NotCovered(pats: seq<Bytes>, t: Bytes, i: nat, k: nat)
    requires i <= k <= |t|
    ensures !Covered(pats, t, i, k)
  {
    hide Dense;
    RankOrder(Letters, t, i, k);
  }

  /** A match that has ended at a letter covers it. */
  lemma EndIsCovered(pats: seq<Bytes>, t: Bytes, k: nat, i: nat)
    requires k < i <= |t| && IsAlpha(t[k]) && EndsHere(pats, t, k) && forall j :: 0 <= j < |pats| ==> pats[j] != []
    ensures Covered(pats, t, i, k)
  {
    hide Dense;
    var q, n := Dense(Letters, t), Rank(Letters, t, k) + 1;
    RankOrder(Letters, t, k, i);
    DensePrefix(Letters, t, i);
    var j :| 0 <= j < |pats| && n <= |q| && IsSuffix(pats[j], q[..n]);
    assert q[..n][n - |pats[j]|..] == q[n - |pats[j]|..n];
    assert OccursAt(pats[j], q, n - |pats[j]|);
  }

  lemma {:induction false} TallyIs(pats: seq<Bytes>, t: Bytes, b: Bytes, i: nat, lo: nat, hi: nat)
    requires i <= |t| && Without(t, STAR) && Marked(pats, t, b, i) && lo <= hi <= |t|
    ensures Tally(Letters, b, lo, hi) == Rank(Letters, t, hi) - Rank(Letters, t, lo) + Pads(pats, t, i, lo, hi)
    decreases hi
  {
    hide Rank, ToStar, Dense;
    if lo < hi {
      TallyIs(pats, t, b, i, lo, hi - 1);
      RankStep(Letters, t, hi - 1);
    }
  }

  /** The padding skipped behind the letter i is not starred yet. */
  lemma NoPadsAhead(pats: seq<Bytes>, t: Bytes, i: nat, p: nat)
    requires i < |t| && i < p <= SkipTo(Letters, t, i) && IsAlpha(t[i])
    ensures Owner(pats, t, p) == i && !ToStar(pats, t, i, p)
  {
    hide Covered;
    NotCovered(pats, t, i, i);
  }

  lemma PadsEnd(pats: seq<Bytes>, t: Bytes, i: nat, k: nat)
    requires k <= i < |t| && IsAlpha(t[i])
    ensures Pads(pats, t, i, k, SkipTo(Letters, t, i) + 1) == Pads(pats, t, i, k, i + 1)
  {
    hide ToStar;
    var e := SkipTo(Letters, t, i);
    forall p: nat | i < p <= e ensures !ToStar(pats, t, i, p) { NoPadsAhead(pats, t, i, p); }
  }

  /** The letter k is passed by the loop if and only if the match neither ends before it nor misses it. */
  lemma LetterPassed(pats: seq<Bytes>, t: Bytes, b: Bytes, i: nat, n: nat, k: nat)
    requires k <= i < |t| && Without(t, STAR) && Marked(pats, t, b, i) && IsAlpha(t[i]) && IsAlpha(t[k])
    requires !Covered(pats, t, i, k)
    ensures Tally(Letters, b, k + 1, SkipTo(Letters, t, i) + 1) < n <==>
      Rank(Letters, t, i + 1) <= Rank(Letters, t, k) + n && !Misses(pats, t, i, n, k)
  {
    hide Rank, Covered, Tally, Pads, ToStar, SkipTo;
    var e := SkipTo(Letters, t, i);
    TallyFront(Letters, b, k, e + 1);
    MarkedAt(pats, t, b, i, k);
    TallyIs(pats, t, b, i, k, e + 1);
    PadsEnd(pats, t, i, k);
    RankOverDashes(Letters, t, i + 1, e + 1);
  }

  lemma MarkedAt(pats: seq<Bytes>, t: Bytes, b: Bytes, i: nat, k: nat)
    requires i <= |t| && k < |t| && Marked(pats, t, b, i)
    ensures b[k] == if ToStar(pats, t, i, k) then STAR else t[k]
    ensures IsAlpha(t[k]) ==> (b[k] == if Covered(pats, t, i, k) then STAR else t[k])
  {
    hide Covered;
  }

  /** What the match makes of a letter. */
  lemma LetterAfter(pats: seq<Bytes>, t: Bytes, b: Bytes, i: nat, ix: int, k: nat)
    requires i < |t| && k < |t| && Without(t, STAR) && Marked(pats, t, b, i) && IsAlpha(t[i]) && IsAlpha(t[k])
    requires 0 <= ix < |pats| && Best(pats, Dense(Letters, t[..i + 1]), ix) && !Misses(pats, t, i, |pats[ix]|, k)
    ensures After(Letters, b, SkipTo(Letters, t, i), |pats[ix]|, k) == if Covered(pats, t, i + 1, k) then STAR else t[k]
  {
    hide Rank, Covered, Tally, Dense, Best, Misses, Marked;
    MarkedSize(pats, t, b, i);
    MarkedAt(pats, t, b, i, k);
    CoveredNow(pats, t, i, ix, k);
    if k > i {
      NotCovered(pats, t, i, k);
      NotCovered(pats, t, i + 1, k);
    } else if !Covered(pats, t, i, k) {
      LetterPassed(pats, t, b, i, |pats[ix]|, k);
      RankOrder(Letters, t, k, i + 1);
    }
  }

  lemma MarkedSize(pats: seq<Bytes>, t: Bytes, b: Bytes, i: nat)
    requires i <= |t| && Marked(pats, t, b, i)
    ensures |b| == |t|
  {
  }

  /** Nothing is counted between a letter and its padding. */
  lemma PadWithOwner(pats: seq<Bytes>, t: Bytes, b: Bytes, i: nat, e: nat, p: nat, o: nat)
    requires i <= |t| && p < |t| && Without(t, STAR) && Marked(pats, t, b, i) && Owner(pats, t, p) == o
    requires !Covered(pats, t, i, o) && p <= e < |t|
    ensures Tally(Letters, b, p + 1, e + 1) == Tally(Letters, b, o + 1, e + 1)
  {
    hide Covered, EndsHere, Tally;
    MarkedAt(pats, t, b, i, p);
    TallyFront(Letters, b, p, e + 1);
    if o + 1 < p {
      MarkedAt(pats, t, b, i, o + 1);
      TallyFront(Letters, b, o + 1, e + 1);
      assert Owner(pats, t, o + 1) == o || t[o + 1] != DASH;
    }
  }

  /** The padding of a letter that a match covers comes before the end of the match, or right behind it. */
  lemma PadBefore(pats: seq<Bytes>, t: Bytes, i: nat, p: nat, o: nat)
    requires i < |t| && p < |t| && IsAlpha(t[i]) && Owner(pats, t, p) == o && o <= i
    requires o == i ==> EndsHere(pats, t, i)
    ensures p <= SkipTo(Letters, t, i)
  {
    hide EndsHere;
  }

  /** What the match makes of padding that has a letter. */
  lemma PadAfter(pats: seq<Bytes>, t: Bytes, b: Bytes, i: nat, ix: int, p: nat, o: nat)
    requires i < |t| && p < |t| && Without(t, STAR) && Marked(pats, t, b, i) && IsAlpha(t[i]) && Owner(pats, t, p) == o
    requires 0 <= ix < |pats| && Best(pats, Dense(Letters, t[..i + 1]), ix) && !Misses(pats, t, i, |pats[ix]|, o)
    ensures After(Letters, b, SkipTo(Letters, t, i), |pats[ix]|, p) == if Covered(pats, t, i + 1, o) then STAR else t[p]
  {
    hide Rank, Covered, Tally, Dense, Best, Misses, Marked, SkipTo, EndsHere;
    var e := SkipTo(Letters, t, i);
    MarkedSize(pats, t, b, i);
    MarkedAt(pats, t, b, i, p);
    MarkedAt(pats, t, b, i, o);
    CoveredNow(pats, t, i, ix, o);
    if o > i {
      NotCovered(pats, t, i, o);
      NotCovered(pats, t, i + 1, o);
    } else if !Covered(pats, t, i, o) {
      LetterPassed(pats, t, b, i, |pats[ix]|, o);
      RankOrder(Letters, t, o, i + 1);
      if o == i { EndsNow(pats, t, i, ix); }
      PadBefore(pats, t, i, p, o);
      PadWithOwner(pats, t, b, i, e, p, o);
    }
  }

  lemma EndsNow(pats: seq<Bytes>, t: Bytes, i: nat, ix: int)
    requires i < |t| && IsAlpha(t[i]) && 0 <= ix < |pats| && Best(pats, Dense(Letters, t[..i + 1]), ix)
    ensures EndsHere(pats, t, i)
  {
    hide Dense, Best, EndsAt;
    DensePrefix(Letters, t, i + 1);
    RankStep(Letters, t, i);
    BestMeansEnds(pats, Dense(Letters, t), Rank(Letters, t, i + 1), ix);
  }

  /** Bytes that are neither letters nor the padding of one are not starred. */
  lemma OtherAfter(pats: seq<Bytes>, t: Bytes, b: Bytes, i: nat, n: nat, p: nat)
    requires i < |t| && p < |t| && Without(t, STAR) && Marked(pats, t, b, i) && IsAlpha(t[i]) && !IsAlpha(t[p])
    requires Owner(pats, t, p) == -1
    requires forall j :: 0 <= j < |pats| ==> pats[j] != []
    ensures After(Letters, b, SkipTo(Letters, t, i), n, p) == t[p]
  {
    hide Rank, Covered, Tally, Dense, EndsHere;
    MarkedAt(pats, t, b, i, p);
    if t[p] == DASH && p <= SkipTo(Letters, t, i) {
      if p >= 1 { MarkedAt(pats, t, b, i, p - 1); }
      if p >= 2 {
        MarkedAt(pats, t, b, i, p - 2);
        if IsAlpha(t[p - 2]) { EndIsCovered(pats, t, p - 2, i); }
      }
    }
  }

  lemma ByteAfter(pats: seq<Bytes>, t: Bytes, b: Bytes, i: nat, ix: int, k: nat)
    requires i < |t| && k < |t| && Without(t, STAR) && Marked(pats, t, b, i) && IsAlpha(t[i]) && !Blocked(pats, t, i)
    requires 0 <= ix < |pats| && Best(pats, Dense(Letters, t[..i + 1]), ix)
    requires forall j :: 0 <= j < |pats| ==> pats[j] != []
    ensures After(Letters, b, SkipTo(Letters, t, i), |pats[ix]|, k) == if ToStar(pats, t, i + 1, k) then STAR else t[k]
  {
    hide Covered, After, Dense, Best, Misses, Marked, SkipTo;
    MarkedSize(pats, t, b, i);
    var o := Owner(pats, t, k);
    if IsAlpha(t[k]) {
      LetterAfter(pats, t, b, i, ix, k);
    } else if o >= 0 {
      PadAfter(pats, t, b, i, ix, k, o);
    } else {
      OtherAfter(pats, t, b, i, |pats[ix]|, k);
    }
  }

  /** A letter at which no match ends changes nothing. */
  lemma NoMatchHere(pats: seq<Bytes>, t: Bytes, b: Bytes, i: nat)
    requires i < |t| && Marked(pats, t, b, i) && IsAlpha(t[i]) && Best(pats, Dense(Letters, t[..i + 1]), -1)
    ensures Marked(pats, t, b, i + 1)
  {
    hide Covered, Dense, Best, Owner;
    forall k | 0 <= k < |t| ensures ToStar(pats, t, i + 1, k) == ToStar(pats, t, i, k) {
      CoveredNow(pats, t, i, -1, if IsAlpha(t[k]) || Owner(pats, t, k) < 0 then k else Owner(pats, t, k));
    }
  }

  lemma SameRank(pats: seq<Bytes>, t: Bytes, b: Bytes, i: nat, e: nat)
    requires i <= e <= |t| && Marked(pats, t, b, i) && Rank(Letters, t, i) == Rank(Letters, t, e)
    ensures Marked(pats, t, b, e)
  {
    hide Owner, Dense, CoveredUpTo;
    forall k | 0 <= k < |t| ensures ToStar(pats, t, e, k) == ToStar(pats, t, i, k) { }
  }

  /** The letter i is read; when it ends a match, its padding is skipped and the match is starred. */
  lemma LetterRead(pats: seq<Bytes>, t: Bytes, b: Bytes, i: nat, e: nat, ix: int, b': Bytes)
    requires i < |t| && Without(t, STAR) && Marked(pats, t, b, i) && IsAlpha(t[i]) && !Blocked(pats, t, i)
    requires |b'| == |b|
    requires -1 <= ix < |pats| && Best(pats, Dense(Letters, t[..i + 1]), ix)
    requires forall j :: 0 <= j < |pats| ==> pats[j] != []
    requires e == if ix == -1 then i else SkipTo(Letters, t, i)
    requires forall k :: 0 <= k < |b| ==> b'[k] == if ix == -1 then b[k] else After(Letters, b, e, |pats[ix]|, k)
    ensures Marked(pats, t, b', e + 1)
  {
    hide After, Dense, Best, SkipTo, ToStar, Blocked, Rank;
    if ix == -1 {
      assert b' == b;
      NoMatchHere(pats, t, b, i);
    } else {
      forall k | 0 <= k < |t|
        ensures b'[k] == if ToStar(pats, t, i + 1, k) then STAR else t[k]
      {
        ByteAfter(pats, t, b, i, ix, k);
      }
      RankOverDashes(Letters, t, i + 1, e + 1);
      SameRank(pats, t, b', i + 1, e + 1);
    }
  }

  /** At a blocked match, a letter of an occurrence is left as it was. */
  lemma BlockedLeaves(pats: seq<Bytes>, t: Bytes, b: Bytes, i: nat, ix: int) returns (k: nat)
    requires i < |t| && Without(t, STAR) && Marked(pats, t, b, i) && Blocked(pats, t, i)
    requires 0 <= ix < |pats| && Best(pats, Dense(Letters, t[..i + 1]), ix)
    ensures k <= i && IsAlpha(t[k]) && Covered(pats, t, i + 1, k)
    ensures After(Letters, b, SkipTo(Letters, t, i), |pats[ix]|, k) == t[k]
  {
    hide Rank, Covered, Tally, Dense;
    MarkedSize(pats, t, b, i);
    var jx: int, j: nat :| 0 <= jx < |pats| && Best(pats, Dense(Letters, t[..i + 1]), jx) && Misses(pats, t, i,
      |pats[jx]|, j);
    assert |pats[jx]| == |pats[ix]|;
    k := j;
    MarkedAt(pats, t, b, i, k);
    LetterPassed(pats, t, b, i, |pats[ix]|, k);
    CoveredNow(pats, t, i, ix, k);
    RankOrder(Letters, t, k, i + 1);
  }
}
