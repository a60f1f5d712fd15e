/** What the replacement stars, and the backward loops that star it (tm_dirty/acsm.c: acsm_pattern_replace). */
module AcsmStars {
  import opened AcsmWords
  import opened Utf8Punc
  import opened AcsmSearch

  ghost predicate Without(t: Bytes, b: Byte) { forall k :: 0 <= k < |t| ==> t[k] != b }

  // ----- which bytes are to be starred

  /** Place x of q lies in an occurrence of a pattern that ends at or before n. */
  ghost predicate CoveredUpTo(pats: seq<Bytes>, q: Bytes, n: int, x: int) {
    exists i, a :: 0 <= i < |pats| && OccursAt(pats[i], q, a) && a + |pats[i]| <= n && a <= x < a + |pats[i]|
  }

  /** At one more place, the longest pattern that ends there covers what all patterns that end there cover. */
  lemma CoveredStep(pats: seq<Bytes>, q: Bytes, n: nat, ix: int, x: int)
    requires n < |q| && Best(pats, q[..n + 1], ix)
    ensures
      CoveredUpTo(pats, q, n + 1, x) <==> CoveredUpTo(pats, q, n, x) || (ix >= 0 && n + 1 - |pats[ix]| <= x < n + 1)
  {
    if i, a :| 0 <= i < |pats| && OccursAt(pats[i], q, a) && a + |pats[i]| <= n + 1 && a <= x < a + |pats[i]| {
      if a + |pats[i]| == n + 1 {
        assert q[..n + 1][a..] == q[a..a + |pats[i]|];
        assert IsSuffix(pats[i], q[..n + 1]);
      } else {
        assert a + |pats[i]| <= n;
      }
    }
    if i, a :| 0 <= i < |pats| && OccursAt(pats[i], q, a) && a + |pats[i]| <= n && a <= x < a + |pats[i]| {
      assert a + |pats[i]| <= n + 1;
    }
    if ix >= 0 && n + 1 - |pats[ix]| <= x < n + 1 {
      var a := n + 1 - |pats[ix]|;
      assert q[a..a + |pats[ix]|] == q[..n + 1][a..];
      assert OccursAt(pats[ix], q, a) && a + |pats[ix]| <= n + 1;
    }
  }

  lemma CoveredMore(pats: seq<Bytes>, q: Bytes, n: int, m: int, x: int)
    requires CoveredUpTo(pats, q, n, x) && n <= m
    ensures CoveredUpTo(pats, q, m, x)
  {
    var i, a :| 0 <= i < |pats| && OccursAt(pats[i], q, a) && a + |pats[i]| <= n && a <= x < a + |pats[i]|;
    assert a + |pats[i]| <= m;
  }

  /** Byte k of t belongs to an occurrence of a pattern in the projection of t. */
  ghost predicate Starred(pats: seq<Bytes>, r: Round, t: Bytes, k: nat)
    requires k < |t|
  {
    Keep(r, t[k]) && CoveredUpTo(pats, Project(r, t), |Project(r, t)|, |Project(r, t[..k])|)
  }

  // ----- the text without its padding

  predicate IsDense(r: Round, b: Byte) { Keep(r, b) && b != DASH }

  /** The bytes of t that round r reads, without padding. */
  ghost function Dense(r: Round, t: Bytes): (q: Bytes)
    ensures |q| <= |t|
  {
    if t == [] then [] else Dense(r, t[..|t| - 1]) + if IsDense(r, t[|t| - 1]) then [t[|t| - 1]] else []
  }

  /** The place that byte k of t has there, or the byte read next after k. */
  ghost function Rank(r: Round, t: Bytes, k: nat): nat
    requires k <= |t|
  {
    |Dense(r, t[..k])|
  }

  lemma DenseStep(r: Round, t: Bytes, i: nat)
    requires i < |t|
    ensures Dense(r, t[..i + 1]) == if IsDense(r, t[i]) then Dense(r, t[..i]) + [t[i]] else Dense(r, t[..i])
  {
    assert t[..i + 1][..i] == t[..i];
  }

  lemma DenseSnoc(r: Round, c: Bytes, b: Byte)
    ensures Dense(r, c + [b]) == if IsDense(r, b) then Dense(r, c) + [b] else Dense(r, c)
  {
    assert (c + [b])[..|c|] == c;
  }

  lemma RankStep(r: Round, t: Bytes, i: nat)
    requires i < |t|
    ensures Rank(r, t, i + 1) == Rank(r, t, i) + if IsDense(r, t[i]) then 1 else 0
  {
    hide Dense;
    DenseStep(r, t, i);
  }

  lemma {:induction false} DensePrefix(r: Round, t: Bytes, i: nat)
    requires i <= |t|
    ensures Rank(r, t, i) <= |Dense(r, t)| && Dense(r, t)[..Rank(r, t, i)] == Dense(r, t[..i])
    decreases |t| - i
  {
    hide Dense;
    if i < |t| {
      DensePrefix(r, t, i + 1);
      DenseStep(r, t, i);
    } else {
      assert t[..i] == t;
    }
  }

  lemma {:induction false} RankOrder(r: Round, t: Bytes, k: nat, i: nat)
    requires k <= i <= |t|
    ensures Rank(r, t, k) <= Rank(r, t, i) && (k < i && IsDense(r, t[k]) ==> Rank(r, t, k) < Rank(r, t, i))
    decreases i
  {
    hide Rank;
    if k < i {
      RankOrder(r, t, k, i - 1);
      RankStep(r, t, i - 1);
      if k < i - 1 { RankStep(r, t, k); }
    }
  }

  lemma {:induction false} RankOverDashes(r: Round, t: Bytes, i: nat, e: nat)
    requires i <= e <= |t| && forall k :: i <= k < e ==> t[k] == DASH
    ensures Dense(r, t[..e]) == Dense(r, t[..i]) && Rank(r, t, e) == Rank(r, t, i)
    decreases e
  {
    hide Dense;
    if i < e {
      RankOverDashes(r, t, i, e - 1);
      DenseStep(r, t, e - 1);
    }
  }

  /** But for the padding in the first round this is the projection. */
  lemma {:induction false} DenseIsProject(r: Round, t: Bytes)
    requires (r == Whole && Without(t, DASH)) || r == Letters || r == Others
    ensures Dense(r, t) == Project(r, t)
  {
    if t != [] { DenseIsProject(r, t[..|t| - 1]); }
  }

  ghost predicate AllRead(r: Round, c: Bytes) { forall k :: 0 <= k < |c| ==> Keep(r, c[k]) }

  /** What the second and third round have read has no padding in it. */
  lemma {:induction false} ReadIsDense(r: Round, c: Bytes)
    requires AllRead(r, c) && (r == Letters || r == Others)
    ensures Dense(r, c) == c
  {
    if c != [] { ReadIsDense(r, c[..|c| - 1]); }
  }

  /** A pattern that ends what was read has no padding in it, and ends it without its padding too. */
  lemma {:induction false} PatternIsDense(r: Round, c: Bytes, p: Bytes)
    requires AllRead(r, c) && IsSuffix(p, c) && Without(p, DASH)
    ensures IsSuffix(p, Dense(r, c))
    decreases |p|
  {
    hide Dense;
    if p != [] {
      var m, n := |p| - 1, |c| - 1;
      assert p[m] == c[n - m..][m] == c[n];
      assert c[..n][n - m..] == p[..m];
      PatternIsDense(r, c[..n], p[..m]);
      DenseSnoc(r, c[..n], c[n]);
      assert c == c[..n] + [c[n]] && p == p[..m] + [c[n]];
      SuffixSnoc(p[..m], Dense(r, c[..n]), c[n]);
    }
  }

  lemma SuffixSnoc(w: Bytes, c: Bytes, b: Byte)
    requires IsSuffix(w, c)
    ensures IsSuffix(w + [b], c + [b])
  {
    assert (c + [b])[|c| - |w|..] == c[|c| - |w|..] + [b];
  }

  // ----- counting backwards

  /** What the backward loops count: bytes of the round, starred or not, and whatever else is starred. */
  predicate Counts(r: Round, b: Byte) {
    match r
    case Whole => b != DASH
    case Letters => IsAlpha(b) || b == STAR
    case _ => Keep(r, b)
  }

  ghost function Tally(r: Round, b: Bytes, lo: int, hi: int): (n: nat)
    requires 0 <= lo && hi <= |b|
    decreases hi - lo
  {
    if hi <= lo then 0 else Tally(r, b, lo, hi - 1) + if Counts(r, b[hi - 1]) then 1 else 0
  }

  lemma {:induction false} TallyFront(r: Round, b: Bytes, lo: int, hi: int)
    requires 0 <= lo < hi <= |b|
    ensures Tally(r, b, lo, hi) == Tally(r, b, lo + 1, hi) + if Counts(r, b[lo]) then 1 else 0
    decreases hi - lo
  {
    if lo + 1 < hi { TallyFront(r, b, lo, hi - 1); }
  }

  lemma {:induction false} TallyShrinks(r: Round, b: Bytes, lo: int, mid: int, hi: int)
    requires 0 <= lo <= mid <= hi <= |b|
    ensures Tally(r, b, lo, hi) >= Tally(r, b, mid, hi)
    decreases mid - lo
  {
    if lo < mid {
      TallyFront(r, b, lo, hi);
      TallyShrinks(r, b, lo + 1, mid, hi);
    }
  }

  lemma {:induction false} TallyShort(r: Round, b: Bytes, lo: int, mid: int, hi: int)
    requires 0 <= lo <= mid <= hi <= |b| && forall k :: mid <= k < hi ==> b[k] == DASH
    ensures Tally(r, b, lo, hi) <= mid - lo || r == NonLetters
    decreases hi - lo
  {
    if lo < hi { TallyShort(r, b, lo, if mid < hi then mid else mid - 1, hi - 1); }
  }

  /** What every round keeps true of its buffer: bytes not read yet are as they were, the others as they were or
      starred. */
  ghost predicate OnlyStars(t: Bytes, b: Bytes, i: int) {
    |b| == |t| && forall k :: 0 <= k < |t| ==> b[k] == t[k] || (k < i && b[k] == STAR)
  }

  /** Every byte of the round that is not padding can be counted backwards, starred or not. */
  lemma {:induction false} EnoughToCount(r: Round, t: Bytes, b: Bytes, lo: nat, hi: nat)
    requires lo <= hi <= |t| && OnlyStars(t, b, |t|)
    ensures Tally(r, b, lo, hi) >= Rank(r, t, hi) - Rank(r, t, lo)
    decreases hi - lo
  {
    hide Rank;
    if lo < hi {
      EnoughToCount(r, t, b, lo, hi - 1);
      RankStep(r, t, hi - 1);
    }
  }

  /** Which bytes a backward loop stars as it passes them. */
  predicate Stars(r: Round, b: Bytes, k: int)
    requires 0 <= k < |b|
  {
    match r
    case Whole => true
    case Letters => IsAlpha(b[k]) || (b[k] == DASH && ((k >= 1 && IsAlpha(b[k - 1])) || (k >= 2 && IsAlpha(b[k - 2]))))
    case _ => Keep(r, b[k])
  }

  /** What the backward loop from place e, which counts n bytes, makes of byte k. */
  ghost function After(r: Round, b: Bytes, e: int, n: nat, k: int): Byte
    requires 0 <= k < |b| && 0 <= e < |b|
  {
    if k <= e && Tally(r, b, k + 1, e + 1) < n && Stars(r, b, k) then STAR else b[k]
  }

  lemma AfterStop(r: Round, b: Bytes, e: int, n: nat, x: int, k: int)
    requires 0 <= e < |b| && -1 <= x <= e && 0 <= k <= x && Tally(r, b, x + 1, e + 1) == n
    ensures After(r, b, e, n, k) == b[k]
  {
    TallyShrinks(r, b, k + 1, x + 1, e + 1);
  }

  /** The backward loop of a round. With enough bytes to count it stays inside the buffer. */
  method StarBack(buf: array<Byte>, e: int, n: nat, r: Round)
    requires 0 <= e < buf.Length && Tally(r, buf[..], 0, e + 1) >= n && r != NonLetters
    modifies buf
    ensures forall k :: 0 <= k < buf.Length ==> buf[k] == After(r, old(buf[..]), e, n, k)
  {
    hide Tally, After;
    ghost var b := buf[..];
    var tmp, j := e, 0;
    TallyNone(r, b, e);
    while j < n
      invariant -1 <= tmp <= e && j == Tally(r, b, tmp + 1, e + 1) <= n
      invariant forall k :: 0 <= k <= tmp ==> buf[k] == b[k]
      invariant forall k :: tmp < k < buf.Length ==> buf[k] == After(r, b, e, n, k)
      decreases tmp
    {
      assert tmp >= 0;
      TallyFront(r, b, tmp, e + 1);
      AfterAt(r, b, e, n, tmp);
      match r {
        case Whole =>
          if buf[tmp] != DASH || buf[tmp] == STAR { j := j + 1; }
          buf[tmp] := STAR;
        case Letters =>
          if IsAlpha(buf[tmp]) || buf[tmp] == STAR { j := j + 1; }
          if IsAlpha(buf[tmp]) {
            buf[tmp] := STAR;
          } else if buf[tmp] == DASH {
            if (tmp - 1 >= 0 && IsAlpha(buf[tmp - 1])) || (tmp - 2 >= 0 && IsAlpha(buf[tmp - 2])) { buf[tmp] := STAR; }
          }
        case Others =>
          if (!IsAlphaOrNumber(buf[tmp]) && buf[tmp] != PLUS && buf[tmp] != DASH) || buf[tmp] == STAR {
            buf[tmp] := STAR;
            j := j + 1;
          }
      }
      tmp := tmp - 1;
    }
    forall k | 0 <= k <= tmp ensures buf[k] == After(r, b, e, n, k) { AfterStop(r, b, e, n, tmp, k); }
  }

  lemma TallyNone(r: Round, b: Bytes, e: int)
    requires 0 <= e < |b|
    ensures Tally(r, b, e + 1, e + 1) == 0
    ensures forall n: nat, k :: e < k < |b| ==> After(r, b, e, n, k) == b[k]
  {
  }

  lemma AfterAt(r: Round, b: Bytes, e: int, n: nat, k: int)
    requires 0 <= k <= e < |b| && Tally(r, b, k + 1, e + 1) < n
    ensures After(r, b, e, n, k) == if Stars(r, b, k) then STAR else b[k]
  {
  }

  /** Up to two padding bytes behind the byte at i belong to it, except in the last round. */
  function SkipTo(r: Round, b: Bytes, i: nat): (e: nat)
    requires i < |b|
    ensures i <= e < |b| && e <= i + 2 && forall k :: i < k <= e ==> b[k] == DASH
  {
    if r == Others || i + 1 >= |b| || b[i + 1] != DASH then i
    else if i + 2 >= |b| || b[i + 2] != DASH then i + 1
    else i + 2
  }

  method SkipPadding(buf: array<Byte>, i: nat, r: Round) returns (e: nat)
    requires i < buf.Length
    ensures e == SkipTo(r, buf[..], i)
  {
    e := i;
    if r != Others && e + 1 < buf.Length && buf[e + 1] == DASH {
      e := e + 1;
      if e + 1 < buf.Length && buf[e + 1] == DASH { e := e + 1; }
    }
  }
}
