/** Where searching and starring out (tm_dirty/acsm.c: acsmSearch, acsm_pattern_replace) agree on whether a text is
    dirty. The search looks at the filtered text, its letters and its non-letters; the replacement at the padded
    text, its letters, and its bytes that are neither letters, digits nor padding. */
module AcsmVerdicts {
  import opened AcsmWords
  import opened AcsmTrie
  import opened AcsmBfs
  import opened AcsmMachine
  import opened Utf8Punc
  import opened AcsmSearch
  import opened AcsmStars
  import opened AcsmReplace

  // ----- projections and padding

  lemma {:induction false} ProjectConcat(r: Round, a: Bytes, b: Bytes)
    ensures Project(r, a + b) == Project(r, a) + Project(r, b)
    decreases |b|
  {
    if b == [] {
      assert a + b == a;
    } else {
      var n := |b| - 1;
      ProjectConcat(r, a, b[..n]);
      assert (a + b)[..|a + b| - 1] == a + b[..n] && (a + b)[|a + b| - 1] == b[n];
    }
  }

  lemma ProjectOne(r: Round, b: Byte)
    ensures Project(r, [b]) == if Keep(r, b) then [b] else []
  {
    assert [b][..0] == [];
  }

  /** Padding is neither a letter nor kept by the third round. */
  lemma {:induction false} ProjectUnpad(r: Round, d: Bytes)
    requires r == Letters || r == Others
    ensures Project(r, Unpad(d)) == Project(r, d)
  {
    hide Unpad, Project;
    UnpadStep(d);
    if d != [] {
      ProjectUnpad(r, d[1..]);
      ProjectOne(r, d[0]);
      ProjectConcat(r, [d[0]], d[1..]);
      assert d == [d[0]] + d[1..];
      if !IsPad(d[0]) { ProjectConcat(r, [d[0]], Unpad(d[1..])); } else { assert [] + Unpad(d[1..]) == Unpad(d[1..]); }
    } else {
      assert Unpad(d) == d;
    }
  }

  ghost predicate NoPadding(d: Bytes) { forall i :: 0 <= i < |d| ==> !IsPad(d[i]) }

  ghost predicate NoDigits(f: Bytes) { forall i :: 0 <= i < |f| ==> !IsNumber(f[i]) }

  lemma {:induction false} UnpadSame(d: Bytes)
    requires NoPadding(d)
    ensures Unpad(d) == d
  {
    if d != [] { UnpadSame(d[1..]); }
  }

  /** Without digits the third round of the replacement reads what the third round of the search reads. */
  lemma {:induction false} OthersAreNonLetters(f: Bytes)
    requires AllKept(f, true) && NoDigits(f)
    ensures Project(Others, f) == Project(NonLetters, f)
  {
    if f != [] { OthersAreNonLetters(f[..|f| - 1]); }
  }

  // ----- substrings

  ghost predicate Inside(x: Bytes, y: Bytes) { exists a :: OccursAt(x, y, a) }

  lemma InsideAll(x: Bytes)
    ensures Inside(x, x)
  {
    assert OccursAt(x, x, 0);
  }

  lemma OccursInside(pats: seq<Bytes>, x: Bytes, y: Bytes)
    requires Occurs(pats, x) && Inside(x, y)
    ensures Occurs(pats, y)
  {
    var i, a :| 0 <= i < |pats| && OccursAt(pats[i], x, a);
    var b :| OccursAt(x, y, b);
    SliceOfSlice(y, b, |x|, a, |pats[i]|);
    assert OccursAt(pats[i], y, b + a);
  }

  lemma SliceOfSlice(y: Bytes, b: nat, m: nat, a: nat, n: nat)
    requires b + m <= |y| && a + n <= m
    ensures y[b + a..b + a + n] == y[b..b + m][a..a + n]
  {
    var u, v := y[b + a..b + a + n], y[b..b + m];
    assert forall i :: 0 <= i < n ==> u[i] == v[a + i];
  }

  lemma NotInside(w: Bytes, t: Bytes)
    requires |w| == 2 && |t| == 3 && (t[0] != w[0] || t[1] != w[1]) && (t[1] != w[0] || t[2] != w[1])
    ensures !Inside(w, t)
  {
    forall a ensures !OccursAt(w, t, a) {
      if 0 <= a <= 1 {
        var u := t[a..a + 2];
        assert u[0] == t[a] && u[1] == t[a + 1];
      }
    }
  }

  lemma OnlyPattern(x: Bytes, y: Bytes)
    ensures Occurs([x], y) <==> Inside(x, y)
  {
    if a :| OccursAt(x, y, a) { assert OccursAt([x][0], y, a); }
  }

  lemma KeptHasNoPadding(p: Bytes)
    requires AllKept(p, true)
    ensures NoPadding(p)
  {
  }

  /** A pattern that occurs in the padded text occurs in the filtered one. */
  lemma OccursUnpadded(pats: seq<Bytes>, d: Bytes)
    requires Occurs(pats, d) && forall i :: 0 <= i < |pats| ==> AllKept(pats[i], true)
    ensures Occurs(pats, Unpad(d))
  {
    var i, a :| 0 <= i < |pats| && OccursAt(pats[i], d, a);
    var p, e := pats[i], a + |pats[i]|;
    KeptHasNoPadding(p);
    UnpadSame(p);
    assert d == d[..a] + (p + d[e..]);
    UnpadConcat(d[..a], p + d[e..]);
    UnpadConcat(p, d[e..]);
    Middle(Unpad(d[..a]), p, Unpad(d[e..]));
    assert OccursAt(pats[i], Unpad(d), |Unpad(d[..a])|);
  }

  lemma Middle(a: Bytes, p: Bytes, b: Bytes)
    ensures OccursAt(p, a + (p + b), |a|)
  {
  }

  // ----- the two verdicts

  /** What acsmSearch finds dirty. */
  ghost predicate Dirty(pats: seq<Bytes>, f: Bytes) {
    Occurs(pats, f) || Occurs(pats, Project(Letters, f)) || Occurs(pats, Project(NonLetters, f))
  }

  ghost predicate AreFiltered(pats: seq<Bytes>) {
    forall i :: 0 <= i < |pats| ==> pats[i] != [] && AllKept(pats[i], true)
  }

  /** What the two have in common on the text c: the letters, and occurrences in the padded text. */
  lemma InCommon(pats: seq<Bytes>, c: Bytes)
    requires AreFiltered(pats)
    ensures AllKept(Filter(c, true), true) && Project(Letters, Replace(c)) == Project(Letters, Filter(c, true))
    ensures Project(Others, Replace(c)) == Project(Others, Filter(c, true))
    ensures Occurs(pats, Replace(c)) ==> Occurs(pats, Filter(c, true))
    ensures NoPadding(Replace(c)) ==> Replace(c) == Filter(c, true)
    ensures NoDigits(Filter(c, true)) ==> Project(Others, Replace(c)) == Project(NonLetters, Filter(c, true))
  {
    hide Filter, Replace, Project, Unpad, Occurs;
    var d, f := Replace(c), Filter(c, true);
    ReplaceIsFilter(c);
    FilterKeeps(c, true);
    ProjectUnpad(Letters, d);
    ProjectUnpad(Others, d);
    if Occurs(pats, d) { OccursUnpadded(pats, d); }
    if NoPadding(d) { UnpadSame(d); }
    if NoDigits(f) { OthersAreNonLetters(f); }
  }

  /** What the verdict v of acsmSearch says about the flag of acsm_pattern_replace. */
  lemma VerdictsCompared(pats: seq<Bytes>, c: Bytes, v: int)
    requires AreFiltered(pats) && Verdict(pats, Filter(c, true), v)
    ensures Dirty(pats, Filter(c, true)) <==> v != 0
    ensures v == 1 ==> AnyOccurrence(pats, Replace(c))
    ensures v == 2 && NoDigits(Filter(c, true)) ==> AnyOccurrence(pats, Replace(c))
    ensures v == 3 && NoPadding(Replace(c)) ==> AnyOccurrence(pats, Replace(c))
    ensures v == 0 ==> (AnyOccurrence(pats, Replace(c)) <==> Occurs(pats, Project(Others, Replace(c))))
    ensures v == 0 && AnyOccurrence(pats, Replace(c)) ==> !NoDigits(Filter(c, true))
  {
    hide Filter, Replace, Project, Occurs, NoPadding, NoDigits, AllKept;
    InCommon(pats, c);
  }

  /** Everything that one of the two reads of the text c is a substring of something that the other reads. */
  ghost predicate SameReading(c: Bytes) {
    var d, f := Replace(c), Filter(c, true);
    var l, n, o := Project(Letters, f), Project(NonLetters, f), Project(Others, d);
    && (Inside(f, d) || Inside(f, l) || Inside(f, o))
    && (Inside(n, d) || Inside(n, l) || Inside(n, o))
    && (Inside(o, f) || Inside(o, l) || Inside(o, n))
  }

  /** On the text c the two find the same, whether it is dirty or not. */
  ghost predicate Agree(pats: seq<Bytes>, c: Bytes) {
    AnyOccurrence(pats, Replace(c)) <==> Dirty(pats, Filter(c, true))
  }

  lemma AgreeWhen(pats: seq<Bytes>, c: Bytes)
    requires AreFiltered(pats) && SameReading(c)
    ensures Agree(pats, c)
  {
    hide Filter, Replace, Project, Occurs, Inside;
    InCommon(pats, c);
    var d, f := Replace(c), Filter(c, true);
    var l, n, o := Project(Letters, f), Project(NonLetters, f), Project(Others, d);
    if Occurs(pats, f) { Carried(pats, f, d, l, o); }
    if Occurs(pats, n) { Carried(pats, n, d, l, o); }
    if Occurs(pats, o) { Carried(pats, o, f, l, n); }
  }

  lemma Carried(pats: seq<Bytes>, x: Bytes, a: Bytes, b: Bytes, c: Bytes)
    requires Occurs(pats, x) && (Inside(x, a) || Inside(x, b) || Inside(x, c))
    ensures Occurs(pats, a) || Occurs(pats, b) || Occurs(pats, c)
  {
    hide Occurs, Inside;
    if Inside(x, a) {
      OccursInside(pats, x, a);
    } else if Inside(x, b) {
      OccursInside(pats, x, b);
    } else {
      OccursInside(pats, x, c);
    }
  }

  /** Searching and starring out agree on a text, whatever the patterns, if and only if neither reads anything of it
      that the other does not. */
  lemma VerdictsAgree(c: Bytes)
    ensures SameReading(c) <==> forall pats :: AreFiltered(pats) ==> Agree(pats, c)
  {
    hide Filter, Replace, Project, Occurs, Inside, SameReading, Agree;
    if SameReading(c) {
      forall pats | AreFiltered(pats) ensures Agree(pats, c) { AgreeWhen(pats, c); }
    }
    if forall pats :: AreFiltered(pats) ==> Agree(pats, c) {
      MustRead(c);
    }
  }

  lemma MustRead(c: Bytes)
    requires forall pats :: AreFiltered(pats) ==> Agree(pats, c)
    ensures SameReading(c)
  {
    hide Filter, Replace, Project, Occurs, Inside;
    var d, f := Replace(c), Filter(c, true);
    var l, n, o := Project(Letters, f), Project(NonLetters, f), Project(Others, d);
    InCommon([], c);
    KeptParts(NonLetters, f);
    KeptParts(Others, f);
    Tried(f, d, f, l, n, o, c);
    Tried(n, d, f, l, n, o, c);
    Tried(o, d, f, l, n, o, c);
    InsideAll(f); InsideAll(n); InsideAll(o);
  }

  lemma {:induction false} KeptParts(r: Round, f: Bytes)
    requires AllKept(f, true)
    ensures AllKept(Project(r, f), true)
  {
    if f != [] { KeptParts(r, f[..|f| - 1]); }
  }

  /** Taken as the only pattern, x shows whether both read it. */
  lemma Tried(x: Bytes, d: Bytes, f: Bytes, l: Bytes, n: Bytes, o: Bytes, c: Bytes)
    requires AllKept(x, true) && d == Replace(c) && f == Filter(c, true)
    requires l == Project(Letters, f) == Project(Letters, d) && n == Project(NonLetters, f) && o == Project(Others, d)
    requires forall pats :: AreFiltered(pats) ==> Agree(pats, c)
    ensures Inside(x, d) || Inside(x, l) || Inside(x, o) <==> Inside(x, f) || Inside(x, l) || Inside(x, n)
  {
    hide Filter, Replace, Project, Occurs;
    if x == [] {
      assert OccursAt(x, d, 0) && OccursAt(x, f, 0);
    } else {
      assert AreFiltered([x]);
      assert Agree([x], c);
      OnlyPattern(x, d); OnlyPattern(x, f); OnlyPattern(x, l); OnlyPattern(x, n); OnlyPattern(x, o);
    }
  }

  /** Texts without padding and digits are read alike. */
  lemma PlainIsSame(c: Bytes)
    requires NoPadding(Replace(c)) && NoDigits(Filter(c, true))
    ensures SameReading(c)
  {
    hide Filter, Replace, Project, Inside, NoPadding, NoDigits, AllKept;
    InCommon([], c);
    InsideAll(Filter(c, true));
    InsideAll(Project(NonLetters, Filter(c, true)));
  }

  // ----- two texts on which they do not agree

  /** The pattern A1 and the text A.1, in which the punctuation is padding. */
  const LETTER_DIGIT: Bytes := [0x41, 0x31]
  const DOTTED: Bytes := [0x41, 0x2E, 0x31]

  /** Two bytes of multi-byte characters, and a text in which a digit stands between them. */
  const PAIR: Bytes := [0xE8, 0xE9]
  const PARTED: Bytes := [0xE8, 0x31, 0xE9]

  lemma DottedIs()
    ensures Filter(DOTTED, true) == LETTER_DIGIT && Replace(DOTTED) == [0x41, PLUS, 0x31]
  {
    assert StepOf(DOTTED, true) == Take(1, 0x41) && StepOf(DOTTED[1..], true) == Skip(1);
    PlainStays([0x31]);
    assert DOTTED[1..][1..] == [0x31];
    assert Filter(DOTTED[1..], true) == [0x31];
    assert Pad(DASH, 0) == [] && Pad(PLUS, 1) == [PLUS];
    assert Replace(DOTTED[1..]) == [PLUS, 0x31];
  }

  lemma {:induction false} ProjectNone(r: Round, t: Bytes)
    requires forall i :: 0 <= i < |t| ==> !Keep(r, t[i])
    ensures Project(r, t) == []
  {
    if t != [] { ProjectNone(r, t[..|t| - 1]); }
  }

  lemma DottedVerdicts()
    ensures Dirty([LETTER_DIGIT], LETTER_DIGIT) && Occurs([LETTER_DIGIT], LETTER_DIGIT)
    ensures !AnyOccurrence([LETTER_DIGIT], [0x41, PLUS, 0x31])
  {
    hide Project;
    var d: Bytes := [0x41, PLUS, 0x31];
    assert OccursAt([LETTER_DIGIT][0], LETTER_DIGIT, 0);
    assert d == [0x41] + [PLUS, 0x31];
    ProjectConcat(Letters, [0x41], [PLUS, 0x31]);
    ProjectOne(Letters, 0x41);
    ProjectNone(Letters, [PLUS, 0x31]);
    ProjectNone(Others, d);
    OnlyPattern(LETTER_DIGIT, d);
    OnlyPattern(LETTER_DIGIT, [0x41]);
    OnlyPattern(LETTER_DIGIT, []);
    NotInside(LETTER_DIGIT, d);
  }

  /** Found dirty, and nothing is starred. */
  method FoundNotStarred(m: Acsm, buf: Bytes) returns (v: int, tx: array<Byte>, flag: int)
    requires m.Valid() && m.patterns == [] && |buf| == MAXTEXT
    modifies m
    ensures m.Compiled() && m.patterns == [LETTER_DIGIT] && v == 3 && flag == 0 && tx[..] == DOTTED
  {
    hide Automaton, AllKept, Filter, Replace, AnyOccurrence, Project, Occurs, TotalLength, Starred, Wide, InStretch;
    PlainStays(LETTER_DIGIT);
    var ok := m.AddPattern(LETTER_DIGIT);
    assert m.patterns == [LETTER_DIGIT];
    OneSmall(LETTER_DIGIT);
    ok := m.Compile();
    v := Search(m, DOTTED, false, buf);
    tx := Copy(DOTTED);
    flag := PatternReplace(m, tx, false, buf);
    DottedIs();
    DottedVerdicts();
  }

  lemma OneSmall(p: Bytes)
    requires |p| < MAXKEYWORD
    ensures 1 + TotalLength([p]) <= MAXSTATE
  {
    LengthSnoc([], p);
    assert [] + [p] == [p];
  }

  lemma PartedVerdicts()
    ensures !Dirty([PAIR], PARTED) && AnyOccurrence([PAIR], PARTED)
  {
    hide Project;
    assert PARTED == [0xE8] + ([0x31] + [0xE9]);
    ProjectConcat(Others, [0xE8], [0x31] + [0xE9]);
    ProjectConcat(Others, [0x31], [0xE9]);
    ProjectOne(Others, 0xE8);
    ProjectOne(Others, 0x31);
    ProjectOne(Others, 0xE9);
    assert Project(Others, PARTED) == PAIR;
    ProjectNone(Letters, PARTED);
    AllNonLetters(PARTED);
    OnlyPattern(PAIR, PARTED);
    OnlyPattern(PAIR, PAIR);
    OnlyPattern(PAIR, []);
    InsideAll(PAIR);
    NotInside(PAIR, PARTED);
  }

  lemma {:induction false} AllNonLetters(t: Bytes)
    requires forall i :: 0 <= i < |t| ==> !IsAlpha(t[i])
    ensures Project(NonLetters, t) == t
  {
    if t != [] { AllNonLetters(t[..|t| - 1]); }
  }

  /** Found clean, and yet starred. */
  method StarredNotFound(m: Acsm, buf: Bytes) returns (v: int, tx: array<Byte>, flag: int)
    requires m.Valid() && m.patterns == [] && |buf| == MAXTEXT
    modifies m
    ensures m.Compiled() && m.patterns == [PAIR] && v == 0 && flag == 1 && tx.Length == 3
  {
    hide Automaton, AllKept, Filter, Replace, AnyOccurrence, Project, Occurs, TotalLength, Starred, Wide, InStretch;
    PlainStays(PAIR);
    var ok := m.AddPattern(PAIR);
    assert m.patterns == [PAIR];
    OneSmall(PAIR);
    ok := m.Compile();
    v := Search(m, PARTED, false, buf);
    tx := Copy(PARTED);
    flag := PatternReplace(m, tx, false, buf);
    PlainStays(PARTED);
    PartedVerdicts();
  }
}
