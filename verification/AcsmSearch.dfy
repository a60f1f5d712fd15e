/** Searching (tm_dirty/acsm.c: acsmSearch and acsm_get_first_dirty_word): the automaton over a text and two
    projections of it. */
module AcsmSearch {
  import opened AcsmWords
  import opened AcsmTrie
  import opened AcsmBfs
  import opened AcsmMachine
  import opened Utf8Punc
  import opened Brackets

  const MAXTEXT: nat := 1_000_000

  /** The rounds of the searches: the whole text, its letters, all but its letters; the last one belongs to the
      replacement. */
  datatype Round = Whole | Letters | NonLetters | Others

  predicate Keep(r: Round, b: Byte) {
    match r
    case Whole => true
    case Letters => IsAlpha(b)
    case NonLetters => !IsAlpha(b)
    case Others => !IsAlphaOrNumber(b) && b != PLUS && b != DASH
  }

  /** The bytes of t that round r reads. */
  function Project(r: Round, t: Bytes): (q: Bytes)
    ensures |q| <= |t|
  {
    if t == [] then [] else Project(r, t[..|t| - 1]) + if Keep(r, t[|t| - 1]) then [t[|t| - 1]] else []
  }

  lemma ProjectStep(r: Round, t: Bytes, i: nat)
    requires i < |t|
    ensures Project(r, t[..i + 1]) == if Keep(r, t[i]) then Project(r, t[..i]) + [t[i]] else Project(r, t[..i])
  {
    assert t[..i + 1][..i] == t[..i];
  }

  /** What has been read is the beginning of what will be read. */
  lemma {:induction false} ProjectPrefix(r: Round, t: Bytes, i: nat)
    requires i <= |t|
    ensures |Project(r, t[..i])| <= |Project(r, t)| && Project(r, t)[..|Project(r, t[..i])|] == Project(r, t[..i])
    decreases |t| - i
  {
    if i < |t| {
      ProjectPrefix(r, t, i + 1);
      ProjectStep(r, t, i);
    } else {
      assert t[..i] == t;
    }
  }

  lemma {:induction false} ProjectWhole(t: Bytes)
    ensures Project(Whole, t) == t
  {
    if t != [] { ProjectWhole(t[..|t| - 1]); }
  }

  /** ix is the longest pattern at the earliest place k where one ends. */
  ghost predicate FirstMatch(pats: seq<Bytes>, q: Bytes, k: int, ix: int) {
    && 0 <= k <= |q| && 0 <= ix < |pats| && Best(pats, q[..k], ix) && forall j :: 0 <= j < k ==> !EndsAt(pats, q, j)
  }

  lemma BestMeansEnds(pats: seq<Bytes>, q: Bytes, k: nat, ix: int)
    requires k <= |q| && Best(pats, q[..k], ix)
    ensures ix >= 0 <==> EndsAt(pats, q, k)
  {
  }

  lemma NoMatch(pats: seq<Bytes>, q: Bytes)
    requires forall j :: 0 <= j <= |q| ==> !EndsAt(pats, q, j)
    ensures !Occurs(pats, q)
  {
    OccursMeansEnds(pats, q);
  }

  /** One round: the number of the first pattern found, or -1. */
  method Scan(m: Acsm, t: Bytes, r: Round) returns (ix: int, ghost k: int)
    requires m.Compiled()
    ensures ix == -1 ==> !Occurs(m.patterns, Project(r, t))
    ensures ix != -1 ==> Occurs(m.patterns, Project(r, t)) && FirstMatch(m.patterns, Project(r, t), k, ix)
  {
    hide Automaton, Wide, Best, EndsAt, Longest, Occurs, Project;
    ghost var q := Project(r, t);
    StartState(m.patterns, m.table, m.words);
    NothingRead(r, t, m.patterns, m.words);
    var state, i := 0, 0;
    while i < |t|
      invariant 0 <= i <= |t| && 0 <= state < |m.words| && m.words[state] == Longest(m.patterns, Project(r, t[..i]))
      invariant forall j :: 0 <= j <= |Project(r, t[..i])| ==> !EndsAt(m.patterns, q, j)
    {
      ghost var v := Project(r, t[..i]);
      ProjectStep(r, t, i);
      if Keep(r, t[i]) {
        ReadKept(m.patterns, m.table, m.words, state, r, t, i);
        state := m.table[state].next[t[i]];
        if m.table[state].longest != -1 {
          ix, k := m.table[state].longest, |v| + 1;
          Found(m.patterns, q, k);
          return;
        }
      }
      i := i + 1;
    }
    assert t[..i] == t;
    NoMatch(m.patterns, q);
    ix, k := -1, 0;
  }

  /** The automaton reads the byte at i, which round r keeps. */
  lemma ReadKept(pats: seq<Bytes>, tab: seq<Row>, words: seq<Bytes>, s: int, r: Round, t: Bytes, i: nat)
    requires Automaton(pats, tab, words) && i < |t| && Keep(r, t[i]) && 0 <= s < |words|
    requires words[s] == Longest(pats, Project(r, t[..i]))
    ensures |words| <= |tab| && |tab[s].next| == ALPHABET
    ensures var n, q, k := tab[s].next[t[i]], Project(r, t), |Project(r, t[..i])| + 1;
      && 0 <= n < |words| && words[n] == Longest(pats, Project(r, t[..i + 1])) && -1 <= tab[n].longest < |pats|
      && k <= |q| && q[..k] == Project(r, t[..i + 1]) && Best(pats, q[..k], tab[n].longest)
      && (tab[n].longest != -1 <==> EndsAt(pats, q, k))
  {
    hide Automaton, Longest, Best, EndsAt, Project;
    ProjectStep(r, t, i);
    ReadByte(pats, tab, words, s, Project(r, t[..i]), t[i]);
    ProjectPrefix(r, t, i + 1);
    var n, q, k := tab[s].next[t[i]], Project(r, t), |Project(r, t[..i])| + 1;
    BestMeansEnds(pats, q, k, tab[n].longest);
    BestRange(pats, q[..k], tab[n].longest);
  }

  lemma NothingRead(r: Round, t: Bytes, pats: seq<Bytes>, words: seq<Bytes>)
    requires 0 < |words| && words[0] == Longest(pats, [])
    ensures Project(r, t[..0]) == []
    ensures (forall i :: 0 <= i < |pats| ==> pats[i] != []) ==> forall q :: !EndsAt(pats, q, 0)
  {
  }

  lemma Found(pats: seq<Bytes>, q: Bytes, k: int)
    requires EndsAt(pats, q, k)
    ensures Occurs(pats, q)
  {
    OccursMeansEnds(pats, q);
  }

  lemma BestRange(pats: seq<Bytes>, u: Bytes, ix: int)
    requires Best(pats, u, ix)
    ensures -1 <= ix < |pats|
  {
  }

  // ----- the two searches

  /** d is the text the searches look at: with the bracketed parts blanked out when asked. buf is what the target of
      the blanking holds before; it shows through only in texts with MAXOPEN brackets open at once. */
  ghost predicate IsCleared(tx: Bytes, jump: bool, buf: Bytes, d: Bytes) {
    if jump then |tx| <= |buf| && Blanked(tx, buf, d) else d == tx
  }

  method Clear(tx: Bytes, jump: bool, buf: Bytes) returns (d: Bytes)
    requires |tx| <= |buf|
    ensures IsCleared(tx, jump, buf, d) && |d| == |tx|
  {
    hide Inside, Stack, StopFrom;
    if jump {
      d := ReplaceInBrackets(tx, buf);
    } else {
      d := tx;
    }
  }

  /** The verdict on a filtered text: 3, 1 and 2 for the rounds in their order, 0 when all find nothing. */
  ghost predicate Verdict(pats: seq<Bytes>, f: Bytes, v: int) {
    && v in {0, 1, 2, 3}
    && (v == 3 <==> Occurs(pats, f))
    && (v == 1 <==> !Occurs(pats, f) && Occurs(pats, Project(Letters, f)))
    && (v == 2 <==> !Occurs(pats, f) && !Occurs(pats, Project(Letters, f)) && Occurs(pats, Project(NonLetters, f)))
  }

  /** w is the longest pattern at the earliest place where one ends. */
  ghost predicate IsFirstWord(pats: seq<Bytes>, q: Bytes, w: Bytes) {
    exists k, ix :: FirstMatch(pats, q, k, ix) && w == pats[ix]
  }

  function RoundOf(v: int): Round { if v == 3 then Whole else if v == 1 then Letters else NonLetters }

  ghost predicate DirtyVerdict(pats: seq<Bytes>, f: Bytes, v: int, word: Bytes) {
    Verdict(pats, f, v) && (v > 0 ==> IsFirstWord(pats, Project(RoundOf(v), f), word))
  }

  /** acsm_get_first_dirty_word; acsmSearch is the same without the word. */
  method FirstDirtyWord(m: Acsm, tx: Bytes, jump: bool, buf: Bytes) returns (v: int, word: Bytes)
    requires m.Compiled() && |buf| == MAXTEXT
    ensures v == -1 <==> |tx| > MAXTEXT
    ensures v != -1 ==> exists d :: IsCleared(tx, jump, buf, d) && DirtyVerdict(m.patterns, Filter(d, true), v, word)
  {
    hide Occurs, FirstMatch, Project, Filter, Automaton, IsCleared, IsFirstWord;
    if |tx| > MAXTEXT { return -1, []; }
    var d := Clear(tx, jump, buf);
    var f, n := StringFilter(d, true);
    ProjectWhole(f);
    var ix;
    ghost var k;
    ix, k := Scan(m, f, Whole);
    if ix != -1 {
      FirstMatchRange(m.patterns, f, k, ix);
      return 3, m.patterns[ix];
    }
    ix, k := Scan(m, f, Letters);
    if ix != -1 {
      FirstMatchRange(m.patterns, Project(Letters, f), k, ix);
      return 1, m.patterns[ix];
    }
    ix, k := Scan(m, f, NonLetters);
    if ix != -1 {
      FirstMatchRange(m.patterns, Project(NonLetters, f), k, ix);
      return 2, m.patterns[ix];
    }
    v, word := 0, [];
  }

  lemma FirstMatchRange(pats: seq<Bytes>, q: Bytes, k: int, ix: int)
    requires FirstMatch(pats, q, k, ix)
    ensures 0 <= ix < |pats| && IsFirstWord(pats, q, pats[ix])
  {
  }

  method Search(m: Acsm, tx: Bytes, jump: bool, buf: Bytes) returns (v: int)
    requires m.Compiled() && |buf| == MAXTEXT
    ensures v == -1 <==> |tx| > MAXTEXT
    ensures v != -1 ==> exists d :: IsCleared(tx, jump, buf, d) && Verdict(m.patterns, Filter(d, true), v)
  {
    hide Occurs, FirstMatch, Project, Filter, Automaton, IsCleared;
    if |tx| > MAXTEXT { return -1; }
    var d := Clear(tx, jump, buf);
    var f, n := StringFilter(d, true);
    ProjectWhole(f);
    var ix;
    ghost var k;
    ix, k := Scan(m, f, Whole);
    if ix != -1 { return 3; }
    ix, k := Scan(m, f, Letters);
    if ix != -1 { return 1; }
    ix, k := Scan(m, f, NonLetters);
    v := if ix != -1 then 2 else 0;
  }
}
