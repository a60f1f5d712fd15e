/** The pattern matcher object (tm_dirty/acsm.c): its table is filled in place by acsmCompile. */
module AcsmMachine {
  import opened AcsmWords
  import opened AcsmTrie
  import opened AcsmBfs
  import Utf8Punc

  const MAXPATTERNS: nat := 81920
  const MAXKEYWORD: nat := 256
  const MAXSTATE: nat := 0x8_0000

  function TotalLength(pats: seq<Bytes>): nat {
    if pats == [] then 0 else TotalLength(pats[..|pats| - 1]) + |pats[|pats| - 1]|
  }

  lemma LengthSnoc(ps: seq<Bytes>, p: Bytes)
    ensures TotalLength(ps + [p]) == TotalLength(ps) + |p|
  {
    assert (ps + [p])[..|ps|] == ps;
  }

  lemma {:induction false} LengthMonotone(pats: seq<Bytes>, i: nat)
    requires i <= |pats|
    ensures TotalLength(pats[..i]) <= TotalLength(pats)
    decreases |pats| - i
  {
    if i < |pats| {
      LengthMonotone(pats, i + 1);
      assert pats[..i + 1] == pats[..i] + [pats[i]];
      LengthSnoc(pats[..i], pats[i]);
    } else {
      assert pats[..i] == pats;
    }
  }

  /** A trie of the words of `covered`, in which the states of the patterns `owned` are marked. */
  ghost predicate TrieOf(owned: seq<Bytes>, covered: seq<Bytes>, tab: seq<Row>, words: seq<Bytes>, max: int) {
    && |tab| == MAXSTATE && Wide(tab) && Numbered(words) && |words| <= max <= MAXSTATE
    && TrieRows(tab, words) && Owned(tab, words, owned) && Blank(tab, |words|, max) && Covers(covered, words)
    && |words| <= TotalLength(covered) + 1
  }

  lemma BeginPattern(ps: seq<Bytes>, tab: seq<Row>, words: seq<Bytes>, max: int)
    requires TrieOf(ps, ps, tab, words, max)
    ensures TrieOf(ps, ps + [[]], tab, words, max)
  {
    hide TrieRows, Owned, Blank, Numbered, Wide, Covers;
    CoversEmpty(ps, words);
    LengthSnoc(ps, []);
  }

  /** Matching a byte with the states that exist. */
  lemma WalkState(ps: seq<Bytes>, q: Bytes, tab: seq<Row>, words: seq<Bytes>, max: int, s: int, c: Byte)
    requires TrieOf(ps, ps + [q], tab, words, max) && 0 <= s < |words| && words[s] == q
    ensures |tab| >= |words| && |tab[s].next| == ALPHABET
    ensures var n := tab[s].next[c];
      if n == FAIL then q + [c] !in words
      else 0 <= n < |words| && words[n] == q + [c] && TrieOf(ps, ps + [q + [c]], tab, words, max)
  {
    hide Owned, Blank, Covers;
    assert TrieStep(words, s, c, tab[s].next[c]);
    if tab[s].next[c] != FAIL {
      assert words[tab[s].next[c]] in words;
      CoversMore(ps, q, c, words, words);
      LengthSnoc(ps, q);
      LengthSnoc(ps, q + [c]);
    }
  }

  /** Adding a state for a byte. */
  lemma AddState(ps: seq<Bytes>, q: Bytes, tab: seq<Row>, words: seq<Bytes>, max: int, s: int, c: Byte,
      tab': seq<Row>, words': seq<Bytes>)
    requires TrieOf(ps, ps + [q], tab, words, max) && 0 <= s < |words| < max && words[s] == q && q + [c] !in words
    requires tab' == SetNext(tab, s, c, |words|) && words' == words + [q + [c]]
    ensures TrieOf(ps, ps + [q + [c]], tab', words', max) && forall d: Byte :: q + [c] + [d] !in words'
  {
    hide Owned, Covers, TrieRows, Numbered, Blank;
    AddWordNumbered(words, s, c);
    AddWordRows(tab, words, ps + [q], s, c, max, tab', words');
    NewWordIsNoPattern(ps, q, words, q + [c]);
    AddWordOwned(tab, words, ps, s, c, max, tab');
    CoversMore(ps, q, c, words, words');
    LengthSnoc(ps, q);
    LengthSnoc(ps, q + [c]);
    NewRowIsBlank(tab, words, max, s, c, tab', words');
  }

  lemma NewRowIsBlank(tab: seq<Row>, words: seq<Bytes>, max: int, s: int, c: Byte, tab': seq<Row>, words': seq<Bytes>)
    requires Wide(tab) && |words| < max && Blank(tab, |words|, max) && 0 <= s < |words|
    requires tab' == SetNext(tab, s, c, |words|) && Wide(tab') && words' == words + [words[s] + [c]]
    requires TrieRows(tab', words')
    ensures forall d: Byte :: words[s] + [c] + [d] !in words'
  {
    var n := |words|;
    forall d: Byte ensures words[s] + [c] + [d] !in words' {
      assert TrieStep(words', n, d, tab'[n].next[d]);
    }
  }

  lemma EndPattern(ps: seq<Bytes>, p: Bytes, tab: seq<Row>, words: seq<Bytes>, max: int, s: int, tab': seq<Row>)
    requires TrieOf(ps, ps + [p], tab, words, max) && 0 <= s < |words| && words[s] == p
    requires tab' == if tab[s].longest < 0 then tab[s := tab[s].(longest := |ps|)] else tab
    ensures TrieOf(ps + [p], ps + [p], tab', words, max)
  {
    hide Covers, TrieStep;
    OwnedMore(tab, words, ps, p, s, tab');
  }

  lemma OwnAt(ps: seq<Bytes>, covered: seq<Bytes>, tab: seq<Row>, words: seq<Bytes>, max: int, s: int)
    requires TrieOf(ps, covered, tab, words, max) && 0 <= s < |words|
    ensures Own(ps, words[s], tab[s].longest)
  {
  }

  lemma Started(tab: seq<Row>, max: int)
    requires |tab| == MAXSTATE && Wide(tab) && 1 <= max <= MAXSTATE && Blank(tab, 0, max)
    ensures TrieOf([], [], tab, [[]], max)
  {
    assert Covers([], [[]]);
  }

  class Acsm {
    var patterns: seq<Bytes>
    var table: seq<Row>
    var maxStates: int
    var numStates: int
    ghost var words: seq<Bytes>

    /** The mapping holds MAX_STATE rows with any contents; acsmAddPattern stores only filtered patterns and no
        empty one. */
    ghost predicate Valid()
      reads this
    {
      && |table| == MAXSTATE && Wide(table) && |patterns| <= MAXPATTERNS
      && (forall i :: 0 <= i < |patterns| ==> patterns[i] != [])
      && (forall i :: 0 <= i < |patterns| ==> Utf8Punc.AllKept(patterns[i], true))
    }

    /** acsmAddPattern: at most 255 bytes are taken, filtered; a pattern of which nothing is left is ignored. */
    method AddPattern(pat: Bytes) returns (ok: bool)
      requires Valid()
      modifies this`patterns
      ensures Valid() && (ok <==> |old(patterns)| < MAXPATTERNS)
      ensures !ok ==> patterns == old(patterns)
      ensures ok ==>
        var p := Utf8Punc.Filter(if |pat| > MAXKEYWORD - 1 then pat[..MAXKEYWORD - 1] else pat, true);
        patterns == old(patterns) + (if p == [] then [] else [p]) && |p| < MAXKEYWORD
    {
      if |patterns| >= MAXPATTERNS { return false; }
      var n := if |pat| > MAXKEYWORD - 1 then MAXKEYWORD - 1 else |pat|;
      var p, m := Utf8Punc.StringFilter(pat[..n], true);
      assert n == |pat| ==> pat[..n] == pat;
      Utf8Punc.FilterKeeps(pat[..n], true);
      if m != 0 { patterns := patterns + [p]; }
      ok := true;
    }

    /** The table is the automaton of the patterns. */
    ghost predicate Compiled()
      reads this
    {
      Valid() && Automaton(patterns, table, words)
    }

    /** The trie of the first i patterns is built. */
    ghost predicate Grown(i: nat)
      reads this
      requires i <= |patterns|
    {
      TrieOf(patterns[..i], patterns[..i], table, words, maxStates) && numStates == |words| - 1
    }

    method AddMatchListEntry(state: int, ix: int)
      requires 0 <= state < |table| && 0 <= ix < |patterns| && table[state].longest < |patterns|
      modifies this`table
      ensures var cur := old(table[state].longest);
        table ==
          if cur < 0 || |patterns[cur]| < |patterns[ix]| then old(table)[state := old(table[state]).(longest := ix)]
          else old(table)
    {
      var cur := table[state].longest;
      if cur < 0 || |patterns[cur]| < |patterns[ix]| { table := table[state := table[state].(longest := ix)]; }
    }

    /** AddPatternStates: its check for running out of states never fails. */
    method AddPatternStates(i: nat) returns (ok: bool)
      requires i < |patterns| && Grown(i) && maxStates == 1 + TotalLength(patterns)
      modifies this`table, this`numStates, this`words
      ensures ok && Grown(i + 1)
    {
      hide TrieOf, TotalLength, Wide;
      ghost var ps := patterns[..i];
      var p, state, m := patterns[i], 0, 0;
      BeginPattern(ps, table, words, maxStates);
      Start(ps, ps + [p[..0]], table, words, maxStates);
      assert patterns[..i + 1] == ps + [p];
      LengthMonotone(patterns, i + 1);
      while m < |p|
        invariant 0 <= m <= |p| && 0 <= state < |words| && words[state] == p[..m] && numStates == |words| - 1
        invariant TrieOf(ps, ps + [p[..m]], table, words, maxStates)
      {
        WalkState(ps, p[..m], table, words, maxStates, state, p[m]);
        var next := table[state].next[p[m]];
        if next == FAIL { break; }
        assert p[..m] + [p[m]] == p[..m + 1];
        state := next;
        m := m + 1;
      }
      while m < |p|
        invariant 0 <= m <= |p| && 0 <= state < |words| && words[state] == p[..m] && numStates == |words| - 1
        invariant TrieOf(ps, ps + [p[..m]], table, words, maxStates)
        invariant m < |p| ==> p[..m] + [p[m]] !in words
      {
        numStates := numStates + 1;
        StatesLeft(ps, p, m, table, words, maxStates);
        if numStates >= maxStates { return false; }
        ghost var tab, ws, c := table, words, p[m];
        assert p[..m] + [c] == p[..m + 1];
        table := SetNext(table, state, p[m], numStates);
        words := words + [p[..m + 1]];
        AddState(ps, p[..m], tab, ws, maxStates, state, c, table, words);
        state := numStates;
        m := m + 1;
      }
      assert p[..m] == p;
      Start(ps, ps + [p], table, words, maxStates);
      OwnAt(ps, ps + [p], table, words, maxStates, state);
      ghost var tab := table;
      AddMatchListEntry(state, i);
      EndPattern(ps, p, tab, words, maxStates, state, table);
      ok := true;
    }

    /** The loop of acsmCompile that turns the missing transitions of state 0 back to it. */
    method LoopRoot()
      requires Valid() && Grown(|patterns|)
      modifies this`table
      ensures Valid() && RowsOk(patterns, table, words, Progress({}, -1, 0)) && StatesOk(patterns, table, words, {})
    {
      hide TrieRows, Owned, Blank, Covers, Numbered, RowsOk, StatesOk;
      ghost var tab := table;
      assert patterns[..|patterns|] == patterns;
      var i := 0;
      while i < ALPHABET
        invariant 0 <= i <= ALPHABET && |table| == MAXSTATE && |table[0].next| == ALPHABET
        invariant table == tab[0 := tab[0].(next := table[0].next)]
        invariant forall c: Byte :: table[0].next[c] == if c < i && tab[0].next[c] == FAIL then 0 else tab[0].next[c]
      {
        if table[0].next[i] == FAIL { table := SetNext(table, 0, i, 0); }
        i := i + 1;
      }
      RootRow(patterns, tab, words, table);
      OwnedMeansStates(patterns, tab, words, table);
    }

    /** The first loop of Build_DFA: the children of state 0 enter the queue. */
    method EnqueueFirst() returns (q: seq<int>, ghost seen: set<int>)
      requires Valid() && Numbered(words) && Covers(patterns, words) && |words| <= MAXSTATE
      requires RowsOk(patterns, table, words, Progress({}, -1, 0)) && StatesOk(patterns, table, words, {})
      modifies this`table
      ensures Valid() && RowsOk(patterns, table, words, Progress({}, -1, 0)) && StatesOk(patterns, table, words, seen)
      ensures SeenOk(words, Progress({}, -1, 0), seen) && QueueOk(words, Progress({}, -1, 0), seen, q)
    {
      hide RowsOk, StatesOk, Covers, FirstSeen, SeenOk, Own, Settled;
      q, seen := [], {};
      ghost var tab := table;
      NoneSeen(words);
      var i := 0;
      while i < ALPHABET
        invariant 0 <= i <= ALPHABET && Valid() && forall s :: 0 <= s < |table| ==> table[s].next == tab[s].next
        invariant FirstSeen(words, i, seen) && StatesOk(patterns, table, words, seen)
        invariant FirstQueue(words, seen, q)
      {
        var s := table[0].next[i];
        RootStep(patterns, tab, words, i);
        if s != FAIL && s != 0 {
          FirstChild(words, i, seen, s);
          ghost var t0 := table;
          q := q + [s];
          table := table[s := table[s].(fail := 0)];
          FirstStates(patterns, t0, words, seen, i, s, table);
          seen := seen + {s};
        } else {
          FirstNoChild(words, i, seen);
        }
        i := i + 1;
      }
      SameRows(patterns, tab, words, Progress({}, -1, 0), table);
      FirstDone(words, seen, q);
    }

    /** Build_DFA completes the table. */
    method BuildDfa()
      requires Valid() && Numbered(words) && Covers(patterns, words) && |words| <= MAXSTATE
      requires RowsOk(patterns, table, words, Progress({}, -1, 0)) && StatesOk(patterns, table, words, {})
      modifies this`table
      ensures Compiled()
    {
      hide RowsOk, StatesOk, SeenOk, QueueOk, Covers, Numbered, Opened, Settled, Automaton;
      var q;
      ghost var seen;
      q, seen := EnqueueFirst();
      ghost var done: set<int> := {};
      while q != []
        invariant Valid() && QueueOk(words, Progress(done, -1, 0), seen, q)
        invariant RowsOk(patterns, table, words, Progress(done, -1, 0)) && SeenOk(words, Progress(done, -1, 0), seen)
        invariant StatesOk(patterns, table, words, seen)
        decreases |words| - |done|
      {
        var r := q[0];
        Dequeue(patterns, words, Progress(done, -1, 0), seen, q, Progress(done, r, 0));
        OpenedAlike(done, r);
        DequeueRows(patterns, table, words, Progress(done, -1, 0), Progress(done, r, 0));
        q := q[1..];
        q, seen := CompleteState(r, q, done, seen);
        Finish(words, Progress(done, r, 256), seen, q, Progress(done + {r}, -1, 0));
        DequeueRows(patterns, table, words, Progress(done, r, 256), Progress(done + {r}, -1, 0));
        DoneFits(words, Progress(done + {r}, -1, 0), seen, q);
        done := done + {r};
      }
      Finished(patterns, table, words, Progress(done, -1, 0), seen);
    }

    /** The failure state of s is found; s takes over its longest pattern. */
    method SetFail(s: int, next: int)
      requires 0 <= s < |table| && 0 <= next < |table| && s != next && table[s].longest < |patterns|
      requires -1 <= table[next].longest < |patterns|
      modifies this`table
      ensures table == Settle(old(table), patterns, s, next) && |table| == |old(table)|
    {
      table := table[s := table[s].(fail := next)];
      if table[next].longest != -1 { AddMatchListEntry(s, table[next].longest); }
    }

    /** The body of the main loop of Build_DFA, for the state r just dequeued. */
    method CompleteState(r: int, q0: seq<int>, ghost done: set<int>, ghost seen0: set<int>) returns (q: seq<int>,
        ghost seen: set<int>)
      requires Valid() && Numbered(words) && Covers(patterns, words) && |words| <= MAXSTATE
      requires QueueOk(words, Progress(done, r, 0), seen0, q0) && RowsOk(patterns, table, words, Progress(done, r, 0))
      requires SeenOk(words, Progress(done, r, 0), seen0) && StatesOk(patterns, table, words, seen0)
      requires 0 < r < |words| && r in seen0 && r !in done
      requires forall t :: 0 < t < |words| && |words[t]| < |words[r]| ==> t in done
      requires forall x :: x in q0 ==> 0 < x < |words| && |words[r]| <= |words[x]| <= |words[r]| + 1
      modifies this`table
      ensures Valid() && QueueOk(words, Progress(done, r, 256), seen, q)
      ensures RowsOk(patterns, table, words, Progress(done, r, 256))
      ensures SeenOk(words, Progress(done, r, 256), seen) && StatesOk(patterns, table, words, seen) && r in seen
    {
      hide RowsOk, StatesOk, SeenOk, QueueOk, Covers, Numbered, Wide;
      q, seen := q0, seen0;
      var i := 0;
      while i < ALPHABET
        invariant 0 <= i <= ALPHABET && Valid() && Underway(patterns, table, words, Progress(done, r, i), seen, q)
      {
        q, seen := CompleteEntry(r, i, q, done, seen);
        i := i + 1;
      }
    }

    /** One round of it: the transition of r on the byte i. */
    method CompleteEntry(r: int, i: int, q0: seq<int>, ghost done: set<int>,
        ghost seen0: set<int>) returns (q: seq<int>, ghost seen: set<int>)
      requires Valid() && Numbered(words) && Covers(patterns, words) && |words| <= MAXSTATE && 0 <= i < ALPHABET
      requires Underway(patterns, table, words, Progress(done, r, i), seen0, q0) && 0 < r < |words| && r !in done
      requires forall t :: 0 < t < |words| && |words[t]| < |words[r]| ==> t in done
      modifies this`table
      ensures Valid() && Underway(patterns, table, words, Progress(done, r, i + 1), seen, q)
    {
      hide RowsOk, StatesOk, SeenOk, QueueOk, Covers, Numbered, Best, Own, Longest, FailWord, Settle, TrieStep,
        Child, Opened;
      q, seen := q0, seen0;
      ghost var g, tab := Progress(done, r, i), table;
      SettledAt(patterns, table, words, seen, r);
      FailTransition(patterns, table, words, g, seen, i);
      NotOpened(patterns, table, words, g);
      var s := table[r].next[i];
      var next := table[table[r].fail].next[i];
      assert next != FAIL;
      if s != FAIL {
        ChildIsNew(patterns, table, words, g, seen, s, next);
        q := q + [s];
        SetFail(s, next);
        ChildDone(patterns, tab, words, g, seen, q0, s, next, table);
        seen := seen + {s};
      } else {
        table := SetNext(table, r, i, next);
        FillDone(patterns, tab, words, g, seen, q, next, table);
      }
    }

    /** acsmCompile, whatever the table held before: it fails exactly when the patterns need more than MAX_STATE
        states. */
    method Compile() returns (ok: bool)
      requires Valid()
      modifies this`table, this`maxStates, this`numStates, this`words
      ensures ok <==> 1 + TotalLength(patterns) <= MAXSTATE
      ensures ok ==> Compiled()
    {
      hide Wide, TrieOf, RowsOk, StatesOk, Automaton, Covers, Numbered, TotalLength;
      maxStates := 1;
      var i := 0;
      NoLength();
      while i < |patterns|
        invariant 0 <= i <= |patterns| && maxStates == 1 + TotalLength(patterns[..i]) && table == old(table)
      {
        assert patterns[..i + 1] == patterns[..i] + [patterns[i]];
        LengthSnoc(patterns[..i], patterns[i]);
        maxStates := maxStates + |patterns[i]|;
        i := i + 1;
      }
      assert patterns[..i] == patterns;
      if maxStates > MAXSTATE { return false; }
      numStates := 0;
      ClearTable();
      words := [[]];
      Started(table, maxStates);
      assert patterns[..0] == [];
      i := 0;
      while i < |patterns|
        invariant 0 <= i <= |patterns| && Grown(i) && maxStates == 1 + TotalLength(patterns)
      {
        var added := AddPatternStates(i);
        if !added { return false; }
        i := i + 1;
      }
      TrieFacts(patterns, patterns[..i], table, words, maxStates);
      LoopRoot();
      BuildDfa();
      ok := true;
    }

    method ClearTable()
      requires |table| == MAXSTATE && Wide(table) && 0 <= maxStates <= MAXSTATE
      modifies this`table
      ensures |table| == MAXSTATE && Wide(table) && Blank(table, 0, maxStates)
    {
      var k := 0;
      while k < maxStates
        invariant 0 <= k <= maxStates && |table| == MAXSTATE && Wide(table) && Blank(table, 0, k)
      {
        table := table[k := table[k].(longest := -1, next := seq(ALPHABET, _ => FAIL))];
        k := k + 1;
      }
    }
  }

  lemma Start(owned: seq<Bytes>, covered: seq<Bytes>, tab: seq<Row>, words: seq<Bytes>, max: int)
    requires TrieOf(owned, covered, tab, words, max)
    ensures |tab| == MAXSTATE && 0 < |words| <= max <= MAXSTATE && words[0] == []
  {
  }

  /** There is a state left for the next byte of the pattern. */
  lemma StatesLeft(ps: seq<Bytes>, p: Bytes, m: nat, tab: seq<Row>, words: seq<Bytes>, max: int)
    requires m < |p| && TrieOf(ps, ps + [p[..m]], tab, words, max) && 1 + TotalLength(ps + [p]) <= max
    ensures |words| < max && |tab| == MAXSTATE && max <= MAXSTATE
    ensures forall s :: 0 <= s < |tab| ==> |tab[s].next| == ALPHABET
  {
    LengthSnoc(ps, p);
    LengthSnoc(ps, p[..m]);
  }

  lemma NoLength()
    ensures forall pats: seq<Bytes> :: TotalLength(pats[..0]) == 0
  {
  }

  lemma TrieFacts(pats: seq<Bytes>, ps: seq<Bytes>, tab: seq<Row>, words: seq<Bytes>, max: int)
    requires TrieOf(ps, ps, tab, words, max) && ps == pats[..|pats|]
    ensures Numbered(words) && Covers(pats, words) && |words| <= MAXSTATE && |tab| == MAXSTATE && Wide(tab)
  {
    assert ps == pats;
  }

  lemma OwnedMeansStates(pats: seq<Bytes>, tab: seq<Row>, words: seq<Bytes>, tab': seq<Row>)
    requires Owned(tab, words, pats) && |tab'| == |tab|
    requires forall s :: 0 <= s < |tab| ==> tab'[s].longest == tab[s].longest
    ensures StatesOk(pats, tab', words, {})
  {
  }

  // ----- the first loop of Build_DFA

  ghost predicate FirstQueue(words: seq<Bytes>, seen: set<int>, q: seq<int>) {
    && (forall t :: t in seen ==> 0 < t < |words| && |words[t]| == 1)
    && (forall t :: t in q <==> t in seen)
    && (forall a :: 0 <= a < |q| ==> 0 < q[a] < |words| && |words[q[a]]| == 1)
    && (forall a, b :: 0 <= a < b < |q| ==> q[a] != q[b])
  }

  lemma NoneSeen(words: seq<Bytes>)
    ensures FirstSeen(words, 0, {})
  {
  }

  lemma RootStep(pats: seq<Bytes>, tab: seq<Row>, words: seq<Bytes>, i: Byte)
    requires Wide(tab) && 0 < |words| <= |tab| && Numbered(words) && Covers(pats, words)
    requires RowsOk(pats, tab, words, Progress({}, -1, 0))
    ensures var s := tab[0].next[i]; 0 <= s < |words| && (if s != 0 then Child(words, 0, i, s) else [i] !in words)
  {
    var s := tab[0].next[i];
    assert Opened(Progress({}, -1, 0), 0, i);
    assert DfaStep(pats, words, 0, i, s);
    assert [] + [i] == [i] && [i][1..] == [];
    if IsWord(pats, [i]) { assert words[s] == [i]; } else { assert words[s] == Longest(pats, []) == words[0]; }
  }

  lemma FirstStates(pats: seq<Bytes>, tab: seq<Row>, words: seq<Bytes>, seen: set<int>, i: Byte, s: int, tab': seq<Row>)
    requires 0 < |words| <= |tab| && Numbered(words) && StatesOk(pats, tab, words, seen) && Child(words, 0, i, s)
    requires s !in seen && s != 0
    requires forall j :: 0 <= j < |pats| ==> pats[j] != []
    requires tab' == tab[s := tab[s].(fail := 0)]
    ensures StatesOk(pats, tab', words, seen + {s})
  {
    hide Settled, Own;
    SettleFirst(pats, words, i, s, tab'[s]);
  }

  lemma SameRows(pats: seq<Bytes>, tab: seq<Row>, words: seq<Bytes>, g: Progress, tab': seq<Row>)
    requires Wide(tab) && Wide(tab') && |words| <= |tab| == |tab'| && RowsOk(pats, tab, words, g)
    requires forall s :: 0 <= s < |tab| ==> tab'[s].next == tab[s].next
    ensures RowsOk(pats, tab', words, g)
  {
    forall s, c: Byte | 0 <= s < |words|
      ensures
        if Opened(g, s, c) then DfaStep(pats, words, s, c, tab'[s].next[c])
        else TrieStep(words, s, c, tab'[s].next[c])
    {
      assert
        if Opened(g, s, c) then DfaStep(pats, words, s, c, tab[s].next[c]) else TrieStep(words, s, c, tab[s].next[c]);
    }
  }

  lemma FirstDone(words: seq<Bytes>, seen: set<int>, q: seq<int>)
    requires FirstSeen(words, 256, seen) && FirstQueue(words, seen, q)
    ensures SeenOk(words, Progress({}, -1, 0), seen) && QueueOk(words, Progress({}, -1, 0), seen, q)
  {
    forall s, c: Byte, t | Child(words, s, c, t) ensures t in seen <==> Opened(Progress({}, -1, 0), s, c) {
      assert t in seen <==> s == 0 && c < 256;
    }
  }

  // ----- the main loop of Build_DFA

  lemma OpenedAlike(done: set<int>, r: int)
    ensures forall s, c: Byte :: Opened(Progress(done, r, 0), s, c) <==> Opened(Progress(done, -1, 0), s, c)
  {
  }

  lemma DoneFits(words: seq<Bytes>, g: Progress, seen: set<int>, q: seq<int>)
    requires QueueOk(words, g, seen, q)
    ensures |g.done| <= |words|
  {
    SeenIsBounded(words, g.done);
  }

  /** What holds between two rounds of the loop over the transitions of the state g.r. */
  ghost predicate Underway(pats: seq<Bytes>, tab: seq<Row>, words: seq<Bytes>, g: Progress, seen: set<int>,
      q: seq<int>) {
    && 0 < g.r < |words| <= |tab| && Wide(tab) && g.r in seen
    && QueueOk(words, g, seen, q) && RowsOk(pats, tab, words, g)
    && SeenOk(words, g, seen) && StatesOk(pats, tab, words, seen)
    && forall x :: x in q ==> 0 < x < |words| && |words[g.r]| <= |words[x]| <= |words[g.r]| + 1
  }

  lemma SettledAt(pats: seq<Bytes>, tab: seq<Row>, words: seq<Bytes>, seen: set<int>, r: int)
    requires |words| <= |tab| && StatesOk(pats, tab, words, seen) && r in seen
    ensures 0 < r < |words| && words[r] != [] && Settled(pats, words, r, tab[r])
  {
  }

  lemma NotOpened(pats: seq<Bytes>, tab: seq<Row>, words: seq<Bytes>, g: Progress)
    requires Wide(tab) && |words| <= |tab| && RowsOk(pats, tab, words, g) && 0 < g.r < |words| && g.r !in g.done
    requires 0 <= g.i < 256
    ensures !Opened(g, g.r, g.i)
    ensures
      if tab[g.r].next[g.i] == FAIL then words[g.r] + [g.i] !in words else Child(words, g.r, g.i, tab[g.r].next[g.i])
  {
  }

  lemma ChildIsNew(pats: seq<Bytes>, tab: seq<Row>, words: seq<Bytes>, g: Progress, seen: set<int>, s: int, n: int)
    requires |words| <= |tab| && SeenOk(words, g, seen) && StatesOk(pats, tab, words, seen) && 0 < g.r < |words|
    requires 0 <= g.i < 256
    requires !Opened(g, g.r, g.i) && Child(words, g.r, g.i, s) && Numbered(words) && 0 <= n < |words|
    requires |words[n]| <= |words[g.r]|
    requires n == 0 || n in seen
    requires forall j :: 0 <= j < |pats| ==> pats[j] != []
    ensures s !in seen && s != n && 0 < s < |words| && Own(pats, words[s], tab[s].longest)
    ensures Best(pats, words[n], tab[n].longest)
    ensures tab[s].longest < |pats| && -1 <= tab[n].longest < |pats|
  {
    assert s !in seen;
    assert tab[0].longest == -1;
  }

  lemma ChildDone(pats: seq<Bytes>, tab: seq<Row>, words: seq<Bytes>, g: Progress, seen: set<int>, q: seq<int>,
      s: int, n: int, tab': seq<Row>)
    requires Wide(tab) && 0 < |words| <= |tab| && Numbered(words) && Covers(pats, words)
    requires RowsOk(pats, tab, words, g) && SeenOk(words, g, seen) && QueueOk(words, g, seen, q)
    requires StatesOk(pats, tab, words, seen)
    requires 0 < g.r < |words| && g.r in seen && words[g.r] != [] && 0 <= g.i < 256 && !Opened(g, g.r, g.i)
    requires s == tab[g.r].next[g.i] && s != FAIL
    requires forall x :: x in q ==> 0 < x < |words| && |words[g.r]| <= |words[x]| <= |words[g.r]| + 1
    requires 0 < s < |words| && s !in seen && s != n && Own(pats, words[s], tab[s].longest) && 0 <= n < |words|
    requires Best(pats, words[n], tab[n].longest)
    requires words[n] == Longest(pats, FailWord(pats, words[g.r]) + [g.i])
    requires tab' == Settle(tab, pats, s, n)
    ensures var g' := g.(i := g.i + 1);
      && Wide(tab') && RowsOk(pats, tab', words, g') && SeenOk(words, g', seen + {s})
      && QueueOk(words, g', seen + {s}, q + [s])
      && StatesOk(pats, tab', words, seen + {s})
    ensures forall x :: x in q + [s] ==> 0 < x < |words| && |words[g.r]| <= |words[x]| <= |words[g.r]| + 1
  {
    hide RowsOk, SeenOk, QueueOk, Covers, Own, Best, Longest, FailWord;
    ChildRows(pats, tab, words, g, s, tab');
    ChildSeen(words, g, seen, s);
    SettleChild(pats, tab, words, g.r, g.i, s, n, tab');
    Enqueue(words, g, seen, q, s);
    StatesMore(pats, tab, words, seen, s, tab');
  }

  lemma StatesMore(pats: seq<Bytes>, tab: seq<Row>, words: seq<Bytes>, seen: set<int>, s: int, tab': seq<Row>)
    requires |words| <= |tab| == |tab'| && StatesOk(pats, tab, words, seen) && 0 < s < |words|
    requires Settled(pats, words, s, tab'[s])
    requires forall t :: 0 <= t < |tab| && t != s ==> tab'[t] == tab[t]
    ensures StatesOk(pats, tab', words, seen + {s})
  {
    hide Settled, Own;
  }

  lemma FillDone(pats: seq<Bytes>, tab: seq<Row>, words: seq<Bytes>, g: Progress, seen: set<int>, q: seq<int>, n: int,
      tab': seq<Row>)
    requires Wide(tab) && |words| <= |tab| && Covers(pats, words)
    requires RowsOk(pats, tab, words, g) && SeenOk(words, g, seen) && QueueOk(words, g, seen, q)
    requires StatesOk(pats, tab, words, seen)
    requires 0 < g.r < |words| && words[g.r] != [] && 0 <= g.i < 256 && words[g.r] + [g.i] !in words
    requires 0 <= n < |words| && words[n] == Longest(pats, FailWord(pats, words[g.r]) + [g.i])
    requires tab' == SetNext(tab, g.r, g.i, n)
    ensures var g' := g.(i := g.i + 1);
      && Wide(tab') && RowsOk(pats, tab', words, g') && SeenOk(words, g', seen) && QueueOk(words, g', seen, q)
      && StatesOk(pats, tab', words, seen)
  {
    hide RowsOk, SeenOk, Covers, Own, Best, Longest, FailWord;
    FillRows(pats, tab, words, g, n, tab');
    NothingSeen(words, g, seen);
  }
}
