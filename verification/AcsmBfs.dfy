/** Completing the table breadth first (tm_dirty/acsm.c: Build_DFA). */
module AcsmBfs {
  import opened AcsmWords
  import opened AcsmTrie

  /** How far the search is: `done` states are complete, and of state r the bytes below i are. */
  datatype Progress = Progress(done: set<int>, r: int, i: int)

  ghost predicate Opened(g: Progress, s: int, c: int) { s == 0 || s in g.done || (s == g.r && c < g.i) }

  /** n is the state the automaton moves to from s on c. */
  ghost predicate DfaStep(pats: seq<Bytes>, words: seq<Bytes>, s: int, c: Byte, n: int)
    requires 0 <= s < |words|
  {
    0 <= n < |words| && words[n] == Longest(pats, words[s] + [c])
  }

  ghost predicate RowsOk(pats: seq<Bytes>, tab: seq<Row>, words: seq<Bytes>, g: Progress)
    requires Wide(tab) && |words| <= |tab|
  {
    forall s, c: Byte :: 0 <= s < |words| ==>
      if Opened(g, s, c) then DfaStep(pats, words, s, c, tab[s].next[c]) else TrieStep(words, s, c, tab[s].next[c])
  }

  /** State t is the child of state s on byte c. */
  ghost predicate Child(words: seq<Bytes>, s: int, c: Byte, t: int) {
    0 <= s < |words| && 0 <= t < |words| && words[t] == words[s] + [c]
  }

  /** The states met so far are the children over opened transitions. */
  ghost predicate SeenOk(words: seq<Bytes>, g: Progress, seen: set<int>) {
    forall s, c: Byte, t :: Child(words, s, c, t) ==> (t in seen <==> Opened(g, s, c))
  }

  /** Failure state and longest pattern of a state that has been met. */
  ghost predicate Settled(pats: seq<Bytes>, words: seq<Bytes>, t: int, row: Row)
    requires 0 <= t < |words|
  {
    && words[t] != [] && 0 <= row.fail < |words| && words[row.fail] == FailWord(pats, words[t])
    && Best(pats, words[t], row.longest)
  }

  ghost predicate StatesOk(pats: seq<Bytes>, tab: seq<Row>, words: seq<Bytes>, seen: set<int>)
    requires |words| <= |tab|
  {
    && (forall t :: t in seen ==> 0 < t < |words|)
    && (forall t ::
          0 <= t < |words| ==>
            if t in seen then Settled(pats, words, t, tab[t]) else Own(pats, words[t], tab[t].longest))
  }

  /** The queue holds the states met and not dequeued, shallow ones first, over at most two depths. */
  ghost predicate QueueOk(words: seq<Bytes>, g: Progress, seen: set<int>, q: seq<int>) {
    && (forall t :: t in seen ==> 0 < t < |words|)
    && (forall t :: t in q <==> t in seen && t !in g.done && t != g.r)
    && (forall a :: 0 <= a < |q| ==> 0 < q[a] < |words|)
    && (forall a, b :: 0 <= a < b < |q| ==> q[a] != q[b] && |words[q[a]]| <= |words[q[b]]| <= |words[q[a]]| + 1)
    && g.done <= seen
  }

  // ----- a dequeued state is the shallowest that is not complete

  lemma Parent(pats: seq<Bytes>, words: seq<Bytes>, t: int) returns (s: int, c: Byte)
    requires Numbered(words) && Covers(pats, words) && 0 < t < |words|
    ensures Child(words, s, c, t)
  {
    var w := words[t];
    assert w != [];
    c := w[|w| - 1];
    var v := w[..|w| - 1];
    assert w == v + [c];
    assert w in words;
    WordPrefix(pats, v, c);
    assert v in words;
    s :| 0 <= s < |words| && words[s] == v;
  }

  /** With all queued states at depth d or more, everything shallower is complete. */
  lemma {:induction false} ShallowDone(pats: seq<Bytes>, words: seq<Bytes>, g: Progress, seen: set<int>, q: seq<int>,
      d: nat, t: int)
    requires Numbered(words) && Covers(pats, words) && SeenOk(words, g, seen) && QueueOk(words, g, seen, q) && g.r == -1
    requires forall x :: x in q ==> |words[x]| >= d
    requires 0 < t < |words| && |words[t]| < d
    ensures t in g.done
    decreases |words[t]|
  {
    var s, c := Parent(pats, words, t);
    if s != 0 { ShallowDone(pats, words, g, seen, q, d, s); }
    assert t in seen;
  }

  // ----- a transition that exists: the child is met

  function Settle(tab: seq<Row>, pats: seq<Bytes>, s: int, n: int): (r: seq<Row>)
    requires 0 <= s < |tab| && 0 <= n < |tab| && tab[s].longest < |pats| && tab[n].longest < |pats|
  {
    var cur, ix := tab[s].longest, tab[n].longest;
    var row := tab[s].(fail := n);
    tab[s := if ix != -1 && (cur < 0 || (0 <= ix && |pats[cur]| < |pats[ix]|)) then row.(longest := ix) else row]
  }

  lemma SettleChild(pats: seq<Bytes>, tab: seq<Row>, words: seq<Bytes>, r: int, c: Byte, s: int, n: int, tab': seq<Row>)
    requires |words| <= |tab| && Child(words, r, c, s) && words[r] != [] && 0 <= n < |words| && n != s
    requires Own(pats, words[s], tab[s].longest) && Best(pats, words[n], tab[n].longest)
    requires words[n] == Longest(pats, FailWord(pats, words[r]) + [c])
    requires tab' == Settle(tab, pats, s, n)
    ensures Settled(pats, words, s, tab'[s])
  {
    FailStep(pats, words[r], c);
    BestFromFail(pats, words[s], tab[s].longest, tab[n].longest);
  }

  lemma ChildRows(pats: seq<Bytes>, tab: seq<Row>, words: seq<Bytes>, g: Progress, s: int, tab': seq<Row>)
    requires Wide(tab) && |words| <= |tab| && RowsOk(pats, tab, words, g) && Covers(pats, words)
    requires 0 <= g.r < |words| && 0 <= g.i < 256 && s == tab[g.r].next[g.i] && s != FAIL && !Opened(g, g.r, g.i)
    requires |tab'| == |tab| && forall t :: 0 <= t < |tab| ==> tab'[t].next == tab[t].next
    ensures Child(words, g.r, g.i, s) && Wide(tab') && RowsOk(pats, tab', words, g.(i := g.i + 1))
  {
    var r, i: Byte := g.r, g.i;
    assert TrieStep(words, r, i, tab[r].next[i]);
    LongestOfWord(pats, words[r] + [i]);
    forall t, c: Byte | 0 <= t < |words|
      ensures
        if Opened(g.(i := i + 1), t, c) then DfaStep(pats, words, t, c, tab'[t].next[c])
        else TrieStep(words, t, c, tab'[t].next[c])
    {
      assert
        if Opened(g, t, c) then DfaStep(pats, words, t, c, tab[t].next[c]) else TrieStep(words, t, c, tab[t].next[c]);
    }
  }

  lemma ChildSeen(words: seq<Bytes>, g: Progress, seen: set<int>, s: int)
    requires Numbered(words) && SeenOk(words, g, seen) && 0 <= g.i < 256 && Child(words, g.r, g.i, s)
    ensures SeenOk(words, g.(i := g.i + 1), seen + {s})
  {
    forall u, c: Byte, t | Child(words, u, c, t) ensures t in seen + {s} <==> Opened(g.(i := g.i + 1), u, c) {
      assert t in seen <==> Opened(g, u, c);
      if t == s { SameParent(words, g.r, g.i, u, c, s); }
      assert u == g.r && c == g.i ==> words[t] == words[s];
    }
  }

  lemma SameParent(words: seq<Bytes>, s: int, c: Byte, u: int, d: Byte, t: int)
    requires Numbered(words) && Child(words, s, c, t) && Child(words, u, d, t)
    ensures s == u && c == d
  {
    assert (words[s] + [c])[..|words[t]| - 1] == words[s] && (words[u] + [d])[..|words[t]| - 1] == words[u];
    assert (words[s] + [c])[|words[t]| - 1] == c && (words[u] + [d])[|words[t]| - 1] == d;
  }

  /** A transition that is missing opens without a new state. */
  lemma NothingSeen(words: seq<Bytes>, g: Progress, seen: set<int>)
    requires SeenOk(words, g, seen) && 0 <= g.r < |words| && 0 <= g.i < 256 && words[g.r] + [g.i] !in words
    ensures SeenOk(words, g.(i := g.i + 1), seen)
  {
    forall u, c: Byte, t | Child(words, u, c, t) ensures t in seen <==> Opened(g.(i := g.i + 1), u, c) {
      assert t in seen <==> Opened(g, u, c);
      assert words[t] in words;
    }
  }

  lemma FillRows(pats: seq<Bytes>, tab: seq<Row>, words: seq<Bytes>, g: Progress, n: int, tab': seq<Row>)
    requires Wide(tab) && |words| <= |tab| && RowsOk(pats, tab, words, g) && Covers(pats, words)
    requires 0 < g.r < |words| && 0 <= g.i < 256 && words[g.r] != [] && words[g.r] + [g.i] !in words
    requires 0 <= n < |words| && words[n] == Longest(pats, FailWord(pats, words[g.r]) + [g.i])
    requires tab' == SetNext(tab, g.r, g.i, n)
    ensures Wide(tab') && RowsOk(pats, tab', words, g.(i := g.i + 1))
  {
    hide Longest, FailWord, IsWord;
    MissingStep(pats, words[g.r], g.i);
    assert DfaStep(pats, words, g.r, g.i, n);
    forall t, c: Byte | 0 <= t < |words|
      ensures
        if Opened(g.(i := g.i + 1), t, c) then DfaStep(pats, words, t, c, tab'[t].next[c])
        else TrieStep(words, t, c, tab'[t].next[c])
    {
      assert
        if Opened(g, t, c) then DfaStep(pats, words, t, c, tab[t].next[c]) else TrieStep(words, t, c, tab[t].next[c]);
    }
  }

  /** The transition of the failure state is already there, and it leads to a state that has been met. */
  lemma FailTransition(pats: seq<Bytes>, tab: seq<Row>, words: seq<Bytes>, g: Progress, seen: set<int>, c: Byte)
    requires Wide(tab) && |words| <= |tab| && RowsOk(pats, tab, words, g) && SeenOk(words, g, seen) && Numbered(words)
    requires Covers(pats, words)
    requires 0 < g.r < |words| && Settled(pats, words, g.r, tab[g.r])
    requires forall t :: 0 < t < |words| && |words[t]| < |words[g.r]| ==> t in g.done
    ensures var n := tab[tab[g.r].fail].next[c];
      && 0 <= n < |words| && words[n] == Longest(pats, FailWord(pats, words[g.r]) + [c]) && |words[n]| <= |words[g.r]|
      && (n == 0 || n in seen)
  {
    var f := tab[g.r].fail;
    var n := tab[f].next[c];
    assert Opened(g, f, c);
    assert DfaStep(pats, words, f, c, n);
    if n != 0 {
      var s, d := Parent(pats, words, n);
      assert Opened(g, s, d);
    }
  }

  // ----- state 0

  /** After the missing transitions of state 0 were turned back to it, its row is complete. */
  lemma RootRow(pats: seq<Bytes>, tab: seq<Row>, words: seq<Bytes>, tab': seq<Row>)
    requires Wide(tab) && Wide(tab') && Numbered(words) && Covers(pats, words) && TrieRows(tab, words)
    requires |tab'| == |tab|
    requires forall c: Byte :: tab'[0].next[c] == if tab[0].next[c] == FAIL then 0 else tab[0].next[c]
    requires forall s :: 0 < s < |words| ==> tab'[s].next == tab[s].next
    ensures RowsOk(pats, tab', words, Progress({}, -1, 0))
  {
    forall s, c: Byte | 0 <= s < |words|
      ensures
        if Opened(Progress({}, -1, 0), s, c) then DfaStep(pats, words, s, c, tab'[s].next[c])
        else TrieStep(words, s, c, tab'[s].next[c])
    {
      assert TrieStep(words, s, c, tab[s].next[c]);
      if s == 0 {
        assert [] + [c] == [c] && [c][1..] == [];
        assert Longest(pats, []) == [];
      }
    }
  }

  /** The children of state 0 over bytes below i, and no other states, have been met. */
  ghost predicate FirstSeen(words: seq<Bytes>, i: int, seen: set<int>) {
    forall s, c: Byte, t :: Child(words, s, c, t) ==> (t in seen <==> s == 0 && c < i)
  }

  lemma FirstChild(words: seq<Bytes>, i: Byte, seen: set<int>, s: int)
    requires Numbered(words) && FirstSeen(words, i, seen) && Child(words, 0, i, s)
    ensures FirstSeen(words, i + 1, seen + {s}) && s !in seen
  {
    assert s !in seen;
    forall u, c: Byte, t | Child(words, u, c, t) ensures t in seen + {s} <==> u == 0 && c < i + 1 {
      assert t in seen <==> u == 0 && c < i;
      if t == s { SameParent(words, 0, i, u, c, s); }
      assert u == 0 && c == i ==> words[t] == words[s];
    }
  }

  lemma FirstNoChild(words: seq<Bytes>, i: Byte, seen: set<int>)
    requires Numbered(words) && FirstSeen(words, i, seen) && [i] !in words
    ensures FirstSeen(words, i + 1, seen)
  {
    forall u, c: Byte, t | Child(words, u, c, t) ensures t in seen <==> u == 0 && c < i + 1 {
      assert t in seen <==> u == 0 && c < i;
      assert words[t] in words && (u == 0 ==> words[t] == [c]);
    }
  }

  lemma SettleFirst(pats: seq<Bytes>, words: seq<Bytes>, c: Byte, s: int, row: Row)
    requires Numbered(words) && Child(words, 0, c, s) && Own(pats, words[s], row.longest) && row.fail == 0
    requires forall i :: 0 <= i < |pats| ==> pats[i] != []
    ensures Settled(pats, words, s, row)
  {
    hide Best, FailWord, IsWord;
    assert words[s] == [c];
    assert |FailWord(pats, words[s])| == 0;
    EndsNothing(pats);
    BestFromFail(pats, words[s], row.longest, -1);
  }

  lemma EndsNothing(pats: seq<Bytes>)
    requires forall i :: 0 <= i < |pats| ==> pats[i] != []
    ensures Best(pats, [], -1)
  {
  }

  // ----- taking a state off the queue, and being done with it

  lemma Dequeue(pats: seq<Bytes>, words: seq<Bytes>, g: Progress, seen: set<int>, q: seq<int>, g': Progress)
    requires Numbered(words) && Covers(pats, words) && SeenOk(words, g, seen) && QueueOk(words, g, seen, q)
    requires g.r == -1 && q != []
    requires g' == Progress(g.done, q[0], 0)
    ensures SeenOk(words, g', seen) && QueueOk(words, g', seen, q[1..]) && q[0] in seen && q[0] !in g.done
    ensures 0 < q[0] < |words|
    ensures forall t :: 0 < t < |words| && |words[t]| < |words[q[0]]| ==> t in g.done
    ensures forall x :: x in q[1..] ==> |words[q[0]]| <= |words[x]| <= |words[q[0]]| + 1
  {
    assert q[0] in q;
    forall t | 0 < t < |words| && |words[t]| < |words[q[0]]| ensures t in g.done {
      ShallowDone(pats, words, g, seen, q, |words[q[0]]|, t);
    }
    forall s, c: Byte, t | Child(words, s, c, t)
      ensures t in seen <==> Opened(g', s, c)
    {
      assert t in seen <==> Opened(g, s, c);
    }
  }

  lemma DequeueRows(pats: seq<Bytes>, tab: seq<Row>, words: seq<Bytes>, g: Progress, g': Progress)
    requires Wide(tab) && |words| <= |tab| && RowsOk(pats, tab, words, g)
    requires forall s, c: Byte :: Opened(g', s, c) <==> Opened(g, s, c)
    ensures RowsOk(pats, tab, words, g')
  {
  }

  lemma Finish(words: seq<Bytes>, g: Progress, seen: set<int>, q: seq<int>, g': Progress)
    requires SeenOk(words, g, seen) && QueueOk(words, g, seen, q) && g.r in seen && g.i == 256
    requires g' == Progress(g.done + {g.r}, -1, 0)
    ensures SeenOk(words, g', seen) && QueueOk(words, g', seen, q)
    ensures forall s, c: Byte :: Opened(g', s, c) <==> Opened(g, s, c)
  {
    forall s, c: Byte, t | Child(words, s, c, t)
      ensures t in seen <==> Opened(g', s, c)
    {
      assert t in seen <==> Opened(g, s, c);
    }
  }

  lemma Enqueue(words: seq<Bytes>, g: Progress, seen: set<int>, q: seq<int>, s: int)
    requires QueueOk(words, g, seen, q) && 0 < s < |words| && s !in seen && s != g.r && 0 < g.r < |words|
    requires |words[s]| == |words[g.r]| + 1
    requires forall x :: x in q ==> |words[g.r]| <= |words[x]| <= |words[g.r]| + 1
    ensures QueueOk(words, g.(i := g.i + 1), seen + {s}, q + [s])
    ensures forall x :: x in q + [s] ==> |words[g.r]| <= |words[x]| <= |words[g.r]| + 1
  {
    forall a | 0 <= a < |q| ensures q[a] in q {}
  }

  /** An empty queue means that everything is complete. */
  lemma AllDone(pats: seq<Bytes>, words: seq<Bytes>, g: Progress, seen: set<int>, t: int)
    requires Numbered(words) && Covers(pats, words) && SeenOk(words, g, seen) && QueueOk(words, g, seen, [])
    requires g.r == -1 && 0 < t < |words|
    ensures t in g.done && t in seen
  {
    ShallowDone(pats, words, g, seen, [], |words[t]| + 1, t);
  }

  lemma SeenIsBounded(words: seq<Bytes>, done: set<int>)
    requires forall t :: t in done ==> 0 < t < |words|
    ensures |done| <= |words|
  {
    Bounded(done, |words|);
  }

  lemma {:induction false} Bounded(done: set<int>, n: nat)
    requires forall t :: t in done ==> 0 < t < n
    ensures |done| <= n
  {
    if n > 0 {
      Bounded(done - {n - 1}, n - 1);
      if n - 1 in done { assert done == done - {n - 1} + {n - 1}; } else { assert done == done - {n - 1}; }
    } else {
      assert forall t :: t !in done;
      assert done == {};
    }
  }

  // ----- the finished table

  /** The table is the automaton of the patterns. */
  ghost predicate Automaton(pats: seq<Bytes>, tab: seq<Row>, words: seq<Bytes>) {
    && 0 < |words| <= |tab| && Wide(tab) && words[0] == []
    && (forall s, c: Byte :: 0 <= s < |words| ==> DfaStep(pats, words, s, c, tab[s].next[c]))
    && (forall s :: 0 <= s < |words| ==> Best(pats, words[s], tab[s].longest))
  }

  lemma Finished(pats: seq<Bytes>, tab: seq<Row>, words: seq<Bytes>, g: Progress, seen: set<int>)
    requires Wide(tab) && Numbered(words) && Covers(pats, words) && |words| <= |tab|
    requires RowsOk(pats, tab, words, g) && SeenOk(words, g, seen) && StatesOk(pats, tab, words, seen)
    requires QueueOk(words, g, seen, []) && g.r == -1
    requires forall i :: 0 <= i < |pats| ==> pats[i] != []
    ensures Automaton(pats, tab, words)
  {
    forall s, c: Byte | 0 <= s < |words| ensures DfaStep(pats, words, s, c, tab[s].next[c]) {
      if s > 0 { AllDone(pats, words, g, seen, s); }
      assert Opened(g, s, c);
    }
    forall s | 0 <= s < |words| ensures Best(pats, words[s], tab[s].longest) {
      if s > 0 { AllDone(pats, words, g, seen, s); }
    }
  }

  // ----- running the finished table

  /** The state after reading t. */
  function Run(tab: seq<Row>, s: int, t: Bytes): (r: int)
    decreases |t|
  {
    if t == [] then s
    else
      var u := Run(tab, s, t[..|t| - 1]);
      if 0 <= u < |tab| && |tab[u].next| == ALPHABET then tab[u].next[t[|t| - 1]] else -1
  }

  /** From state 0 any text leads to the state of its longest suffix that begins a pattern, and that state names the
      longest pattern the text ends with. */
  lemma {:induction false} RunIsLongest(pats: seq<Bytes>, tab: seq<Row>, words: seq<Bytes>, t: Bytes)
    requires Automaton(pats, tab, words)
    ensures var s := Run(tab, 0, t); 0 <= s < |words| && words[s] == Longest(pats, t) && Best(pats, t, tab[s].longest)
  {
    hide Longest, IsWord, Best, Automaton, DfaStep;
    if t == [] {
      StartState(pats, tab, words);
    } else {
      var v, c := t[..|t| - 1], t[|t| - 1];
      RunIsLongest(pats, tab, words, v);
      assert v + [c] == t;
      ReadByte(pats, tab, words, Run(tab, 0, v), v, c);
    }
  }

  lemma StartState(pats: seq<Bytes>, tab: seq<Row>, words: seq<Bytes>)
    requires Automaton(pats, tab, words)
    ensures 0 < |words| <= |tab| && words[0] == Longest(pats, []) && Best(pats, [], tab[0].longest)
  {
  }

  /** One byte: from the state of v to the state of v + [c]. */
  lemma ReadByte(pats: seq<Bytes>, tab: seq<Row>, words: seq<Bytes>, s: int, v: Bytes, c: Byte)
    requires Automaton(pats, tab, words) && 0 <= s < |words| && words[s] == Longest(pats, v)
    ensures |words| <= |tab| && |tab[s].next| == ALPHABET
    ensures
      var n := tab[s].next[c];
      0 <= n < |words| && words[n] == Longest(pats, v + [c]) && Best(pats, v + [c], tab[n].longest)
  {
    hide Longest, IsWord, Best;
    LongestStep(pats, v, c);
    assert DfaStep(pats, words, s, c, tab[s].next[c]);
    BestOfLongest(pats, v + [c], tab[tab[s].next[c]].longest);
  }
}
