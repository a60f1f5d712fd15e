/** The state table while the patterns are added (tm_dirty/acsm.c: AddPatternStates, AddMatchListEntry). */
module AcsmTrie {
  import opened AcsmWords

  const ALPHABET: nat := 256
  const FAIL: int := -1

  /** ACSM_STATETABLE. */
  datatype Row = Row(next: seq<int>, fail: int, longest: int)

  /** Every row has a transition for every byte. */
  ghost predicate Wide(tab: seq<Row>) { forall s :: 0 <= s < |tab| ==> |tab[s].next| == ALPHABET }

  /** words[s] is the string that leads from state 0 to state s. */
  ghost predicate Numbered(words: seq<Bytes>) {
    && |words| > 0 && words[0] == []
    && (forall s, t :: 0 <= s < |words| && 0 <= t < |words| && words[s] == words[t] ==> s == t)
  }

  /** The states are exactly the words of the patterns. */
  ghost predicate Covers(pats: seq<Bytes>, words: seq<Bytes>) { forall w :: w in words <==> IsWord(pats, w) }

  /** n is the trie transition of state s on c. */
  ghost predicate TrieStep(words: seq<Bytes>, s: int, c: Byte, n: int)
    requires 0 <= s < |words|
  {
    if n == FAIL then words[s] + [c] !in words else 0 <= n < |words| && words[n] == words[s] + [c]
  }

  ghost predicate TrieRows(tab: seq<Row>, words: seq<Bytes>)
    requires Wide(tab)
  {
    |words| <= |tab| && forall s, c: Byte :: 0 <= s < |words| ==> TrieStep(words, s, c, tab[s].next[c])
  }

  /** ix names a pattern equal to w, -1 when there is none. */
  ghost predicate Own(pats: seq<Bytes>, w: Bytes, ix: int) {
    -1 <= ix < |pats| && (ix >= 0 ==> pats[ix] == w) && (ix == -1 ==> forall i :: 0 <= i < |pats| ==> pats[i] != w)
  }

  ghost predicate Owned(tab: seq<Row>, words: seq<Bytes>, pats: seq<Bytes>) {
    |words| <= |tab| && forall s :: 0 <= s < |words| ==> Own(pats, words[s], tab[s].longest)
  }

  /** The rows not used yet, up to m, are blank. */
  ghost predicate Blank(tab: seq<Row>, n: nat, m: nat)
    requires Wide(tab)
  {
    m <= |tab| && forall s :: n <= s < m ==> tab[s].longest == -1 && forall c: Byte :: tab[s].next[c] == FAIL
  }

  function SetNext(tab: seq<Row>, s: int, c: Byte, n: int): (r: seq<Row>)
    requires 0 <= s < |tab| && |tab[s].next| == ALPHABET
  {
    tab[s := tab[s].(next := tab[s].next[c := n])]
  }

  // ----- a new state for words[s] + [c]

  lemma AddWordNumbered(words: seq<Bytes>, s: int, c: Byte)
    requires Numbered(words) && 0 <= s < |words| && words[s] + [c] !in words
    ensures Numbered(words + [words[s] + [c]])
  {
  }

  lemma AddWordRows(tab: seq<Row>, words: seq<Bytes>, pats: seq<Bytes>, s: int, c: Byte, m: nat, r: seq<Row>,
      words': seq<Bytes>)
    requires Wide(tab) && Numbered(words) && TrieRows(tab, words) && Covers(pats, words) && Blank(tab, |words|, m)
    requires 0 <= s < |words| < m && words[s] + [c] !in words && r == SetNext(tab, s, c, |words|)
    requires words' == words + [words[s] + [c]]
    ensures Wide(r) && TrieRows(r, words') && Blank(r, |words'|, m)
  {
    var n := |words|;
    forall t, d: Byte | 0 <= t < |words'| ensures TrieStep(words', t, d, r[t].next[d]) {
      if t == n {
        if words'[n] + [d] in words {
          WordPrefix(pats, words[s] + [c], d);
          assert false;
        }
        assert |words'[n] + [d]| != |words'[n]|;
      } else {
        assert TrieStep(words, t, d, tab[t].next[d]);
        if words[t] + [d] == words[s] + [c] {
          assert (words[t] + [d])[..|words[t]|] == words[t] && (words[s] + [c])[..|words[s]|] == words[s];
          assert (words[t] + [d])[|words[t]|] == d && (words[s] + [c])[|words[s]|] == c;
          assert t == s && d == c;
        }
      }
    }
  }

  lemma AddWordOwned(tab: seq<Row>, words: seq<Bytes>, pats: seq<Bytes>, s: int, c: Byte, m: nat, r: seq<Row>)
    requires Wide(tab) && Owned(tab, words, pats) && Blank(tab, |words|, m) && 0 <= s < |words| < m
    requires r == SetNext(tab, s, c, |words|)
    requires forall i :: 0 <= i < |pats| ==> pats[i] != words[s] + [c]
    ensures Owned(r, words + [words[s] + [c]], pats)
  {
  }

  lemma NewWordIsNoPattern(ps: seq<Bytes>, q: Bytes, words: seq<Bytes>, w: Bytes)
    requires Covers(ps + [q], words) && w !in words
    ensures forall i :: 0 <= i < |ps| ==> ps[i] != w
  {
    forall i | 0 <= i < |ps| ensures ps[i] != w { assert IsPrefix((ps + [q])[i], (ps + [q])[i]); }
  }

  /** One more byte of the last pattern is covered. */
  lemma CoversMore(ps: seq<Bytes>, q: Bytes, c: Byte, words: seq<Bytes>, words': seq<Bytes>)
    requires Covers(ps + [q], words)
    requires words' == if q + [c] in words then words else words + [q + [c]]
    ensures Covers(ps + [q + [c]], words')
  {
    forall w ensures IsWord(ps + [q + [c]], w) <==> IsWord(ps + [q], w) || w == q + [c] {
      WordsOfSnoc(ps, q, w);
      WordsOfSnoc(ps, q + [c], w);
      if IsPrefix(w, q + [c]) && |w| <= |q| { assert (q + [c])[..|w|] == q[..|w|]; }
      if IsPrefix(w, q) { assert (q + [c])[..|w|] == q[..|w|]; }
      assert (q + [c])[..|q| + 1] == q + [c];
    }
  }

  lemma WordsOfSnoc(ps: seq<Bytes>, q: Bytes, w: Bytes)
    ensures IsWord(ps + [q], w) <==> IsWord(ps, w) || IsPrefix(w, q)
  {
    if i :| 0 <= i < |ps + [q]| && IsPrefix(w, (ps + [q])[i]) {
      if i < |ps| { assert IsPrefix(w, ps[i]); }
    }
    if i :| 0 <= i < |ps| && IsPrefix(w, ps[i]) { assert IsPrefix(w, (ps + [q])[i]); }
    if IsPrefix(w, q) { assert IsPrefix(w, (ps + [q])[|ps|]); }
  }

  lemma CoversEmpty(ps: seq<Bytes>, words: seq<Bytes>)
    requires Covers(ps, words)
    ensures Covers(ps + [[]], words)
  {
    forall w ensures IsWord(ps + [[]], w) <==> IsWord(ps, w) { WordsOfSnoc(ps, [], w); }
  }

  /** AddMatchListEntry at the state of the whole pattern. */
  lemma OwnedMore(tab: seq<Row>, words: seq<Bytes>, ps: seq<Bytes>, p: Bytes, s: int, r: seq<Row>)
    requires Owned(tab, words, ps) && Numbered(words) && 0 <= s < |words| && words[s] == p
    requires r == if tab[s].longest < 0 then tab[s := tab[s].(longest := |ps|)] else tab
    ensures Owned(r, words, ps + [p])
  {
    forall t | 0 <= t < |words| ensures Own(ps + [p], words[t], r[t].longest) {
      assert Own(ps, words[t], tab[t].longest);
    }
  }
}
