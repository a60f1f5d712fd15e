/** Strings, pattern prefixes and longest suffixes: what the Aho-Corasick table (tm_dirty/acsm.c) is about. */
module AcsmWords {

  type Byte = x: int | 0 <= x < 256
  type Bytes = seq<Byte>

  predicate IsPrefix(w: Bytes, p: Bytes) { |w| <= |p| && p[..|w|] == w }

  predicate IsSuffix(w: Bytes, t: Bytes) { |w| <= |t| && t[|t| - |w|..] == w }

  /** w is empty or begins one of the patterns: these are the words that have states. */
  ghost predicate IsWord(pats: seq<Bytes>, w: Bytes) {
    w == [] || exists i :: 0 <= i < |pats| && IsPrefix(w, pats[i])
  }

  lemma WordPrefix(pats: seq<Bytes>, w: Bytes, c: Byte)
    requires IsWord(pats, w + [c])
    ensures IsWord(pats, w)
  {
    var i :| 0 <= i < |pats| && IsPrefix(w + [c], pats[i]);
    assert pats[i][..|w|] == pats[i][..|w| + 1][..|w|] == w;
    assert IsPrefix(w, pats[i]);
  }

  /** The longest suffix of u that is a word. */
  ghost function Longest(pats: seq<Bytes>, u: Bytes): (w: Bytes)
    ensures IsWord(pats, w) && IsSuffix(w, u)
  {
    if IsWord(pats, u) then u
    else
      var w := Longest(pats, u[1..]);
      assert u[|u| - |w|..] == u[1..][|u| - 1 - |w|..];
      w
  }

  lemma {:induction false} LongestIsLongest(pats: seq<Bytes>, u: Bytes, v: Bytes)
    requires IsWord(pats, v) && IsSuffix(v, u)
    ensures |v| <= |Longest(pats, u)| && IsSuffix(v, Longest(pats, u))
  {
    if !IsWord(pats, u) {
      assert u[0..] == u;
      assert u[1..][|u| - 1 - |v|..] == u[|u| - |v|..];
      LongestIsLongest(pats, u[1..], v);
    }
  }

  lemma LongestOfWord(pats: seq<Bytes>, w: Bytes)
    requires IsWord(pats, w)
    ensures Longest(pats, w) == w
  {
  }

  /** Reading a byte: only the longest word read so far matters. */
  lemma {:induction false} LongestStep(pats: seq<Bytes>, u: Bytes, c: Byte)
    ensures Longest(pats, u + [c]) == Longest(pats, Longest(pats, u) + [c])
  {
    if !IsWord(pats, u) {
      if IsWord(pats, u + [c]) { WordPrefix(pats, u, c); }
      assert (u + [c])[1..] == u[1..] + [c];
      LongestStep(pats, u[1..], c);
    }
  }

  /** The failure word: the longest proper suffix that is a word. */
  ghost function FailWord(pats: seq<Bytes>, w: Bytes): (f: Bytes)
    requires w != []
    ensures |f| < |w| && IsWord(pats, f)
  {
    Longest(pats, w[1..])
  }

  /** A missing transition is the one of the failure word. */
  lemma MissingStep(pats: seq<Bytes>, w: Bytes, c: Byte)
    requires w != [] && !IsWord(pats, w + [c])
    ensures Longest(pats, w + [c]) == Longest(pats, FailWord(pats, w) + [c])
  {
    assert (w + [c])[1..] == w[1..] + [c];
    LongestStep(pats, w[1..], c);
  }

  /** The failure word of a longer word is reached from the failure word of its parent. */
  lemma FailStep(pats: seq<Bytes>, w: Bytes, c: Byte)
    requires w != []
    ensures FailWord(pats, w + [c]) == Longest(pats, FailWord(pats, w) + [c])
  {
    assert (w + [c])[1..] == w[1..] + [c];
    LongestStep(pats, w[1..], c);
  }

  // ----- the longest pattern that ends a text

  /** ix names the longest pattern that is a suffix of u, -1 when none is. */
  ghost predicate Best(pats: seq<Bytes>, u: Bytes, ix: int) {
    && -1 <= ix < |pats|
    && (ix == -1 ==> forall i :: 0 <= i < |pats| ==> !IsSuffix(pats[i], u))
    && (ix >= 0 ==>
          IsSuffix(pats[ix], u) && forall i :: 0 <= i < |pats| && IsSuffix(pats[i], u) ==> |pats[i]| <= |pats[ix]|)
  }

  lemma SuffixOfSuffix(a: Bytes, b: Bytes, c: Bytes)
    requires IsSuffix(b, c) && |a| <= |b|
    ensures IsSuffix(a, b) <==> IsSuffix(a, c)
  {
    assert b[|b| - |a|..] == c[|c| - |b|..][|b| - |a|..] == c[|c| - |a|..];
  }

  /** Patterns at the end of a text are patterns at the end of its longest word. */
  lemma BestOfLongest(pats: seq<Bytes>, u: Bytes, ix: int)
    requires Best(pats, Longest(pats, u), ix)
    ensures Best(pats, u, ix)
  {
    var w := Longest(pats, u);
    forall i | 0 <= i < |pats| ensures IsSuffix(pats[i], u) <==> IsSuffix(pats[i], w) {
      if IsSuffix(pats[i], u) {
        assert IsPrefix(pats[i], pats[i]);
        LongestIsLongest(pats, u, pats[i]);
      } else if IsSuffix(pats[i], w) {
        SuffixOfSuffix(pats[i], w, u);
      }
    }
  }

  /** A pattern at the end of w is w itself or is at the end of the failure word. */
  lemma BestFromFail(pats: seq<Bytes>, w: Bytes, own: int, ix: int)
    requires w != [] && Best(pats, FailWord(pats, w), ix)
    requires -1 <= own < |pats| && (own >= 0 ==> pats[own] == w)
    requires own == -1 ==> forall i :: 0 <= i < |pats| ==> pats[i] != w
    ensures Best(pats, w, if own >= 0 then own else ix)
  {
    if own == -1 {
      BestOfLongest(pats, w[1..], ix);
      forall i | 0 <= i < |pats| ensures IsSuffix(pats[i], w) <==> IsSuffix(pats[i], w[1..]) {
        assert IsSuffix(w[1..], w);
        if |pats[i]| < |w| { SuffixOfSuffix(pats[i], w[1..], w); }
      }
    }
  }

  // ----- occurrences

  /** Some pattern occurs in t, ending at e. */
  ghost predicate EndsAt(pats: seq<Bytes>, t: Bytes, e: int) {
    0 <= e <= |t| && exists i :: 0 <= i < |pats| && IsSuffix(pats[i], t[..e])
  }

  /** Pattern p is the substring of t from a on. */
  ghost predicate OccursAt(p: Bytes, t: Bytes, a: int) { 0 <= a <= a + |p| <= |t| && t[a..a + |p|] == p }

  /** Some pattern is a substring of t. */
  ghost predicate Occurs(pats: seq<Bytes>, t: Bytes) {
    exists i, a :: 0 <= i < |pats| && OccursAt(pats[i], t, a)
  }

  lemma OccursMeansEnds(pats: seq<Bytes>, t: Bytes)
    ensures Occurs(pats, t) <==> exists e :: EndsAt(pats, t, e)
  {
    if Occurs(pats, t) {
      var i, a :| 0 <= i < |pats| && OccursAt(pats[i], t, a);
      assert t[..a + |pats[i]|][a..] == pats[i];
      assert IsSuffix(pats[i], t[..a + |pats[i]|]);
      assert EndsAt(pats, t, a + |pats[i]|);
    }
    if e :| EndsAt(pats, t, e) {
      var i :| 0 <= i < |pats| && IsSuffix(pats[i], t[..e]);
      assert t[e - |pats[i]|..e] == t[..e][e - |pats[i]|..];
      assert OccursAt(pats[i], t, e - |pats[i]|);
    }
  }
}
