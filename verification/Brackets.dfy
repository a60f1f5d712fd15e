/** Blanking out what stands in angle brackets (tm_dirty/utf8_punc.c: replace_char_in_angle_brackets). */
module Brackets {
  import opened AcsmWords

  const OPEN: Byte := 0x3C
  const CLOSE: Byte := 0x3E
  const BLANK: Byte := 0x2B
  const MAXOPEN: nat := 65536

  /** Openings minus closings in s[lo..hi]. */
  function Net(s: Bytes, lo: nat, hi: nat): int
    requires lo <= hi <= |s|
  {
    if lo == hi then 0 else Net(s, lo, hi - 1) + if s[hi - 1] == OPEN then 1 else if s[hi - 1] == CLOSE then -1 else 0
  }

  /** The brackets at a and b belong together: between them every closing has its opening and the other way round. */
  ghost predicate Pair(s: Bytes, a: int, b: int) {
    && 0 <= a < b < |s| && s[a] == OPEN && s[b] == CLOSE
    && NoExcess(s, a + 1, b) && Net(s, a + 1, b) == 0
  }

  /** No closing in s[lo..hi] is without its opening there. */
  ghost predicate NoExcess(s: Bytes, lo: nat, hi: nat)
    requires hi <= |s|
  {
    forall j :: lo <= j <= hi ==> Net(s, lo, j) >= 0
  }

  ghost predicate Inside(s: Bytes, n: int, i: int) { exists a, b :: Pair(s, a, b) && b < n && a <= i <= b }

  // ----- the stack of open brackets

  /** The openings before i that no closing before i has used up. */
  function Stack(s: Bytes, i: nat): (r: seq<nat>)
    requires i <= |s|
    ensures forall x :: 0 <= x < |r| ==> r[x] < i && s[r[x]] == OPEN
  {
    if i == 0 then []
    else
      var r := Stack(s, i - 1);
      if s[i - 1] == OPEN then r + [i - 1]
      else if s[i - 1] == CLOSE && r != [] then r[..|r| - 1]
      else r
  }

  /** What the byte b at i makes of the stack. */
  predicate Becomes(r: seq<nat>, t: seq<nat>, b: Byte, i: nat) {
    t == if b == OPEN then r + [i] else if b == CLOSE && r != [] then r[..|r| - 1] else r
  }

  lemma StackStep(s: Bytes, i: nat)
    requires i < |s|
    ensures Becomes(Stack(s, i), Stack(s, i + 1), s[i], i)
  {
  }

  lemma NetStep(s: Bytes, lo: nat, hi: nat)
    requires lo <= hi < |s|
    ensures Net(s, lo, hi + 1) == Net(s, lo, hi) + if s[hi] == OPEN then 1 else if s[hi] == CLOSE then -1 else 0
    ensures Net(s, lo, lo) == 0
  {
  }

  /** While a is on the stack, the stack is what it was at a, then a, then the openings since that are still open. */
  lemma {:induction false} StackAbove(s: Bytes, a: nat, j: nat) returns (x: nat)
    requires a < j <= |s| && s[a] == OPEN && a in Stack(s, j)
    ensures x == |Stack(s, a)| && |Stack(s, j)| > x && Stack(s, j)[x] == a && |Stack(s, j)| == x + 1 + Net(s, a + 1, j)
    ensures NoExcess(s, a + 1, j)
    decreases j
  {
    hide Stack, Net, NoExcess, Becomes;
    StackStep(s, j - 1);
    if j == a + 1 {
      x := |Stack(s, a)|;
      OnTop(Stack(s, a), Stack(s, j), a);
      NetEmpty(s, j);
    } else {
      var r := Stack(s, j - 1);
      WasThere(r, Stack(s, j), s[j - 1], j - 1, a);
      x := StackAbove(s, a, j - 1);
      NetStep(s, a + 1, j - 1);
      Increasing(s, j - 1);
      StaysPut(r, Stack(s, j), s[j - 1], j - 1, x);
      ExcessStep(s, a + 1, j - 1);
    }
  }

  lemma OnTop(r: seq<nat>, t: seq<nat>, i: nat)
    requires Becomes(r, t, OPEN, i)
    ensures |t| == |r| + 1 && t[|r|] == i
  {
  }

  lemma WasThere(r: seq<nat>, t: seq<nat>, b: Byte, i: nat, a: nat)
    requires Becomes(r, t, b, i) && a in t && a != i
    ensures a in r
  {
  }

  lemma StaysPut(r: seq<nat>, t: seq<nat>, b: Byte, i: nat, x: nat)
    requires Becomes(r, t, b, i) && x < |r| && r[x] in t && r[x] != i && forall y, z :: 0 <= y < z < |r| ==> r[y] < r[z]
    ensures x < |t| && t[x] == r[x] && |t| == |r| + if b == OPEN then 1 else if b == CLOSE then -1 else 0
  {
  }

  lemma ExcessStep(s: Bytes, lo: nat, hi: nat)
    requires lo <= hi < |s| && NoExcess(s, lo, hi) && Net(s, lo, hi + 1) >= 0
    ensures NoExcess(s, lo, hi + 1)
  {
    hide Net;
  }

  lemma NetEmpty(s: Bytes, i: nat)
    requires i <= |s|
    ensures Net(s, i, i) == 0 && NoExcess(s, i, i)
  {
  }

  /** Without an excess of closings since, a is still on the stack. */
  lemma {:induction false} StillThere(s: Bytes, a: nat, j: nat)
    requires a < j <= |s| && s[a] == OPEN && NoExcess(s, a + 1, j)
    ensures |Stack(s, j)| == |Stack(s, a)| + 1 + Net(s, a + 1, j) && Stack(s, j)[|Stack(s, a)|] == a
    decreases j
  {
    if j > a + 1 { StillThere(s, a, j - 1); }
  }

  /** The closing at b takes the opening at a off the stack exactly when the two belong together. */
  lemma PairIsTop(s: Bytes, a: nat, b: nat)
    requires a < |s| && b < |s|
    ensures Pair(s, a, b) <==> s[b] == CLOSE && Stack(s, b) != [] && Stack(s, b)[|Stack(s, b)| - 1] == a
  {
    var st := Stack(s, b);
    if s[b] == CLOSE && st != [] && st[|st| - 1] == a {
      assert a in st;
      var x := StackAbove(s, a, b);
      Increasing(s, b);
      assert x == |st| - 1;
    } else if Pair(s, a, b) {
      StillThere(s, a, b);
      assert false;
    }
  }

  lemma {:induction false} Increasing(s: Bytes, i: nat)
    requires i <= |s|
    ensures forall x, y :: 0 <= x < y < |Stack(s, i)| ==> Stack(s, i)[x] < Stack(s, i)[y]
  {
    if i > 0 { Increasing(s, i - 1); }
  }

  /** Where replace_char_in_angle_brackets stops: at the end, or as soon as MAXOPEN brackets are open. */
  function StopFrom(s: Bytes, i: nat): (n: nat)
    requires i <= |s|
    ensures i <= n <= |s| && (n < |s| ==> |Stack(s, n)| >= MAXOPEN)
    ensures forall j :: i <= j < n ==> |Stack(s, j)| < MAXOPEN
    decreases |s| - i
  {
    if i == |s| || |Stack(s, i)| >= MAXOPEN then i else StopFrom(s, i + 1)
  }

  lemma {:induction false} StopIs(s: Bytes, i: nat, n: nat)
    requires i <= n <= |s| && (n == |s| || |Stack(s, n)| >= MAXOPEN)
    requires forall j :: i <= j < n ==> |Stack(s, j)| < MAXOPEN
    ensures StopFrom(s, i) == n
    decreases n - i
  {
    if i < n { StopIs(s, i + 1, n); }
  }

  /** What is in the target afterwards: up to the stop the text with the bracketed parts blanked, then what was
      there before. */
  ghost predicate Blanked(s: Bytes, buf: Bytes, d: Bytes)
    requires |s| <= |buf|
  {
    var n := StopFrom(s, 0);
    && |d| == |s|
    && forall i :: 0 <= i < |s| ==> d[i] == if i >= n then buf[i] else if Inside(s, n, i) then BLANK else s[i]
  }

  /** replace_char_in_angle_brackets on a target that holds the bytes buf. */
  method ReplaceInBrackets(s: Bytes, buf: Bytes) returns (d: Bytes)
    requires |s| <= |buf|
    ensures Blanked(s, buf, d)
  {
    hide Pair, Inside, Net, StopFrom, Stack, BlankedTo, Blanked;
    d := [];
    var open: seq<nat> := [];
    var i := 0;
    BlankedNone(s);
    StackEmpty(s);
    while i < |s|
      invariant 0 <= i <= |s| && open == Stack(s, i) && BlankedTo(s, i, d)
      invariant forall j :: 0 <= j <= i ==> |Stack(s, j)| < MAXOPEN
    {
      BlankedStep(s, i, d);
      StackStep(s, i);
      d := d + [s[i]];
      if s[i] == OPEN {
        open := open + [i];
        if |open| >= MAXOPEN {
          StopIs(s, 0, i + 1);
          BlankedOff(s, i + 1, d, buf);
          d := d + buf[i + 1..|s|];
          return;
        }
      } else if s[i] == CLOSE && |open| > 0 {
        var start := open[|open| - 1];
        open := open[..|open| - 1];
        d := Overwritten(d, start);
      }
      i := i + 1;
    }
    StopIs(s, 0, |s|);
    BlankedOff(s, |s|, d, buf);
    assert d + buf[|s|..|s|] == d;
  }

  /** The first i bytes of s, with those inside brackets blanked. */
  ghost predicate BlankedTo(s: Bytes, i: nat, d: Bytes)
    requires i <= |s|
  {
    |d| == i && forall j :: 0 <= j < i ==> d[j] == if Inside(s, i, j) then BLANK else s[j]
  }

  lemma BlankedStep(s: Bytes, i: nat, d: Bytes)
    requires i < |s| && BlankedTo(s, i, d)
    ensures |d| == i
    ensures var st := Stack(s, i);
      if s[i] == CLOSE && st != [] then
        st[|st| - 1] < i && BlankedTo(s, i + 1, Overwritten(d + [s[i]], st[|st| - 1]))
      else BlankedTo(s, i + 1, d + [s[i]])
  {
    hide Inside, Stack;
    NextPair(s, i);
    var st := Stack(s, i);
    if s[i] == CLOSE && st != [] { assert st[|st| - 1] < i; }
  }

  /** Behind the first n bytes the buffer shows through. */
  lemma BlankedOff(s: Bytes, n: nat, d: Bytes, buf: Bytes)
    requires n <= |s| <= |buf| && BlankedTo(s, n, d) && n == StopFrom(s, 0)
    ensures Blanked(s, buf, d + buf[n..|s|])
  {
    hide Inside, StopFrom;
  }

  /** The inner loop writes over everything from the opening on. */
  function Overwritten(d: Bytes, start: nat): (r: Bytes)
    requires start <= |d|
    ensures |r| == |d| && forall i :: 0 <= i < |d| ==> r[i] == if i < start then d[i] else BLANK
  {
    d[..start] + seq(|d| - start, _ => BLANK)
  }

  lemma StackEmpty(s: Bytes)
    ensures Stack(s, 0) == []
  {
  }

  lemma BlankedNone(s: Bytes)
    ensures BlankedTo(s, 0, [])
  {
  }

  /** What is inside brackets that close at or before i. */
  lemma NextPair(s: Bytes, i: nat)
    requires i < |s|
    ensures forall j :: 0 <= j <= i ==>
      (Inside(s, i + 1, j) <==>
         Inside(s, i, j) || (s[i] == CLOSE && Stack(s, i) != [] && Stack(s, i)[|Stack(s, i)| - 1] <= j))
    ensures !Inside(s, i, i)
  {
    hide Net, Stack;
    var st := Stack(s, i);
    forall j | 0 <= j <= i
      ensures Inside(s, i + 1, j) <==> Inside(s, i, j) || (s[i] == CLOSE && st != [] && st[|st| - 1] <= j)
    {
      if a, b :| Pair(s, a, b) && b < i + 1 && a <= j <= b {
        PairIsTop(s, a, b);
        if b < i { assert Pair(s, a, b) && b < i && a <= j <= b; }
      }
      if s[i] == CLOSE && st != [] && st[|st| - 1] <= j {
        PairIsTop(s, st[|st| - 1], i);
        assert Pair(s, st[|st| - 1], i) && i < i + 1 && st[|st| - 1] <= j <= i;
      }
      if a, b :| Pair(s, a, b) && b < i && a <= j <= b { assert Pair(s, a, b) && b < i + 1 && a <= j <= b; }
    }
  }
}
