/** Traversal of a table (lua/ltable.c: findindex and luaH_next): array slots first, then nodes. */
module TableNext {
  import opened TableNodes
  import opened TableStore
  import opened TableCases

  /** The comparison in findindex, which accepts a dead key. */
  predicate Matches(nk: NodeKey, k: Key) {
    nk == Live(k) || (nk == Dead(k) && k.Other? && k.collectable)
  }

  /** Node x is the first on its chain that findindex accepts for k. */
  ghost predicate First(nd: seq<Node>, pos: seq<real>, x: int, k: Key)
    requires |pos| == |nd|
  {
    && 0 <= x < |nd| && Matches(nd[x].key, k)
    && forall z :: 0 <= z < |nd| && z != x && Matches(nd[z].key, k) ==> pos[x] < pos[z]
  }

  /** The value findindex computes for k. */
  ghost predicate IsIndexOf(n: nat, nd: seq<Node>, pos: seq<real>, k: Key, i: int)
    requires |pos| == |nd|
  {
    if InArrayRange(n, k) then i == k.i - 1 else i >= n && First(nd, pos, i - n, k)
  }

  function Total(arr: seq<Value>, nd: seq<Node>): nat { |arr| + |nd| }

  function ValueOf(arr: seq<Value>, nd: seq<Node>, i: nat): Value
    requires i < Total(arr, nd)
  {
    if i < |arr| then arr[i] else nd[i - |arr|].val
  }

  /** j is the first place at or after i with a value; the end when there is none. */
  ghost predicate NextFrom(arr: seq<Value>, nd: seq<Node>, i: int, j: int) {
    && 0 <= i <= j <= Total(arr, nd)
    && (forall x :: i <= x < j ==> ValueOf(arr, nd, x).Nil?)
    && (j < Total(arr, nd) ==> !ValueOf(arr, nd, j).Nil?)
  }

  /** The key of a place that has a value. */
  function KeyOf(arr: seq<Value>, nd: seq<Node>, i: nat): Key
    requires i < Total(arr, nd) && (i >= |arr| ==> nd[i - |arr|].key.Live?)
  {
    if i < |arr| then Int(i + 1) else nd[i - |arr|].key.k
  }

  // ----- what a program may do to the table between two calls of next

  datatype Tab = Tab(arr: seq<Value>, nd: seq<Node>)

  /** Entries may be assigned or cleared, and the collector may declare the keys of cleared entries dead; no key
      comes in. */
  ghost predicate MayBecome(a: Tab, b: Tab) {
    && |b.arr| == |a.arr| && |b.nd| == |a.nd|
    && forall x :: 0 <= x < |a.nd| ==>
         || b.nd[x].key == a.nd[x].key
         || (&& a.nd[x].key.Live? && a.nd[x].key.k.Other? && a.nd[x].key.k.collectable
             && b.nd[x].key == Dead(a.nd[x].key.k))
  }

  ghost predicate TabOk(t: Tab, pos: seq<real>) {
    |pos| == |t.nd| && Keys(t.nd) && LiveFirst(t.nd, pos) && Apart(|t.arr|, t.nd)
  }

  lemma MayBecomeTrans(a: Tab, b: Tab, c: Tab)
    requires MayBecome(a, b) && MayBecome(b, c)
    ensures MayBecome(a, c)
  {
  }

  /** findindex finds the place of a key again, even after its entry was cleared and its key declared dead. */
  lemma FoundAgain(a: Tab, b: Tab, pos: seq<real>, i: nat, j: int)
    requires TabOk(a, pos) && MayBecome(a, b) && i < Total(a.arr, a.nd) && !ValueOf(a.arr, a.nd, i).Nil?
    requires IsIndexOf(|b.arr|, b.nd, pos, KeyOf(a.arr, a.nd, i), j)
    ensures j == i
  {
    if i >= |a.arr| {
      var x, k := i - |a.arr|, KeyOf(a.arr, a.nd, i);
      assert Matches(b.nd[x].key, k);
      forall z | 0 <= z < |a.nd| && z != x && Matches(b.nd[z].key, k)
        ensures pos[x] < pos[z]
      {
        assert Matches(a.nd[z].key, k);
      }
      assert First(b.nd, pos, j - |b.arr|, k);
    }
  }

  /** ... and there is something to find: next never raises its error. */
  lemma AlwaysFound(a: Tab, b: Tab, pos: seq<real>, i: nat)
    requires TabOk(a, pos) && MayBecome(a, b) && i < Total(a.arr, a.nd) && !ValueOf(a.arr, a.nd, i).Nil?
    ensures IsIndexOf(|b.arr|, b.nd, pos, KeyOf(a.arr, a.nd, i), i)
  {
    if i >= |a.arr| {
      var x, k := i - |a.arr|, KeyOf(a.arr, a.nd, i);
      assert Matches(b.nd[x].key, k);
      forall z | 0 <= z < |a.nd| && z != x && Matches(b.nd[z].key, k)
        ensures pos[x] < pos[z]
      {
        assert Matches(a.nd[z].key, k);
      }
    }
  }

  // ----- whole traversals

  /** A traversal: the n-th call of next sees the table as tabs[n] and stops at place at[n]; the first call gets
      nil, every other one the key the previous call returned. */
  ghost predicate Traversal(tabs: seq<Tab>, pos: seq<real>, at: seq<int>) {
    && |tabs| == |at| > 0
    && (forall n :: 0 <= n < |tabs| ==> TabOk(tabs[n], pos))
    && (forall n :: 0 <= n < |tabs| - 1 ==> MayBecome(tabs[n], tabs[n + 1]))
    && NextFrom(tabs[0].arr, tabs[0].nd, 0, at[0])
    && (forall n :: 0 <= n < |at| - 1 ==> CallFollows(tabs[n], at[n], tabs[n + 1], at[n + 1], pos))
  }

  /** A call with the key returned before, on the table as it is now. */
  ghost predicate CallFollows(a: Tab, i: int, b: Tab, j: int, pos: seq<real>)
    requires TabOk(a, pos) && |pos| == |b.nd|
  {
    && 0 <= i < Total(a.arr, a.nd) && !ValueOf(a.arr, a.nd, i).Nil?
    && exists x :: IsIndexOf(|b.arr|, b.nd, pos, KeyOf(a.arr, a.nd, i), x) && NextFrom(b.arr, b.nd, x + 1, j)
  }

  lemma CallGoesOn(a: Tab, i: int, b: Tab, j: int, pos: seq<real>)
    requires TabOk(a, pos) && |pos| == |b.nd| && MayBecome(a, b) && CallFollows(a, i, b, j, pos)
    ensures NextFrom(b.arr, b.nd, i + 1, j) && i < j
  {
    var x :| IsIndexOf(|b.arr|, b.nd, pos, KeyOf(a.arr, a.nd, i), x) && NextFrom(b.arr, b.nd, x + 1, j);
    FoundAgain(a, b, pos, i, x);
  }

  /** Every place is passed once: all places below at[n] with a value in every table so far are among at[..n]. */
  lemma {:induction false} PlacesPassed(tabs: seq<Tab>, pos: seq<real>, at: seq<int>, n: nat, x: nat)
    requires Traversal(tabs, pos, at) && n < |at|
    requires x < at[n]
    requires
      forall m :: 0 <= m <= n ==> x < Total(tabs[m].arr, tabs[m].nd) && !ValueOf(tabs[m].arr, tabs[m].nd, x).Nil?
    ensures x in at[..n]
  {
    if n == 0 {
      assert false;
    } else {
      CallGoesOn(tabs[n - 1], at[n - 1], tabs[n], at[n], pos);
      if x < at[n - 1] {
        PlacesPassed(tabs, pos, at, n - 1, x);
      } else {
        assert x == at[n - 1] && at[n - 1] == at[..n][n - 1];
      }
    }
  }

  /** Places only go up. */
  lemma {:induction false} PlacesIncrease(tabs: seq<Tab>, pos: seq<real>, at: seq<int>, m: nat, n: nat)
    requires Traversal(tabs, pos, at) && m < n < |at|
    ensures at[m] < at[n]
  {
    CallGoesOn(tabs[n - 1], at[n - 1], tabs[n], at[n], pos);
    if m < n - 1 { PlacesIncrease(tabs, pos, at, m, n - 1); }
  }

  lemma {:induction false} SizeStays(tabs: seq<Tab>, pos: seq<real>, at: seq<int>, n: nat)
    requires Traversal(tabs, pos, at) && n < |at|
    ensures |tabs[n].arr| == |tabs[0].arr| && |tabs[n].nd| == |tabs[0].nd|
    ensures n <= at[n] <= Total(tabs[n].arr, tabs[n].nd)
  {
    if n > 0 {
      SizeStays(tabs, pos, at, n - 1);
      CallGoesOn(tabs[n - 1], at[n - 1], tabs[n], at[n], pos);
    }
  }

  /** A traversal returns no place twice, makes at most one call more than there are places, and, when it ends, has
      returned every place that kept a value throughout. */
  lemma TraversalIsComplete(tabs: seq<Tab>, pos: seq<real>, at: seq<int>)
    requires Traversal(tabs, pos, at)
    ensures forall m, n :: 0 <= m < n < |at| ==> at[m] < at[n]
    ensures |at| <= Total(tabs[0].arr, tabs[0].nd) + 1
    ensures var last := |at| - 1; at[last] == Total(tabs[0].arr, tabs[0].nd) ==>
      forall x: nat :: KeepsValue(tabs, x) && x < Total(tabs[0].arr, tabs[0].nd) ==> x in at[..last]
  {
    forall m, n | 0 <= m < n < |at| ensures at[m] < at[n] { PlacesIncrease(tabs, pos, at, m, n); }
    var last := |at| - 1;
    SizeStays(tabs, pos, at, last);
    if at[last] == Total(tabs[0].arr, tabs[0].nd) {
      forall x: nat | KeepsValue(tabs, x) && x < Total(tabs[0].arr, tabs[0].nd) ensures x in at[..last] {
        PlacesPassed(tabs, pos, at, last, x);
      }
    }
  }

  /** Place x has a value in every table of the run. */
  ghost predicate KeepsValue(tabs: seq<Tab>, x: nat) {
    forall m :: 0 <= m < |tabs| ==> x < Total(tabs[m].arr, tabs[m].nd) && !ValueOf(tabs[m].arr, tabs[m].nd, x).Nil?
  }

  lemma {:induction false} Became(tabs: seq<Tab>, pos: seq<real>, at: seq<int>, m: nat, n: nat)
    requires Traversal(tabs, pos, at) && m <= n < |at|
    ensures MayBecome(tabs[m], tabs[n])
  {
    if m < n {
      Became(tabs, pos, at, m, n - 1);
      MayBecomeTrans(tabs[m], tabs[n - 1], tabs[n]);
    }
  }

  /** No key is returned twice. */
  lemma KeysReturnedOnce(tabs: seq<Tab>, pos: seq<real>, at: seq<int>, m: nat, n: nat)
    requires Traversal(tabs, pos, at) && m < n < |at| && at[n] < Total(tabs[n].arr, tabs[n].nd)
    ensures 0 <= at[m] < Total(tabs[m].arr, tabs[m].nd) && 0 <= at[n] && !ValueOf(tabs[m].arr, tabs[m].nd, at[m]).Nil?
    ensures !ValueOf(tabs[n].arr, tabs[n].nd, at[n]).Nil?
    ensures KeyOf(tabs[m].arr, tabs[m].nd, at[m]) != KeyOf(tabs[n].arr, tabs[n].nd, at[n])
  {
    PlacesIncrease(tabs, pos, at, m, n);
    Became(tabs, pos, at, m, n);
    CallGoesOn(tabs[n - 1], at[n - 1], tabs[n], at[n], pos);
    assert CallFollows(tabs[m], at[m], tabs[m + 1], at[m + 1], pos);
    OtherPlaceOtherKey(tabs[m], tabs[n], pos, at[m], at[n]);
  }

  lemma OtherPlaceOtherKey(a: Tab, b: Tab, pos: seq<real>, i: nat, j: nat)
    requires TabOk(a, pos) && TabOk(b, pos) && MayBecome(a, b) && i < j < Total(a.arr, a.nd)
    requires !ValueOf(a.arr, a.nd, i).Nil? && !ValueOf(b.arr, b.nd, j).Nil?
    ensures KeyOf(a.arr, a.nd, i) != KeyOf(b.arr, b.nd, j)
  {
    if i >= |a.arr| { assert a.nd[j - |a.arr|].key == b.nd[j - |a.arr|].key; }
  }

  /** The key of a place is stored with the value of the place. */
  lemma PlaceHoldsKey(arr: seq<Value>, nd: seq<Node>, i: nat)
    requires Keys(nd) && Apart(|arr|, nd) && i < Total(arr, nd) && !ValueOf(arr, nd, i).Nil?
    ensures Lookup(arr, nd, KeyOf(arr, nd, i)) == ValueOf(arr, nd, i)
  {
    if i >= |arr| {
      assert Holds(nd, i - |arr|, KeyOf(arr, nd, i));
      NodeValueIs(nd, KeyOf(arr, nd, i), i - |arr|);
    }
  }

  /** Every key with a value has a place. */
  lemma KeyHasPlace(arr: seq<Value>, nd: seq<Node>, k: Key) returns (i: nat)
    requires Keys(nd) && !Lookup(arr, nd, k).Nil?
    ensures i < Total(arr, nd) && !ValueOf(arr, nd, i).Nil? && KeyOf(arr, nd, i) == k
  {
    if InArrayRange(|arr|, k) { i := k.i - 1; } else {
      var x :| Holds(nd, x, k);
      NodeValueIs(nd, k, x);
      i := |arr| + x;
    }
  }

  /** The first match a walk meets is the first there is. */
  lemma FirstMet(nd: seq<Node>, cid: seq<int>, pos: seq<real>, n: int, k: Key)
    requires Chains(nd, cid, pos) && 0 <= n < |nd| && Matches(nd[n].key, k)
    requires forall z :: 0 <= z < |nd| && Matches(nd[z].key, k) ==> Ahead(nd, cid, pos, n, z)
    ensures First(nd, pos, n, k)
  {
    forall z | 0 <= z < |nd| && z != n && Matches(nd[z].key, k)
      ensures pos[n] < pos[z]
    {
      assert PairOk(nd, cid, pos, n, z);
    }
  }

  // ----- building a traversal call by call

  /** What the loop over next knows before its n-th call: cur is the table now, k the key the last call returned. */
  ghost predicate Underway(tabs: seq<Tab>, pos: seq<real>, at: seq<int>, cur: Tab, k: Key) {
    && Traversal(tabs, pos, at) && TabOk(cur, pos)
    && var a, i := tabs[|tabs| - 1], at[|at| - 1];
       0 <= i < Total(a.arr, a.nd) && !ValueOf(a.arr, a.nd, i).Nil? && k == KeyOf(a.arr, a.nd, i) && MayBecome(a, cur)
  }

  /** The next call finds its key, ... */
  lemma NextFinds(tabs: seq<Tab>, pos: seq<real>, at: seq<int>, cur: Tab, k: Key)
    requires Underway(tabs, pos, at, cur, k)
    ensures InArrayRange(|cur.arr|, k) || exists z :: 0 <= z < |cur.nd| && Matches(cur.nd[z].key, k)
  {
    var a, i := tabs[|tabs| - 1], at[|at| - 1];
    AlwaysFound(a, cur, pos, i);
    if !InArrayRange(|cur.arr|, k) { assert First(cur.nd, pos, i - |cur.arr|, k); }
  }

  /** ... and makes the traversal longer. */
  lemma NextExtends(tabs: seq<Tab>, pos: seq<real>, at: seq<int>, cur: Tab, k: Key, i: int, j: int)
    requires Underway(tabs, pos, at, cur, k) && IsIndexOf(|cur.arr|, cur.nd, pos, k, i)
    requires NextFrom(cur.arr, cur.nd, i + 1, j)
    ensures Traversal(tabs + [cur], pos, at + [j])
  {
    var ts, js, n := tabs + [cur], at + [j], |at| - 1;
    assert CallFollows(tabs[n], at[n], cur, j, pos);
    forall m | 0 <= m < |ts| - 1
      ensures MayBecome(ts[m], ts[m + 1])
    {
      assert m < n ==> MayBecome(tabs[m], tabs[m + 1]);
    }
    forall m | 0 <= m < |js| - 1 ensures CallFollows(ts[m], js[m], ts[m + 1], js[m + 1], pos) {
      assert m < n ==> CallFollows(tabs[m], at[m], tabs[m + 1], at[m + 1], pos);
    }
  }

  lemma FirstCall(pos: seq<real>, cur: Tab, j: int)
    requires TabOk(cur, pos) && NextFrom(cur.arr, cur.nd, 0, j)
    ensures Traversal([cur], pos, [j])
  {
  }

  /** A key that has its value in a later table has it at its old place. */
  lemma PlaceKept(a: Tab, b: Tab, pos: seq<real>, x: nat)
    requires TabOk(a, pos) && TabOk(b, pos) && MayBecome(a, b) && x < Total(a.arr, a.nd)
    requires !ValueOf(a.arr, a.nd, x).Nil?
    requires !Lookup(b.arr, b.nd, KeyOf(a.arr, a.nd, x)).Nil?
    ensures !ValueOf(b.arr, b.nd, x).Nil? && KeyOf(b.arr, b.nd, x) == KeyOf(a.arr, a.nd, x)
  {
    var k := KeyOf(a.arr, a.nd, x);
    if x >= |a.arr| {
      var y :| Holds(b.nd, y, k);
      assert a.nd[y].key == Live(k);
      NodeValueIs(b.nd, k, y);
    }
  }

  /** A call that stops at place j of t returns k. */
  ghost predicate ReturnedAt(t: Tab, j: int, k: Key) {
    && 0 <= j < Total(t.arr, t.nd) && !ValueOf(t.arr, t.nd, j).Nil? && (j >= |t.arr| ==> t.nd[j - |t.arr|].key.Live?)
    && KeyOf(t.arr, t.nd, j) == k
  }

  /** Every key that has a value in all tables of a finished traversal was returned by one of its calls. */
  lemma KeyReturned(tabs: seq<Tab>, pos: seq<real>, at: seq<int>, k: Key) returns (m: nat)
    requires Traversal(tabs, pos, at) && at[|at| - 1] == Total(tabs[0].arr, tabs[0].nd)
    requires forall m :: 0 <= m < |tabs| ==> !Lookup(tabs[m].arr, tabs[m].nd, k).Nil?
    ensures m < |at| - 1 && ReturnedAt(tabs[m], at[m], k)
  {
    var x := KeyHasPlace(tabs[0].arr, tabs[0].nd, k);
    forall n | 0 <= n < |tabs|
      ensures x < Total(tabs[n].arr, tabs[n].nd) && !ValueOf(tabs[n].arr, tabs[n].nd, x).Nil?
      ensures KeyOf(tabs[n].arr, tabs[n].nd, x) == k
    {
      Became(tabs, pos, at, 0, n);
      PlaceKept(tabs[0], tabs[n], pos, x);
    }
    TraversalIsComplete(tabs, pos, at);
    assert KeepsValue(tabs, x);
    var last := |at| - 1;
    m :| 0 <= m < last && at[..last][m] == x;
  }
}
