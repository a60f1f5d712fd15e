/** newkey, case by case, at the level of the whole table. */
module TableCases {
  import opened TableNodes
  import opened TableInsert
  import opened TableSizes
  import opened TableStore

  /** The structure of the hash part, beside an array part of size n. */
  ghost predicate HashOk(h: Hash, n: nat, nd: seq<Node>, cid: seq<int>, pos: seq<real>) {
    NodesOk(h, nd, cid, pos) && LiveFirst(nd, pos) && Apart(n, nd)
  }

  /** k has come in at node t, using up at most the free node w. */
  ghost predicate CameIn(nd: seq<Node>, nd': seq<Node>, k: Key, t: int, w: int) {
    && Inserted(nd, nd', k, t) && Keys(nd')
    && forall x :: 0 <= x < |nd| && x < |nd'| ==> (nd'[x].key.Free? <==> nd[x].key.Free? && x != w)
  }

  lemma ComesHome(h: Hash, n: nat, nd: seq<Node>, cid: seq<int>, pos: seq<real>, k: Key, mp: int, r: seq<Node>,
      cid': seq<int>)
    requires HashOk(h, n, nd, cid, pos) && IsNewAt(h, nd, k, mp) && !InArrayRange(n, k) && nd[mp].val.Nil?
    requires r == PlaceHome(nd, mp, k) && cid' == if nd[mp].key.Free? then cid[mp := Fresh(cid)] else cid
    ensures HashOk(h, n, r, cid', pos) && CameIn(nd, r, k, mp, mp)
  {
    hide Chains, Homes, LiveFirst, Keys, Inserted;
    Sizes(nd, cid, pos);
    PlaceHomeChains(nd, cid, pos, mp, k, r, cid');
    PlaceHomeHomes(h, nd, cid, pos, k, mp, r, cid');
    PlaceHomeValues(h, nd, k, mp, r);
    PlaceHomeLiveFirst(h, nd, cid, pos, k, mp, r);
  }

  lemma Sizes(nd: seq<Node>, cid: seq<int>, pos: seq<real>)
    requires Chains(nd, cid, pos)
    ensures |nd| == |cid| == |pos| && |nd| > 0
  {
  }

  lemma ComesByMove(h: Hash, n: nat, nd: seq<Node>, cid: seq<int>, pos: seq<real>, prev: int, mp: int, f: int, k: Key,
      r: seq<Node>, cid': seq<int>, pos': seq<real>)
    requires HashOk(h, n, nd, cid, pos) && IsNewAt(h, nd, k, mp) && !InArrayRange(n, k) && CanMove(h, nd, prev, mp, f)
    requires r == MoveOut(nd, prev, mp, f, k) && cid' == cid[f := cid[mp]][mp := Fresh(cid)]
    requires pos' == pos[f := pos[mp]]
    ensures HashOk(h, n, r, cid', pos') && CameIn(nd, r, k, mp, f)
  {
    hide Homes, LiveFirst, Keys, IsNewAt, Inserted, LinkOk, PairOk;
    MoveOutLinks(h, nd, cid, pos, prev, mp, f, k, r, cid', pos');
    MoveOutPairs(h, nd, cid, pos, prev, mp, f, k, r, cid', pos');
    MoveOutHomes(h, nd, cid, pos, prev, mp, f, k, r, cid', pos');
    MoveOutValues(h, nd, prev, mp, f, k, r);
    MoveOutLiveFirst(h, nd, cid, pos, prev, mp, f, k, r, pos');
  }

  lemma ComesBehind(h: Hash, n: nat, nd: seq<Node>, cid: seq<int>, pos: seq<real>, mp: int, f: int, k: Key,
      r: seq<Node>, cid': seq<int>, pos': seq<real>)
    requires HashOk(h, n, nd, cid, pos) && IsNewAt(h, nd, k, mp) && !InArrayRange(n, k) && CanAppend(h, nd, mp, f)
    requires nd[mp].key.Live?
    requires r == Append(nd, mp, f, k) && cid' == cid[f := cid[mp]] && pos' == pos[f := PlaceBehind(nd, pos, mp)]
    ensures HashOk(h, n, r, cid', pos') && CameIn(nd, r, k, f, f)
  {
    hide Chains, Homes, LiveFirst, Keys, IsNewAt, Inserted;
    Sizes(nd, cid, pos);
    AppendChains(h, nd, cid, pos, mp, f, k, r, cid', pos');
    AppendHomes(h, nd, cid, pos, mp, f, k, r, cid', pos');
    AppendValues(h, nd, mp, f, k, r);
    AppendLiveFirst(h, nd, cid, pos, mp, f, k, r, pos');
  }

  /** What newkey owes its caller once the key is in. */
  lemma InsertionDone(arr: seq<Value>, nd: seq<Node>, nd': seq<Node>, dummy: bool, k: Key, t: int, w: int)
    requires CameIn(nd, nd', k, t, w) && SlotFor(arr, nd, NoSlot, k) && !dummy
    ensures SameContents(arr, nd, arr, nd') && t >= 0 && SlotFor(arr, nd', InNode(t), k)
    ensures Room(nd', dummy) >= Room(nd, dummy) - 1
  {
    NodeValueIs(nd', k, t);
    RoomAfter(nd, nd', w);
    forall q ensures Lookup(arr, nd', q) == Lookup(arr, nd, q) {
      if q == k { assert NodeValue(nd, k) == Nil; }
    }
  }

  // ----- a fresh node vector

  lemma FreshNodes(h: Hash, n: nat, nd: seq<Node>, cid: seq<int>, pos: seq<real>)
    requires |nd| > 0 && |cid| == |nd| && |pos| == |nd| && forall x :: 0 <= x < |nd| ==> nd[x] == Node(Free, Nil, -1)
    ensures HashOk(h, n, nd, cid, pos) && forall k :: NodeValue(nd, k) == Nil
  {
  }

  // ----- resize: what has been moved so far

  ghost function ValueFrom(nd: seq<Node>, j: nat, k: Key): Value {
    if x :| j <= x && Holds(nd, x, k) then nd[x].val else Nil
  }

  /** The contents once the first i slots of the old array part and the old nodes from j on are in place. */
  ghost function Moved(arr: seq<Value>, i: nat, nd: seq<Node>, j: nat, k: Key): Value
    requires i <= |arr|
  {
    if InArrayRange(|arr|, k) then (if k.i <= i then arr[k.i - 1] else Nil) else ValueFrom(nd, j, k)
  }

  lemma MovedSlot(arr: seq<Value>, i: nat, nd: seq<Node>, j: nat, k: Key)
    requires i < |arr|
    ensures Moved(arr, i + 1, nd, j, k) == if k == Int(i + 1) then arr[i] else Moved(arr, i, nd, j, k)
    ensures Moved(arr, i, nd, j, Int(i + 1)) == Nil
  {
  }

  lemma MovedNode(arr: seq<Value>, nd: seq<Node>, j: nat, k: Key)
    requires j < |nd| && Keys(nd) && Apart(|arr|, nd)
    ensures Moved(arr, |arr|, nd, j, k)
      == if nd[j].key == Live(k) && !nd[j].val.Nil? then nd[j].val else Moved(arr, |arr|, nd, j + 1, k)
  {
    if nd[j].key == Live(k) {
      assert Holds(nd, j, k);
      assert forall x :: j + 1 <= x ==> !Holds(nd, x, k);
    } else if x :| j + 1 <= x && Holds(nd, x, k) {
      assert j <= x && Holds(nd, x, k);
    } else {
      assert forall x :: j <= x ==> !Holds(nd, x, k);
    }
  }

  lemma MovedNone(arr: seq<Value>, nd: seq<Node>, k: Key)
    ensures ValueFrom(nd, |nd|, k) == Nil
  {
  }

  lemma MovedAll(arr: seq<Value>, nd: seq<Node>, k: Key)
    requires Keys(nd)
    ensures Moved(arr, |arr|, nd, 0, k) == Lookup(arr, nd, k)
  {
    if x :| Holds(nd, x, k) {
      assert 0 <= x;
      NodeValueIs(nd, k, x);
    }
  }

  // ----- the error "table overflow": the array part may have grown already, the hash part is as it was

  /** The table holds MAXASIZE elements or more. */
  ghost predicate Crowded(arr: seq<Value>, nd: seq<Node>) {
    |UsedSlots(arr, |arr|)| + Valued(nd, 0) >= MAXASIZE
  }

  /** The array part has grown to size n at least, with nothing in the new slots; the hash part is as it was. */
  ghost predicate Grown(arr: seq<Value>, nd: seq<Node>, n: nat, arr': seq<Value>, nd': seq<Node>) {
    && nd' == nd && arr <= arr' && |arr'| == (if n > |arr| then n else |arr|)
    && forall i :: |arr| <= i < |arr'| ==> arr'[i].Nil?
  }

  lemma {:induction false} ValuedFits(nd: seq<Node>, i: nat)
    requires i <= |nd|
    ensures Valued(nd, i) <= |nd| - i
    decreases |nd| - i
  {
    if i < |nd| { ValuedFits(nd, i + 1); }
  }

  lemma {:induction false} CntPositive(ks: seq<int>, k: int, lo: int, hi: int)
    requires k in ks && lo < k <= hi
    ensures Cnt(ks, lo, hi) >= 1
  {
    if ks[|ks| - 1] != k { CntPositive(ks[..|ks| - 1], k, lo, hi); }
  }

  /** A key of the hash part that is to move into the array part makes rehash ask for no more nodes than there are. */
  lemma MovingKeyLeavesRoom(arr: seq<Value>, nd: seq<Node>, k: Key, n: nat, i: int)
    requires Keys(nd) && |arr| < i <= n <= MAXASIZE && HeldFrom(nd, 0, i)
    ensures |UsedSlots(arr, |arr|)| + Valued(nd, 0) + 1 - Cnt(CountedKeys(arr, nd, k), 0, n) <= |nd|
  {
    hide Cnt, UsedSlots, NodeInts, Valued, Distinct, HeldFrom, Keys;
    var u, v, w := UsedSlots(arr, |arr|), NodeInts(nd, 0), ArrayIndexes(k);
    CntConcat(u + v, w, 0, n);
    CntConcat(u, v, 0, n);
    CntAll(u, 0, n);
    NodeIntsAre(nd, 0);
    CntPositive(v, i, 0, n);
    ValuedFits(nd, 0);
  }

  /** When rehash asks for more than MAXASIZE nodes and fails, the array part may have grown, but no key was to move
      into it: the contents are as they were, and the parts are still apart. */
  lemma OverflowKeepsContents(arr: seq<Value>, nd: seq<Node>, k: Key, n: nat, arr': seq<Value>)
    requires Keys(nd) && Apart(|arr|, nd) && |nd| <= MAXASIZE && n <= MAXASIZE && Grown(arr, nd, n, arr', nd)
    requires |UsedSlots(arr, |arr|)| + Valued(nd, 0) + 1 - Cnt(CountedKeys(arr, nd, k), 0, n) > MAXASIZE
    ensures Apart(|arr'|, nd) && SameContents(arr, nd, arr', nd)
  {
    hide Cnt, UsedSlots, Valued, CountedKeys, Distinct, Within;
    forall i | |arr| < i <= |arr'| ensures !HeldFrom(nd, 0, i) {
      if HeldFrom(nd, 0, i) { MovingKeyLeavesRoom(arr, nd, k, n, i); }
    }
    forall x | 0 <= x < |nd| && nd[x].key.Live? && !nd[x].val.Nil? ensures !InArrayRange(|arr'|, nd[x].key.k) {
      if nd[x].key.k.Int? {
        assert Holds(nd, x, Int(nd[x].key.k.i));
        assert HeldFrom(nd, 0, nd[x].key.k.i);
      }
    }
    forall q ensures Lookup(arr', nd, q) == Lookup(arr, nd, q) {
      if InArrayRange(|arr|, q) {
        assert arr'[q.i - 1] == arr[q.i - 1];
      } else if InArrayRange(|arr'|, q) {
        ValueHeld(arr, nd, q.i);
      }
    }
  }

  // ----- small facts the methods use with the definitions hidden

  lemma Unpack(h: Hash, n: nat, nd: seq<Node>, cid: seq<int>, pos: seq<real>)
    requires HashOk(h, n, nd, cid, pos)
    ensures Chains(nd, cid, pos) && Homes(h, nd, cid, pos) && Keys(nd) && |nd| > 0 && |cid| == |nd| && |pos| == |nd|
    ensures forall x :: 0 <= x < |nd| && !nd[x].val.Nil? ==> nd[x].key.Live?
  {
  }

  lemma NextIn(nd: seq<Node>, cid: seq<int>, pos: seq<real>, x: int)
    requires Chains(nd, cid, pos) && 0 <= x < |nd|
    ensures nd[x].next == -1 || 0 <= nd[x].next < |nd|
  {
    assert LinkOk(nd, cid, pos, x);
  }

  lemma SameTwice(a: seq<Value>, nd: seq<Node>, a': seq<Value>, nd': seq<Node>, a'': seq<Value>, nd'': seq<Node>)
    requires SameContents(a, nd, a', nd') && SameContents(a', nd', a'', nd'')
    ensures SameContents(a, nd, a'', nd'')
  {
  }

  lemma StoreKeeps(h: Hash, n: nat, nd: seq<Node>, cid: seq<int>, pos: seq<real>, x: int, k: Key, v: Value,
      r: seq<Node>)
    requires HashOk(h, n, nd, cid, pos) && Holds(nd, x, k) && !InArrayRange(n, k) && r == nd[x := nd[x].(val := v)]
    ensures HashOk(h, n, r, cid, pos) && FreeSet(r) == FreeSet(nd)
    ensures forall q :: NodeValue(r, q) == if q == k then v else NodeValue(nd, q)
  {
    hide Chains, Homes, Keys, LinkOk;
    Unpack(h, n, nd, cid, pos);
    FreeHasNoValue(nd, cid, pos);
    ValuesDoNotMatter(h, nd, r, cid, pos);
    forall q ensures NodeValue(r, q) == if q == k then v else NodeValue(nd, q) { StoreInNode(nd, x, k, v, q); }
    StoreInNode(nd, x, k, v, k);
  }

  lemma FreeHasNoValue(nd: seq<Node>, cid: seq<int>, pos: seq<real>)
    requires Chains(nd, cid, pos)
    ensures forall x :: 0 <= x < |nd| && nd[x].key.Free? ==> nd[x].val.Nil?
  {
    forall x | 0 <= x < |nd| && nd[x].key.Free? ensures nd[x].val.Nil? { assert LinkOk(nd, cid, pos, x); }
  }

  lemma SizeBound(size: nat, lsize: nat)
    requires Low(lsize) < size <= Pow2(lsize)
    ensures lsize > MAXBITS <==> size > MAXASIZE
    ensures lsize <= MAXBITS ==> Pow2(lsize) <= MAXASIZE
  {
    MaxSize();
    if lsize > MAXBITS { BigPower(lsize); } else { Pow2Monotone(lsize, MAXBITS); }
  }

  lemma Emptied(arr: seq<Value>, arr': seq<Value>, nd: seq<Node>, nd': seq<Node>, i: nat)
    requires i == Min(|arr'|, |arr|) && forall k :: NodeValue(nd', k) == Nil
    requires forall x :: 0 <= x < |arr'| ==> arr'[x] == if x < |arr| then arr[x] else Nil
    ensures forall k :: Lookup(arr', nd', k) == Moved(arr, i, nd, |nd|, k)
  {
    forall k ensures Lookup(arr', nd', k) == Moved(arr, i, nd, |nd|, k) { MovedNone(arr, nd, k); }
  }

  lemma SlotsStep(arr: seq<Value>, i: nat)
    requires i < |arr|
    ensures SlotsFrom(arr, i) == SlotsFrom(arr, i + 1) + if arr[i].Nil? then 0 else 1
  {
  }

  lemma NodesStep(nd: seq<Node>, j: nat, n: nat)
    requires j < |nd| && forall x :: 0 <= x < |nd| && !nd[x].val.Nil? ==> nd[x].key.Live?
    ensures HashBound(nd, j + 1, n) == HashBound(nd, j, n) + if nd[j].val.Nil? then 0 else ExtraBound(nd[j].key.k, n)
  {
  }

  lemma Reset(nums: seq<nat>)
    requires |nums| == MAXBITS + 1 && forall i :: 0 <= i < |nums| ==> nums[i] == 0
    ensures CountersOf(nums, [])
  {
  }

  lemma DeathKeeps(h: Hash, n: nat, nd: seq<Node>, cid: seq<int>, pos: seq<real>, x: int, r: seq<Node>)
    requires HashOk(h, n, nd, cid, pos) && 0 <= x < |nd| && nd[x].key.Live? && nd[x].val.Nil?
    requires r == nd[x := nd[x].(key := Dead(nd[x].key.k))]
    ensures HashOk(h, n, r, cid, pos) && forall q :: NodeValue(r, q) == NodeValue(nd, q)
  {
    hide Chains, Homes, LinkOk;
    Unpack(h, n, nd, cid, pos);
    FreeHasNoValue(nd, cid, pos);
    ValuesDoNotMatter(h, nd, r, cid, pos);
    assert Keys(r);
    forall q ensures NodeValue(r, q) == NodeValue(nd, q) {
      if z :| Holds(r, z, q) {
        assert Holds(nd, z, q);
        NodeValueIs(r, q, z);
        NodeValueIs(nd, q, z);
      } else if z :| Holds(nd, z, q) {
        assert z != x ==> Holds(r, z, q);
        NodeValueIs(nd, q, z);
      }
    }
  }

  lemma {:induction false} HashBoundFits(nd: seq<Node>, i: nat, n: nat)
    requires i <= |nd|
    ensures HashBound(nd, i, n) <= i
  {
    if i > 0 { HashBoundFits(nd, i - 1, n); }
  }

  /** Growing the array part only takes keys out of the hash part. */
  lemma GrowthFits(arr: seq<Value>, nd: seq<Node>, dummy: bool, lastfree: int, n: nat)
    requires |arr| <= n && FreeOk(nd, dummy, lastfree)
    ensures SlotsFrom(arr, Min(n, |arr|)) + HashBound(nd, |nd|, n) + 0 <= if dummy then 0 else |nd|
  {
    HashBoundFits(nd, |nd|, n);
    if dummy { assert HashBound(nd, 1, n) == HashBound(nd, 0, n); }
  }

  lemma DummyIsEmpty(arr: seq<Value>, nd: seq<Node>, dummy: bool, lastfree: int, k: Key)
    requires dummy && FreeOk(nd, dummy, lastfree) && !InArrayRange(|arr|, k)
    ensures Lookup(arr, nd, k) == Nil
  {
  }

  // ----- pigeonhole: a table cannot use more keys than it has places

  ghost function IntNodes(nd: seq<Node>, lo: nat, hi: nat): set<int> {
    set x | 0 <= x < |nd| && nd[x].key.Live? && nd[x].key.k.Int? && lo < nd[x].key.k.i <= hi
  }

  lemma {:induction false} ManyNodes(arr: seq<Value>, nd: seq<Node>, m: nat)
    requires |arr| <= m && forall x :: 1 <= x <= m ==> !Lookup(arr, nd, Int(x)).Nil?
    ensures |IntNodes(nd, |arr|, m)| >= m - |arr|
  {
    if m > |arr| {
      ManyNodes(arr, nd, m - 1);
      var x :| Holds(nd, x, Int(m));
      assert x !in IntNodes(nd, |arr|, m - 1);
      Smaller(IntNodes(nd, |arr|, m - 1) + {x}, IntNodes(nd, |arr|, m));
    }
  }

  lemma FewKeys(arr: seq<Value>, nd: seq<Node>, m: nat)
    requires forall x :: 1 <= x <= m ==> !Lookup(arr, nd, Int(x)).Nil?
    ensures m <= |arr| + |nd|
  {
    if m > |arr| {
      ManyNodes(arr, nd, m);
      Smaller(IntNodes(nd, |arr|, m), Interval(-1, |nd| - 1));
    }
  }
}
