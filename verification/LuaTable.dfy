/** The table object (lua/ltable.c): lookup, insertion, rehash and resize over an array part and a hash part. */
module LuaTables {
  import opened TableNodes
  import opened TableInsert
  import opened TableSizes
  import opened TableStore
  import opened TableCases
  import opened TableNext

  /** The slot to store through, or the error "table overflow". */
  datatype Place = Place(slot: Slot) | Overflow

  /** What a caller may use as a key. */
  datatype Arg = NilArg | NaNArg | KeyArg(k: Key)

  datatype PutResult = Stored | IndexIsNil | IndexIsNaN | TableOverflow

  datatype Entry = End | Entry(k: Key, v: Value) | InvalidKey

  /** What a program does with a table between two looks at it. */
  datatype Op = Assign(k: Key, v: Value) | Read(k: Key) | Collect(x: nat)

  /** The value last assigned to k by those of the first n operations that were done, or the value v0 it had before
      them. */
  function LastStored(ops: seq<Op>, done: seq<bool>, n: nat, k: Key, v0: Value): Value
    requires n <= |ops| && n <= |done|
  {
    if n == 0 then v0
    else if ops[n - 1].Assign? && done[n - 1] && ops[n - 1].k == k then ops[n - 1].v
    else LastStored(ops, done, n - 1, k, v0)
  }

  lemma {:induction false} LastStoredSame(ops: seq<Op>, done: seq<bool>, more: seq<bool>, n: nat, k: Key, v0: Value)
    requires n <= |ops| && n <= |done|
    ensures LastStored(ops, done + more, n, k, v0) == LastStored(ops, done, n, k, v0)
  {
    if n > 0 { LastStoredSame(ops, done, more, n - 1, k, v0); }
  }

  /** Between two calls of next: an assignment to a field that exists, or the collector declaring a key dead. */
  datatype Edit = Write(k: Key, v: Value) | Kill(x: nat)

  datatype Item = Item(k: Key, v: Value)

  ghost predicate Clears(edits: seq<Edit>, k: Key) { exists i :: 0 <= i < |edits| && edits[i] == Write(k, Nil) }

  ghost predicate Writes(edits: seq<Edit>, k: Key) {
    exists i :: 0 <= i < |edits| && edits[i].Write? && edits[i].k == k
  }

  ghost predicate Unwritten(plan: seq<seq<Edit>>, k: Key) { forall n :: 0 <= n < |plan| ==> !Writes(plan[n], k) }

  ghost predicate Uncleared(plan: seq<seq<Edit>>, k: Key) { forall n :: 0 <= n < |plan| ==> !Clears(plan[n], k) }

  lemma SameTab(arr: seq<Value>, nd: seq<Node>)
    ensures MayBecome(Tab(arr, nd), Tab(arr, nd))
  {
  }

  lemma TableIsTab(h: Hash, arr: seq<Value>, nd: seq<Node>, cid: seq<int>, pos: seq<real>)
    requires HashOk(h, |arr|, nd, cid, pos)
    ensures TabOk(Tab(arr, nd), pos)
  {
  }

  /** The entry is what a call that stops at place j returns. */
  ghost predicate NextIs(t: Tab, j: int, e: Entry) {
    && 0 <= j <= Total(t.arr, t.nd) && (e.End? <==> j == Total(t.arr, t.nd)) && !e.InvalidKey?
    && (e.Entry? ==> ReturnedAt(t, j, e.k))
  }

  lemma NextGives(t: Tab, pos: seq<real>, i: int, j: int, e: Entry)
    requires TabOk(t, pos) && NextFrom(t.arr, t.nd, i, j) && (e.End? <==> j == Total(t.arr, t.nd)) && !e.InvalidKey?
    requires e.Entry? ==> KeyOf(t.arr, t.nd, j) == e.k
    ensures NextIs(t, j, e)
  {
  }

  lemma SameReturned(t: Tab, j: int, k: Key, q: Key)
    requires ReturnedAt(t, j, k) && ReturnedAt(t, j, q)
    ensures k == q
  {
  }

  lemma Sizes0(tabs: seq<Tab>, pos: seq<real>, at: seq<int>)
    requires Traversal(tabs, pos, at)
    ensures |tabs| == |at| > 0 && |at| - 1 <= at[|at| - 1] <= Total(tabs[0].arr, tabs[0].nd)
  {
    SizeStays(tabs, pos, at, |at| - 1);
  }

  lemma GoesOn(tabs: seq<Tab>, pos: seq<real>, at: seq<int>, before: Tab, cur: Tab, k: Key)
    requires Traversal(tabs, pos, at) && |tabs| == |at| > 0 && tabs[|tabs| - 1] == before
    requires ReturnedAt(before, at[|at| - 1], k)
    requires MayBecome(before, cur) && TabOk(cur, pos)
    ensures Underway(tabs, pos, at, cur, k)
  {
  }

  lemma Distinct2(tabs: seq<Tab>, pos: seq<real>, at: seq<int>, k: Key, q: Key, m: nat, n: nat)
    requires Traversal(tabs, pos, at) && m < n < |tabs| == |at| && ReturnedAt(tabs[m], at[m], k)
    requires ReturnedAt(tabs[n], at[n], q)
    ensures k != q
  {
    KeysReturnedOnce(tabs, pos, at, m, n);
  }

  /** The array part never comes to exceed MAXASIZE. */
  ghost predicate NotLarger(arr: seq<Value>, arr': seq<Value>) { |arr'| == |arr| || |arr'| <= MAXASIZE }

  lemma NothingDone(ops: seq<Op>, arr: seq<Value>, nd: seq<Node>)
    ensures forall k :: LastStored(ops, [], 0, k, Lookup(arr, nd, k)) == Lookup(arr, nd, k)
  {
  }

  /** The map after one more operation. */
  lemma OneMoreDone(ops: seq<Op>, done: seq<bool>, ok: bool, arr: seq<Value>, nd: seq<Node>, arr': seq<Value>,
      nd': seq<Node>, a0: seq<Value>, n0: seq<Node>)
    requires |done| < |ops| && forall k :: Lookup(arr, nd, k) == LastStored(ops, done, |done|, k, Lookup(a0, n0, k))
    requires
      var op := ops[|done|];
      forall k :: Lookup(arr', nd', k) == if op.Assign? && ok && k == op.k then op.v else Lookup(arr, nd, k)
    ensures forall k :: Lookup(arr', nd', k) == LastStored(ops, done + [ok], |done| + 1, k, Lookup(a0, n0, k))
    ensures forall n: nat, k ::
        n <= |done| ==>
          LastStored(ops, done + [ok], n, k, Lookup(a0, n0, k)) == LastStored(ops, done, n, k, Lookup(a0, n0, k))
  {
    hide Lookup;
    forall n: nat, k | n <= |done|
      ensures LastStored(ops, done + [ok], n, k, Lookup(a0, n0, k)) == LastStored(ops, done, n, k, Lookup(a0, n0, k))
    {
      LastStoredSame(ops, done, [ok], n, k, Lookup(a0, n0, k));
    }
  }

  /** A failed rehash leaves a sound table with the same contents. */
  lemma OverflowIsHarmless(h: Hash, arr: seq<Value>, nd: seq<Node>, cid: seq<int>, pos: seq<real>, k: Key, n: nat,
      arr': seq<Value>)
    requires HashOk(h, |arr|, nd, cid, pos) && |nd| <= MAXASIZE && n <= MAXASIZE && NoneBeyond(arr)
    requires Grown(arr, nd, n, arr', nd)
    requires |UsedSlots(arr, |arr|)| + Valued(nd, 0) + 1 - Cnt(CountedKeys(arr, nd, k), 0, n) > MAXASIZE
    ensures HashOk(h, |arr'|, nd, cid, pos) && NoneBeyond(arr') && SameContents(arr, nd, arr', nd)
    ensures NotLarger(arr, arr') && Crowded(arr, nd)
  {
    hide NodesOk, LiveFirst, Cnt, UsedSlots, Valued, CountedKeys, SameContents, Apart;
    Unpack(h, |arr|, nd, cid, pos);
    OverflowKeepsContents(arr, nd, k, n, arr');
    forall i | MAXASIZE <= i < |arr'| ensures arr'[i].Nil? { if i < |arr| { assert arr'[i] == arr[i]; } }
  }

  /** INT_MAX: the size of the array part is kept in an int. */
  const INTMAX: nat := 0x7fff_ffff

  class LuaTable {
    const hash: Hash
    var items: seq<Value>
    var node: seq<Node>
    var dummy: bool
    var lastfree: int
    ghost var cid: seq<int>
    ghost var pos: seq<real>

    ghost predicate Valid()
      reads this
    {
      && HashOk(hash, |items|, node, cid, pos) && FreeOk(node, dummy, lastfree)
      && |items| < INTMAX && |node| <= MAXASIZE
    }

    /** The value stored under k: the table as a map. */
    ghost function At(k: Key): Value
      reads this
    {
      Lookup(items, node, k)
    }

    // ----- lookup

    /** The walk of luaH_getnum, luaH_getstr and luaH_get along the chain of k. */
    method FindNode(k: Key) returns (x: int)
      requires Chains(node, cid, pos) && Homes(hash, node, cid, pos)
      ensures if x == -1 then forall z :: !Holds(node, z, k) else Holds(node, x, k)
    {
      hide Chains, Homes, Ahead, Behind;
      Sizes(node, cid, pos);
      var n := Main(hash, |node|, k);
      forall z | Holds(node, z, k) ensures Ahead(node, cid, pos, n, z) { WalkStarts(hash, node, cid, pos, z); }
      while true
        invariant 0 <= n < |node| == |cid| == |pos|
        invariant forall z :: Holds(node, z, k) ==> Ahead(node, cid, pos, n, z)
        decreases |Behind(pos, n)|
      {
        if node[n].key == Live(k) { return n; }
        forall z | Holds(node, z, k) ensures node[n].next != -1 && Ahead(node, cid, pos, node[n].next, z) {
          WalkGoesOn(node, cid, pos, n, z);
        }
        if node[n].next == -1 { return -1; }
        WalkShrinks(node, cid, pos, n);
        n := node[n].next;
      }
    }

    /** luaH_get, as a slot. */
    method GetSlot(k: Key) returns (s: Slot)
      requires Chains(node, cid, pos) && Homes(hash, node, cid, pos)
      ensures SlotFor(items, node, s, k)
    {
      hide Chains, Homes;
      if k.Int? && 1 <= k.i <= |items| { return InArray(k.i - 1); }
      var x := FindNode(k);
      s := if x == -1 then NoSlot else InNode(x);
    }

    method Get(k: Key) returns (v: Value)
      requires Valid()
      ensures v == At(k)
    {
      hide Chains, Homes, Keys, Lookup;
      var s := GetSlot(k);
      SlotValue(items, node, s, k);
      match s
      case InArray(i) => v := items[i];
      case InNode(x) => v := node[x].val;
      case NoSlot => v := Nil;
    }

    /** luaH_get for anything a program may use as a key: nothing is stored under nil or NaN. */
    method GetAny(a: Arg) returns (v: Value)
      requires Valid()
      ensures v == if a.KeyArg? then At(a.k) else Nil
    {
      if a.KeyArg? { v := Get(a.k); } else { v := Nil; }
    }

    // ----- insertion

    /** getfreepos: the highest free node, or -1 when there is none. */
    method GetFreePos() returns (n: int)
      requires FreeOk(node, dummy, lastfree)
      modifies this`lastfree
      ensures FreeOk(node, dummy, lastfree + if n == -1 then 0 else 1)
      ensures n == -1 ==> Room(node, dummy) == 0
      ensures n != -1 ==> !dummy && 0 <= n < |node| && n == lastfree && node[n].key.Free?
    {
      while lastfree > 0
        invariant FreeOk(node, dummy, lastfree)
      {
        lastfree := lastfree - 1;
        if node[lastfree].key.Free? { return lastfree; }
      }
      lastfree := lastfree - 1;
      if !dummy { NoFreeNode(node); }
      n := -1;
    }

    /** The walk in newkey to the node before mp, which is not at its main position. */
    method FindPrevious(mp: int) returns (p: int)
      requires Chains(node, cid, pos) && Homes(hash, node, cid, pos) && IsUsed(node, mp)
      requires Main(hash, |node|, node[mp].key.k) != mp
      ensures IsUsed(node, p) && p != mp && node[p].next == mp
    {
      hide Chains, Homes, Behind;
      Sizes(node, cid, pos);
      p := Main(hash, |node|, node[mp].key.k);
      WalkStarts(hash, node, cid, pos, mp);
      while node[p].next != mp
        invariant 0 <= p < |node| == |cid| == |pos| && p != mp && Ahead(node, cid, pos, p, mp)
        decreases |Behind(pos, p)|
      {
        WalkGoesOn(node, cid, pos, p, mp);
        WalkShrinks(node, cid, pos, p);
        p := node[p].next;
      }
    }

    /** newkey, for a key that is not in the table. With room for it no rehash happens. */
    method NewKey(k: Key, ghost room: bool) returns (r: Place)
      requires Valid() && SlotFor(items, node, NoSlot, k) && if room then Room(node, dummy) > 0 else NoneBeyond(items)
      modifies this
      ensures Valid() && SameContents(old(items), old(node), items, node) && NotLarger(old(items), items)
      ensures r.Overflow? ==> !room && Crowded(old(items), old(node))
      ensures r.Place? ==> r.slot != NoSlot && SlotFor(items, node, r.slot, k)
      ensures room ==> items == old(items) && Room(node, dummy) >= old(Room(node, dummy)) - 1
      decreases if room then 0 else 1, 3
    {
      hide NodesOk, LiveFirst, Apart, SameContents, Inserted, Room, Chains, Homes, Keys, CameIn, ExtraBound,
        Crowded, Optimal, NoneBeyond;
      Unpack(hash, |items|, node, cid, pos);
      var mp := Main(hash, |node|, k);
      ghost var nd, c0, p0, a0 := node, cid, pos, items;
      assert IsNewAt(hash, nd, k, mp);
      if !node[mp].val.Nil? || dummy {
        var n := GetFreePos();
        if n == -1 {
          var ok := Rehash(k);
          if !ok { return Overflow; }
          ghost var a1, nd1 := items, node;
          r := Set(k, true);
          SameTwice(a0, nd, a1, nd1, items, node);
          return;
        }
        var othern := Main(hash, |node|, node[mp].key.k);
        if othern != mp {
          var prev := FindPrevious(mp);
          node, cid, pos := MoveOut(node, prev, mp, n, k), cid[n := cid[mp]][mp := Fresh(cid)], pos[n := pos[mp]];
          ComesByMove(hash, |items|, nd, c0, p0, prev, mp, n, k, node, cid, pos);
          InsertionDone(items, nd, node, dummy, k, mp, n);
        } else {
          NextIn(nd, c0, p0, mp);
          node, cid, pos := Append(node, mp, n, k), cid[n := cid[mp]], pos[n := PlaceBehind(node, pos, mp)];
          ComesBehind(hash, |items|, nd, c0, p0, mp, n, k, node, cid, pos);
          InsertionDone(items, nd, node, dummy, k, n, n);
          mp := n;
        }
      } else {
        node, cid := PlaceHome(node, mp, k), if node[mp].key.Free? then cid[mp := Fresh(cid)] else cid;
        ComesHome(hash, |items|, nd, c0, p0, k, mp, node, cid);
        InsertionDone(items, nd, node, dummy, k, mp, mp);
      }
      r := Place(InNode(mp));
    }

    /** luaH_set and luaH_setnum: the slot of k, made if need be; the contents do not change. */
    method Set(k: Key, ghost room: bool) returns (r: Place)
      requires Valid() && (room ==> Room(node, dummy) >= ExtraBound(k, |items|))
      requires room || NoneBeyond(items) || IsStored(items, node, k)
      modifies this
      ensures Valid() && SameContents(old(items), old(node), items, node) && NotLarger(old(items), items)
      ensures r.Overflow? ==> !room && Crowded(old(items), old(node))
      ensures r.Place? ==> r.slot != NoSlot && SlotFor(items, node, r.slot, k)
      ensures room ==> items == old(items) && Room(node, dummy) >= old(Room(node, dummy)) - ExtraBound(k, |items|)
      ensures
        IsStored(old(items), old(node), k) ==> r.Place? && items == old(items) && node == old(node) && pos == old(pos)
      decreases if room then 0 else 1, 4
    {
      hide NodesOk, LiveFirst, Apart, FreeOk, Room, Crowded, NoneBeyond;
      Unpack(hash, |items|, node, cid, pos);
      var s := GetSlot(k);
      if s != NoSlot { return Place(s); }
      r := NewKey(k, room);
    }

    /** Assigning through a slot. */
    method Store(s: Slot, ghost k: Key, v: Value)
      requires Valid() && s != NoSlot && SlotFor(items, node, s, k)
      modifies this`items, this`node
      ensures Valid() && |items| == |old(items)| && Room(node, dummy) == old(Room(node, dummy))
      ensures MayBecome(Tab(old(items), old(node)), Tab(items, node))
      ensures forall q :: Lookup(items, node, q) == if q == k then v else Lookup(old(items), old(node), q)
    {
      hide LiveFirst, Apart;
      Unpack(hash, |items|, node, cid, pos);
      match s {
        case InArray(i) =>
          items := items[i := v];
        case InNode(x) =>
          ghost var nd := node;
          node := node[x := node[x].(val := v)];
          StoreKeeps(hash, |items|, nd, cid, pos, x, k, v, node);
          assert FreeOk(node, dummy, lastfree);
      }
    }

    // ----- rehash

    /** setnodevector: fails when more than MAXASIZE nodes are asked for. */
    method SetNodeVector(size: nat) returns (ok: bool)
      modifies this`node, this`dummy, this`lastfree, this`cid, this`pos
      ensures ok <==> size <= MAXASIZE
      ensures !ok ==>
          node == old(node) && dummy == old(dummy) && lastfree == old(lastfree) && cid == old(cid) && pos == old(pos)
      ensures ok ==> |node| <= MAXASIZE && HashOk(hash, |items|, node, cid, pos) && FreeOk(node, dummy, lastfree)
      ensures ok ==> Room(node, dummy) >= size && forall k :: NodeValue(node, k) == Nil
      ensures ok && size > 0 ==> exists l: nat :: |node| == Pow2(l) && Low(l) < size <= Pow2(l)
      ensures ok ==> (dummy <==> size == 0)
    {
      hide HashOk;
      if size == 0 {
        node, dummy, lastfree := [Node(Free, Nil, -1)], true, 0;
        cid, pos := [0], [0.0];
      } else {
        var lsize := CeilLog2(size);
        SizeBound(size, lsize);
        if lsize > MAXBITS { return false; }
        var n := Pow2(lsize);
        node, dummy, lastfree := seq(n, _ => Node(Free, Nil, -1)), false, n;
        cid, pos := seq(n, _ => 0), seq(n, _ => 0.0);
        AllFree(node);
      }
      FreshNodes(hash, |items|, node, cid, pos);
      ok := true;
    }

    /** resize: every element is re-inserted, and `extra` more nodes stay free. */
    method Resize(nasize: nat, nhsize: nat, ghost extra: nat) returns (ok: bool)
      requires Valid() && nasize <= MAXASIZE
      requires SlotsFrom(items, Min(nasize, |items|)) + HashBound(node, |node|, nasize) + extra <= nhsize
      modifies this
      ensures ok <==> nhsize <= MAXASIZE
      ensures !ok ==> Grown(old(items), old(node), nasize, items, node)
      ensures !ok ==> dummy == old(dummy) && lastfree == old(lastfree) && cid == old(cid) && pos == old(pos)
      ensures ok ==>
          && Valid() && |items| == nasize && SameContents(old(items), old(node), items, node)
          && Room(node, dummy) >= extra
      decreases 1, 1
    {
      hide Chains, Homes, LiveFirst, Room, Lookup, SlotsFrom, HashBound, Keys, Moved;
      ghost var arr := items;
      var oldItems, oldNode := items, node;
      Unpack(hash, |items|, node, cid, pos);
      if nasize > |items| { items := items + seq(nasize - |items|, _ => Nil); }
      ok := SetNodeVector(nhsize);
      if !ok { return; }
      if nasize < |oldItems| { items := items[..nasize]; }
      var i := Min(nasize, |oldItems|);
      assert HashOk(hash, |items|, node, cid, pos);
      Emptied(oldItems, items, oldNode, node, i);
      while i < |oldItems|
        invariant Min(nasize, |oldItems|) <= i <= |oldItems| && Valid() && |items| == nasize
        invariant Room(node, dummy) >= SlotsFrom(oldItems, i) + HashBound(oldNode, |oldNode|, nasize) + extra
        invariant forall k :: Lookup(items, node, k) == Moved(oldItems, i, oldNode, |oldNode|, k)
      {
        SlotsStep(oldItems, i);
        if !oldItems[i].Nil? { Insert(Int(i + 1), oldItems[i]); }
        forall k ensures Lookup(items, node, k) == Moved(oldItems, i + 1, oldNode, |oldNode|, k) {
          MovedSlot(oldItems, i, oldNode, |oldNode|, k);
        }
        i := i + 1;
      }
      var j := |oldNode|;
      while j > 0
        invariant 0 <= j <= |oldNode| && Valid() && |items| == nasize
        invariant Room(node, dummy) >= HashBound(oldNode, j, nasize) + extra
        invariant forall k :: Lookup(items, node, k) == Moved(oldItems, |oldItems|, oldNode, j, k)
      {
        j := j - 1;
        NodesStep(oldNode, j, nasize);
        if !oldNode[j].val.Nil? { Insert(oldNode[j].key.k, oldNode[j].val); }
        forall k ensures Lookup(items, node, k) == Moved(oldItems, |oldItems|, oldNode, j, k) {
          MovedNode(oldItems, oldNode, j, k);
        }
      }
      forall k ensures Lookup(items, node, k) == Lookup(oldItems, oldNode, k) { MovedAll(oldItems, oldNode, k); }
    }

    /** Re-insertion during resize: there is room, so this never rehashes again. */
    method Insert(k: Key, v: Value)
      requires Valid() && Room(node, dummy) >= ExtraBound(k, |items|)
      modifies this
      ensures Valid() && |items| == |old(items)| && Room(node, dummy) >= old(Room(node, dummy)) - ExtraBound(k, |items|)
      ensures forall q :: Lookup(items, node, q) == if q == k then v else Lookup(old(items), old(node), q)
      decreases 0, 5
    {
      hide Valid, Room, SlotFor, Lookup, ExtraBound, IsStored;
      var r := Set(k, true);
      Store(r.slot, k, v);
    }

    /** rehash: afterwards there is a place for k. */
    method Rehash(k: Key) returns (ok: bool)
      requires Valid() && SlotFor(items, node, NoSlot, k) && NoneBeyond(items)
      modifies this
      ensures Valid() && SameContents(old(items), old(node), items, node) && NotLarger(old(items), items)
      ensures !ok ==> Crowded(old(items), old(node))
      ensures ok ==> Room(node, dummy) >= ExtraBound(k, |items|)
      ensures ok ==> Optimal(CountedKeys(old(items), old(node), k), |items|)
      decreases 1, 2
    {
      hide NodesOk, LiveFirst, FreeOk, Apart, CountersOf, SameContents, Room, Optimal, Cnt, SlotsFrom, HashBound,
        UsedSlots, Keys, NoneBeyond;
      CountedInFull(items);
      ghost var arr, nd := items, node;
      Unpack(hash, |items|, node, cid, pos);
      var nums := seq(MAXBITS + 1, _ => 0);
      Reset(nums);
      var nasize, totaluse, ause, c, na;
      nasize, nums := NumUseArray(items, nums);
      totaluse, ause, nums := NumUseHash(node, nums, UsedSlots(items, |items|));
      totaluse := totaluse + nasize;
      nasize := nasize + ause;
      c, nums := CountInt(k, nums, UsedSlots(items, |items|) + NodeInts(node, 0));
      nasize := nasize + c;
      totaluse := totaluse + 1;
      CountedDistinct(items, node, k);
      nasize, na := ComputeSizes(nums, nasize, CountedKeys(items, node, k));
      SizeSuffices(items, node, k, nasize);
      ok := Resize(nasize, totaluse - na, ExtraBound(k, nasize));
      if !ok { OverflowIsHarmless(hash, arr, nd, cid, pos, k, nasize, items); }
    }

    // ----- the interface

    /** luaH_new before its sizes are set. */
    constructor (h: Hash)
      ensures Valid() && hash == h && items == [] && forall k :: At(k) == Nil
    {
      hash := h;
      items, node, dummy, lastfree := [], [Node(Free, Nil, -1)], true, 0;
      cid, pos := [0], [0.0];
      new;
      FreshNodes(hash, 0, node, cid, pos);
    }

    /** The rest of luaH_new. */
    method Presize(narray: nat, nhash: nat) returns (ok: bool)
      requires Valid() && items == [] && narray < INTMAX && forall k :: At(k) == Nil
      modifies this
      ensures ok <==> nhash <= MAXASIZE
      ensures ok ==> Valid() && |items| == narray && Room(node, dummy) >= nhash && forall k :: At(k) == Nil
    {
      hide HashOk;
      items := seq(narray, _ => Nil);
      ok := SetNodeVector(nhash);
    }

    /** An assignment t[k] = v; a nil v deletes. */
    method Put(a: Arg, v: Value) returns (r: PutResult)
      requires Valid() && (a.KeyArg? ==> NoneBeyond(items) || IsStored(items, node, a.k))
      modifies this
      ensures Valid() && NotLarger(old(items), items)
      ensures a.NilArg? ==> r == IndexIsNil && items == old(items) && node == old(node)
      ensures a.NaNArg? ==> r == IndexIsNaN && items == old(items) && node == old(node)
      ensures a.KeyArg? ==> r == Stored || (r == TableOverflow && Crowded(old(items), old(node)))
      ensures forall k :: At(k) == if r == Stored && k == a.k then v else old(At(k))
      ensures a.KeyArg? && IsStored(old(items), old(node), a.k) ==>
        r == Stored && pos == old(pos) && MayBecome(Tab(old(items), old(node)), Tab(items, node))
    {
      hide HashOk, FreeOk, Room, SlotFor, Lookup, Crowded, IsStored, MayBecome, NoneBeyond;
      match a {
        case NilArg => r := IndexIsNil;
        case NaNArg => r := IndexIsNaN;
        case KeyArg(k) =>
          var p := Set(k, false);
          if p.Overflow? { return TableOverflow; }
          Store(p.slot, k, v);
          r := Stored;
      }
    }

    /** The collector's removeentry: the key of an entry without a value is declared dead. */
    method RemoveEntry(x: nat)
      requires Valid() && x < |node| && node[x].val.Nil?
      modifies this`node
      ensures Valid() && forall k :: At(k) == old(At(k))
      ensures MayBecome(Tab(items, old(node)), Tab(items, node))
    {
      hide Chains, Homes;
      if node[x].key.Live? && node[x].key.k.Other? && node[x].key.k.collectable {
        ghost var nd := node;
        Unpack(hash, |items|, node, cid, pos);
        node := node[x := node[x].(key := Dead(node[x].key.k))];
        DeathKeeps(hash, |items|, nd, cid, pos, x, node);
        assert FreeOk(node, dummy, lastfree);
      }
    }

    /** luaH_resizearray, which keeps the number of nodes: what leaves the array part must fit into them. Growing
        always does (GrowthFits). */
    method ResizeArray(nasize: nat) returns (ok: bool)
      requires Valid() && nasize <= MAXASIZE
      requires SlotsFrom(items, Min(nasize, |items|)) + HashBound(node, |node|, nasize) <= if dummy then 0 else |node|
      modifies this
      ensures ok && Valid() && |items| == nasize && forall k :: At(k) == old(At(k))
    {
      hide HashOk, FreeOk, Room, Lookup;
      var nsize := if dummy then 0 else |node|;
      ok := Resize(nasize, nsize, 0);
    }

    /** Any program of assignments and reads, with the collector at work in between, sees a plain map: every read
        returns the value last assigned to the key. An assignment that overflows changes nothing, and happens to
        crowded tables only. tabs[i] is the table before the i-th operation. */
    method Perform(ops: seq<Op>) returns (out: seq<Value>, done: seq<bool>, ghost tabs: seq<Tab>)
      requires Valid() && |items| <= MAXASIZE
      modifies this
      ensures Valid() && |items| <= MAXASIZE && |out| == |ops| && |done| == |ops| && |tabs| == |ops|
      ensures
        forall i :: 0 <= i < |ops| && ops[i].Read? ==> out[i] == LastStored(ops, done, i, ops[i].k, old(At(ops[i].k)))
      ensures forall k :: At(k) == LastStored(ops, done, |ops|, k, old(At(k)))
      ensures forall i, k ::
          0 <= i < |ops| ==> Lookup(tabs[i].arr, tabs[i].nd, k) == LastStored(ops, done, i, k, old(At(k)))
      ensures forall i :: 0 <= i < |ops| && !done[i] ==> ops[i].Assign? && Crowded(tabs[i].arr, tabs[i].nd)
    {
      hide HashOk, FreeOk, Lookup, Crowded, MayBecome, LastStored;
      out, done, tabs := [], [], [];
      ghost var a0, n0 := items, node;
      NothingDone(ops, a0, n0);
      while |out| < |ops|
        invariant Valid() && |items| <= MAXASIZE && |out| <= |ops| && |done| == |out| && |tabs| == |out|
        invariant forall k :: Lookup(items, node, k) == LastStored(ops, done, |out|, k, Lookup(a0, n0, k))
        invariant forall i ::
            0 <= i < |out| && ops[i].Read? ==> out[i] == LastStored(ops, done, i, ops[i].k, Lookup(a0, n0, ops[i].k))
        invariant forall i, k ::
            0 <= i < |out| ==> Lookup(tabs[i].arr, tabs[i].nd, k) == LastStored(ops, done, i, k, Lookup(a0, n0, k))
        invariant forall i :: 0 <= i < |out| && !done[i] ==> ops[i].Assign? && Crowded(tabs[i].arr, tabs[i].nd)
      {
        ghost var arr, nd := items, node;
        var v, ok := Step(ops[|out|]);
        OneMoreDone(ops, done, ok, arr, nd, items, node, a0, n0);
        out, done, tabs := out + [v], done + [ok], tabs + [Tab(arr, nd)];
      }
    }

    /** One operation of a program. */
    method Step(op: Op) returns (v: Value, ok: bool)
      requires Valid() && |items| <= MAXASIZE
      modifies this
      ensures Valid() && |items| <= MAXASIZE
      ensures op.Read? ==> v == old(At(op.k))
      ensures !ok ==> op.Assign? && Crowded(old(items), old(node))
      ensures forall k ::
          Lookup(items, node, k) == if op.Assign? && ok && k == op.k then op.v else Lookup(old(items), old(node), k)
    {
      hide HashOk, FreeOk, Lookup, Crowded, MayBecome, IsStored;
      ghost var arr, nd := items, node;
      v, ok := Nil, true;
      match op {
        case Assign(k, w) =>
          var r := Put(KeyArg(k), w);
          ok := r == Stored;
        case Read(k) =>
          v := Get(k);
        case Collect(x) =>
          if x < |node| && node[x].val.Nil? { RemoveEntry(x); }
      }
      forall k ensures Lookup(items, node, k) == if op.Assign? && ok && k == op.k then op.v else Lookup(arr, nd, k) {
        assert At(k) == Lookup(items, node, k);
      }
    }

    // ----- traversal

    /** findindex: the place of a key, or -2 when the key is not in the table. */
    method FindIndex(a: Arg) returns (i: int)
      requires Valid()
      ensures a.NilArg? ==> i == -1
      ensures a.NaNArg? ==> i == -2
      ensures a.KeyArg? ==>
          if i == -2 then !InArrayRange(|items|, a.k) && forall z :: 0 <= z < |node| ==> !Matches(node[z].key, a.k)
                            else i < Total(items, node) && IsIndexOf(|items|, node, pos, a.k, i)
    {
      hide Chains, Homes, Ahead, Behind, LiveFirst, Keys;
      Unpack(hash, |items|, node, cid, pos);
      if a.NilArg? { return -1; }
      if a.NaNArg? { return -2; }
      if a.k.Int? && 1 <= a.k.i <= |items| { return a.k.i - 1; }
      var n := Main(hash, |node|, a.k);
      forall z | 0 <= z < |node| && Matches(node[z].key, a.k)
        ensures Ahead(node, cid, pos, n, z)
      {
        WalkStarts(hash, node, cid, pos, z);
      }
      while true
        invariant 0 <= n < |node| == |cid| == |pos|
        invariant forall z :: 0 <= z < |node| && Matches(node[z].key, a.k) ==> Ahead(node, cid, pos, n, z)
        decreases |Behind(pos, n)|
      {
        if Matches(node[n].key, a.k) {
          FirstMet(node, cid, pos, n, a.k);
          return n + |items|;
        }
        forall z | 0 <= z < |node| && Matches(node[z].key, a.k)
          ensures node[n].next != -1 && Ahead(node, cid, pos, node[n].next, z)
        {
          WalkGoesOn(node, cid, pos, n, z);
        }
        if node[n].next == -1 { return -2; }
        WalkShrinks(node, cid, pos, n);
        n := node[n].next;
      }
    }

    /** luaH_next: the entry after the one of the given key; j is the place it stops at. */
    method Next(a: Arg) returns (e: Entry, i: int, j: int)
      requires Valid()
      ensures a.NilArg? ==> i == -1
      ensures a.KeyArg? && i != -2 ==> IsIndexOf(|items|, node, pos, a.k, i)
      ensures e.InvalidKey? <==> i == -2
      ensures i == -2 ==>
          || a.NaNArg?
          || (a.KeyArg? && !InArrayRange(|items|, a.k) && forall z :: 0 <= z < |node| ==> !Matches(node[z].key, a.k))
      ensures i != -2 ==> NextFrom(items, node, i + 1, j) && (e.End? <==> j == Total(items, node))
      ensures e.Entry? ==> !e.v.Nil? && At(e.k) == e.v && KeyOf(items, node, j) == e.k
    {
      hide Chains, Homes, Lookup, First, LiveFirst;
      Unpack(hash, |items|, node, cid, pos);
      i := FindIndex(a);
      if i == -2 { return InvalidKey, -2, -2; }
      j := i + 1;
      while j < |items|
        invariant i + 1 <= j && (j <= |items| || j == i + 1)
        invariant forall x :: i + 1 <= x < j ==> ValueOf(items, node, x).Nil?
      {
        if !items[j].Nil? {
          PlaceHoldsKey(items, node, j);
          return Entry(Int(j + 1), items[j]), i, j;
        }
        j := j + 1;
      }
      while j - |items| < |node|
        invariant |items| <= j <= Total(items, node) && i + 1 <= j
        invariant forall x :: i + 1 <= x < j ==> ValueOf(items, node, x).Nil?
      {
        if !node[j - |items|].val.Nil? {
          PlaceHoldsKey(items, node, j);
          return Entry(node[j - |items|].key.k, node[j - |items|].val), i, j;
        }
        j := j + 1;
      }
      e := End;
    }

    /** What a program does to the fields of the table between two calls of next. */
    method Edits(edits: seq<Edit>)
      requires Valid()
      modifies this`items, this`node
      ensures Valid() && |items| == |old(items)| && MayBecome(Tab(old(items), old(node)), Tab(items, node))
      ensures forall k :: !old(At(k)).Nil? && !Clears(edits, k) ==> !At(k).Nil?
      ensures forall k :: !Writes(edits, k) ==> At(k) == old(At(k))
    {
      hide HashOk, FreeOk, Lookup, MayBecome, SlotFor, Room, NoneBeyond;
      ghost var a0, n0 := items, node;
      SameTab(items, node);
      var i := 0;
      while i < |edits|
        invariant 0 <= i <= |edits| && Valid() && |items| == |a0| && MayBecome(Tab(a0, n0), Tab(items, node))
        invariant forall k :: !Lookup(a0, n0, k).Nil? && !Clears(edits, k) ==> !Lookup(items, node, k).Nil?
        invariant forall k :: !Writes(edits, k) ==> Lookup(items, node, k) == Lookup(a0, n0, k)
      {
        ghost var a1, n1 := items, node;
        SameTab(items, node);
        match edits[i] {
          case Write(k, v) =>
            Unpack(hash, |items|, node, cid, pos);
            var s := GetSlot(k);
            if s != NoSlot { Store(s, k, v); }
            assert (v.Nil? ==> Clears(edits, k)) && Writes(edits, k);
          case Kill(x) =>
            if x < |node| && node[x].val.Nil? { RemoveEntry(x); }
            forall k ensures Lookup(items, node, k) == Lookup(a1, n1, k) { assert At(k) == Lookup(items, node, k); }
        }
        MayBecomeTrans(Tab(a0, n0), Tab(a1, n1), Tab(items, node));
        i := i + 1;
      }
    }

    /** A loop over next from nil, which after its n-th entry edits the table as plan[n] says: it assigns to or
        clears fields that exist, and lets keys of cleared entries be collected. It ends, returns no key twice, and
        returns every key that had a value and is not cleared. */
    method Traverse(plan: seq<seq<Edit>>) returns (out: seq<Item>)
      requires Valid()
      modifies this`items, this`node
      ensures Valid() && |out| <= Total(old(items), old(node))
      ensures forall m, n :: 0 <= m < n < |out| ==> out[m].k != out[n].k
      ensures forall m :: 0 <= m < |out| && Unwritten(plan, out[m].k) ==> out[m].v == old(At(out[m].k))
      ensures forall k :: !old(At(k)).Nil? && Uncleared(plan, k) ==> exists m :: 0 <= m < |out| && out[m].k == k
    {
      hide HashOk, FreeOk, Lookup, MayBecome, Traversal, TabOk, IsIndexOf, NoneBeyond, Clears, Writes, Matches,
        Underway, KeyOf, ValueOf, NextFrom, ReturnedAt;
      out := [];
      ghost var a0, n0, p0 := items, node, pos;
      ghost var i, j;
      var entry;
      TableIsTab(hash, items, node, cid, pos);
      entry, i, j := Next(NilArg);
      FirstCall(p0, Tab(items, node), j);
      NextGives(Tab(items, node), p0, 0, j, entry);
      ghost var tabs, at := [Tab(items, node)], [j];
      Sizes0(tabs, p0, at);
      while entry.Entry?
        invariant Valid() && |items| == |a0| && |node| == |n0| && pos == p0 && |tabs| == |at| == |out| + 1
        invariant tabs[0] == Tab(a0, n0)
        invariant Traversal(tabs, p0, at) && tabs[|out|] == Tab(items, node)
        invariant NextIs(Tab(items, node), at[|out|], entry)
        invariant |out| <= Total(a0, n0)
        invariant forall m :: 0 <= m < |out| ==> ReturnedAt(tabs[m], at[m], out[m].k)
        invariant entry.Entry? ==> entry.v == Lookup(items, node, entry.k)
        invariant forall m :: 0 <= m < |out| && Unwritten(plan, out[m].k) ==> out[m].v == Lookup(a0, n0, out[m].k)
        invariant forall k :: Unwritten(plan, k) ==> Lookup(items, node, k) == Lookup(a0, n0, k)
        invariant forall m, k ::
            0 <= m < |tabs| && !Lookup(a0, n0, k).Nil? && Uncleared(plan, k) ==>
              !Lookup(tabs[m].arr, tabs[m].nd, k).Nil?
        decreases Total(a0, n0) - |out|
      {
        var key := entry.k;
        out := out + [Item(entry.k, entry.v)];
        ghost var before := Tab(items, node);
        SameTab(items, node);
        if |out| - 1 < |plan| { Edits(plan[|out| - 1]); }
        forall k | Unwritten(plan, k)
          ensures Lookup(items, node, k) == Lookup(a0, n0, k)
        {
          assert At(k) == Lookup(items, node, k);
        }
        TableIsTab(hash, items, node, cid, pos);
        GoesOn(tabs, p0, at, before, Tab(items, node), key);
        NextFinds(tabs, p0, at, Tab(items, node), key);
        entry, i, j := Next(KeyArg(key));
        NextGives(Tab(items, node), p0, i + 1, j, entry);
        NextExtends(tabs, p0, at, Tab(items, node), key, i, j);
        tabs, at := tabs + [Tab(items, node)], at + [j];
        Sizes0(tabs, p0, at);
      }
      forall m, n | 0 <= m < n < |out|
        ensures out[m].k != out[n].k
      {
        Distinct2(tabs, p0, at, out[m].k, out[n].k, m, n);
      }
      forall k | !Lookup(a0, n0, k).Nil? && Uncleared(plan, k) ensures exists m :: 0 <= m < |out| && out[m].k == k {
        var m := KeyReturned(tabs, p0, at, k);
        SameReturned(tabs[m], at[m], out[m].k, k);
      }
    }

    // ----- the boundary

    /** luaH_getn: a boundary, an index in use, or 0, whose successor is not. */
    method GetN() returns (n: nat)
      requires Valid()
      ensures (n == 0 || !At(Int(n)).Nil?) && At(Int(n + 1)).Nil?
    {
      hide Chains, Homes, LiveFirst, FreeOk;
      var j := |items|;
      if j > 0 && items[j - 1].Nil? {
        var i := 0;
        while j - i > 1
          invariant 0 <= i < j <= |items| && items[j - 1].Nil? && (i == 0 || !items[i - 1].Nil?)
        {
          var m := (i + j) / 2;
          if items[m - 1].Nil? { j := m; } else { i := m; }
        }
        return i;
      } else if dummy {
        DummyIsEmpty(items, node, dummy, lastfree, Int(j + 1));
        return j;
      } else {
        n := UnboundSearch(j);
      }
    }

    /** MAX_INT of llimits.h. */
    const MAXINT: nat := INTMAX - 2

    /** unbound_search, from an index in use or 0. */
    method UnboundSearch(j0: nat) returns (n: nat)
      requires Valid() && j0 < INTMAX && (j0 == 0 || !At(Int(j0)).Nil?)
      ensures (n == 0 || !At(Int(n)).Nil?) && At(Int(n + 1)).Nil?
    {
      hide HashOk, FreeOk, Lookup;
      var i, j := j0, j0 + 1;
      var v := Get(Int(j));
      while !v.Nil?
        invariant 0 <= i < j <= INTMAX && (i == 0 || !At(Int(i)).Nil?) && v == At(Int(j))
        decreases INTMAX - j
      {
        i := j;
        j := j * 2;
        if j > MAXINT {
          n := LinearSearch();
          return;
        }
        v := Get(Int(j));
      }
      while j - i > 1
        invariant 0 <= i < j && (i == 0 || !At(Int(i)).Nil?) && At(Int(j)).Nil?
      {
        var m := (i + j) / 2;
        v := Get(Int(m));
        if v.Nil? { j := m; } else { i := m; }
      }
      n := i;
    }

    /** The fallback of unbound_search: it ends because a table has at most as many keys as places. */
    method LinearSearch() returns (n: nat)
      requires Valid()
      ensures (n == 0 || !At(Int(n)).Nil?) && At(Int(n + 1)).Nil?
    {
      hide HashOk, FreeOk, Lookup;
      Unpack(hash, |items|, node, cid, pos);
      var i := 1;
      var v := Get(Int(i));
      while !v.Nil?
        invariant i >= 1 && v == At(Int(i)) && forall x :: 1 <= x < i ==> !Lookup(items, node, Int(x)).Nil?
        decreases Total(items, node) + 1 - i
      {
        FewKeys(items, node, i);
        i := i + 1;
        v := Get(Int(i));
      }
      n := i - 1;
    }
  }
}
