/** A whole Lua table, array part and hash part together: what it stores, and the room it has. */
module TableStore {
  import opened TableNodes
  import opened TableInsert
  import opened TableSizes

  predicate InArrayRange(n: nat, k: Key) { k.Int? && 1 <= k.i <= n }

  /** The value stored under k. */
  ghost function Lookup(arr: seq<Value>, nd: seq<Node>, k: Key): (v: Value) {
    if InArrayRange(|arr|, k) then arr[k.i - 1] else NodeValue(nd, k)
  }

  ghost predicate SameContents(arr: seq<Value>, nd: seq<Node>, arr': seq<Value>, nd': seq<Node>) {
    forall k :: Lookup(arr', nd', k) == Lookup(arr, nd, k)
  }

  /** Where luaH_get finds a key; NoSlot is luaO_nilobject. */
  datatype Slot = NoSlot | InArray(i: nat) | InNode(x: nat)

  ghost predicate SlotFor(arr: seq<Value>, nd: seq<Node>, s: Slot, k: Key) {
    match s
    case InArray(i) => k == Int(i + 1) && i < |arr|
    case InNode(x) => !InArrayRange(|arr|, k) && Holds(nd, x, k)
    case NoSlot => !InArrayRange(|arr|, k) && forall x :: !Holds(nd, x, k)
  }

  /** No key with a value in the hash part belongs to the array part. */
  ghost predicate Apart(n: nat, nd: seq<Node>) {
    forall x :: 0 <= x < |nd| && nd[x].key.Live? && !nd[x].val.Nil? ==> !InArrayRange(n, nd[x].key.k)
  }

  /** k has a slot. */
  ghost predicate IsStored(arr: seq<Value>, nd: seq<Node>, k: Key) {
    InArrayRange(|arr|, k) || exists x :: Holds(nd, x, k)
  }

  /** A key in use comes before every dead copy of it on their chain, so findindex meets it first. */
  ghost predicate LiveFirst(nd: seq<Node>, pos: seq<real>)
    requires |pos| == |nd|
  {
    forall x, z ::
      0 <= x < |nd| && 0 <= z < |nd| && nd[x].key.Live? && nd[z].key.Dead? && nd[x].key.k == nd[z].key.k ==>
        pos[x] < pos[z]
  }

  /** Every free node lies below lastfree; the shared dummy node is never handed out. */
  ghost predicate FreeOk(nd: seq<Node>, dummy: bool, lastfree: int) {
    && lastfree <= |nd|
    && (dummy ==> nd == [Node(Free, Nil, -1)] && lastfree <= 0)
    && (!dummy ==> forall x :: 0 <= x < |nd| && lastfree <= x ==> !nd[x].key.Free?)
  }

  ghost function FreeSet(nd: seq<Node>): set<int> { set x | 0 <= x < |nd| && nd[x].key.Free? }

  /** How many keys newkey can take before it has to rehash. */
  ghost function Room(nd: seq<Node>, dummy: bool): nat { if dummy then 0 else |FreeSet(nd)| }

  lemma RoomAfter(nd: seq<Node>, nd': seq<Node>, t: int)
    requires |nd'| == |nd| && forall x :: 0 <= x < |nd| && x != t && nd[x].key.Free? ==> nd'[x].key.Free?
    ensures |FreeSet(nd')| >= |FreeSet(nd)| - 1
  {
    Smaller(FreeSet(nd) - {t}, FreeSet(nd'));
  }

  /** A table with an unused node has room. */
  lemma NoFreeNode(nd: seq<Node>)
    requires forall x :: 0 <= x < |nd| ==> !nd[x].key.Free?
    ensures |FreeSet(nd)| == 0
  {
    assert FreeSet(nd) == {};
  }

  lemma {:induction false} AllFree(nd: seq<Node>)
    requires forall x :: 0 <= x < |nd| ==> nd[x].key.Free?
    ensures |FreeSet(nd)| == |nd|
  {
    if nd == [] { assert FreeSet(nd) == {}; } else {
      var m := |nd| - 1;
      AllFree(nd[..m]);
      assert FreeSet(nd) == FreeSet(nd[..m]) + {m};
    }
  }

  // ----- values

  lemma SlotValue(arr: seq<Value>, nd: seq<Node>, s: Slot, k: Key)
    requires Keys(nd) && SlotFor(arr, nd, s, k)
    ensures Lookup(arr, nd, k) == match s { case InArray(i) => arr[i] case InNode(x) => nd[x].val case NoSlot => Nil }
  {
    if s.InNode? { NodeValueIs(nd, k, s.x); }
  }

  /** Storing through a slot changes the value of one key. */
  lemma StoreInNode(nd: seq<Node>, x: int, k: Key, v: Value, k': Key)
    requires Keys(nd) && Holds(nd, x, k)
    ensures Keys(nd[x := nd[x].(val := v)])
    ensures NodeValue(nd[x := nd[x].(val := v)], k') == if k' == k then v else NodeValue(nd, k')
  {
    var r := nd[x := nd[x].(val := v)];
    assert Keys(r);
    assert forall z, q :: Holds(r, z, q) <==> Holds(nd, z, q);
    if z :| Holds(nd, z, k') {
      NodeValueIs(nd, k', z);
      assert Holds(r, z, k');
      NodeValueIs(r, k', z);
      if k' == k { assert z == x; }
    }
  }

  /** Changing values only keeps the structure. */
  lemma ValuesDoNotMatter(h: Hash, nd: seq<Node>, r: seq<Node>, cid: seq<int>, pos: seq<real>)
    requires Chains(nd, cid, pos) && Homes(h, nd, cid, pos) && |r| == |nd|
    requires forall x :: 0 <= x < |nd| ==> r[x].next == nd[x].next && (r[x].key.Free? <==> nd[x].key.Free?)
    requires forall x :: 0 <= x < |nd| ==> if nd[x].key.Free? then r[x].val.Nil? else r[x].key.k == nd[x].key.k
    ensures Chains(r, cid, pos) && Homes(h, r, cid, pos)
  {
    forall x ensures LinkOk(r, cid, pos, x) { assert LinkOk(nd, cid, pos, x); }
    forall x, z ensures PairOk(r, cid, pos, x, z) { assert PairOk(nd, cid, pos, x, z); }
    forall x ensures HomeOk(h, r, cid, pos, x) { assert HomeOk(h, nd, cid, pos, x); }
  }

  // ----- walking a chain

  /** The walk from the main position of k has not passed node z. */
  ghost predicate Ahead(nd: seq<Node>, cid: seq<int>, pos: seq<real>, n: int, z: int)
    requires |cid| == |nd| && |pos| == |nd|
  {
    0 <= z < |nd| && IsUsed(nd, n) && cid[n] == cid[z] && pos[n] <= pos[z]
  }

  lemma WalkStarts(h: Hash, nd: seq<Node>, cid: seq<int>, pos: seq<real>, z: int)
    requires Chains(nd, cid, pos) && Homes(h, nd, cid, pos) && IsUsed(nd, z)
    ensures Ahead(nd, cid, pos, Main(h, |nd|, nd[z].key.k), z)
  {
    assert HomeOk(h, nd, cid, pos, z);
  }

  lemma WalkGoesOn(nd: seq<Node>, cid: seq<int>, pos: seq<real>, n: int, z: int)
    requires Chains(nd, cid, pos) && IsUsed(nd, z) && Ahead(nd, cid, pos, n, z) && n != z
    ensures nd[n].next != -1 && Ahead(nd, cid, pos, nd[n].next, z)
  {
    assert PairOk(nd, cid, pos, n, z) && LinkOk(nd, cid, pos, n);
  }

  lemma WalkShrinks(nd: seq<Node>, cid: seq<int>, pos: seq<real>, n: int)
    requires Chains(nd, cid, pos) && 0 <= n < |nd| && nd[n].next != -1
    ensures 0 <= nd[n].next < |nd| && |Behind(pos, nd[n].next)| < |Behind(pos, n)|
  {
    assert LinkOk(nd, cid, pos, n);
    BehindShrinks(pos, n, nd[n].next);
  }

  // ----- a dead copy of a key never comes before the key itself

  lemma PlaceHomeLiveFirst(h: Hash, nd: seq<Node>, cid: seq<int>, pos: seq<real>, k: Key, mp: int, r: seq<Node>)
    requires Chains(nd, cid, pos) && Homes(h, nd, cid, pos) && LiveFirst(nd, pos)
    requires IsNewAt(h, nd, k, mp) && r == PlaceHome(nd, mp, k)
    ensures LiveFirst(r, pos)
  {
    forall z | 0 <= z < |nd| && z != mp && nd[z].key == Dead(k) ensures pos[mp] < pos[z] {
      assert HomeOk(h, nd, cid, pos, z);
      assert PairOk(nd, cid, pos, mp, z);
    }
  }

  lemma MoveOutLiveFirst(h: Hash, nd: seq<Node>, cid: seq<int>, pos: seq<real>, prev: int, mp: int, n: int, k: Key,
      r: seq<Node>, pos': seq<real>)
    requires Chains(nd, cid, pos) && Homes(h, nd, cid, pos) && LiveFirst(nd, pos)
    requires IsNewAt(h, nd, k, mp) && CanMove(h, nd, prev, mp, n) && r == MoveOut(nd, prev, mp, n, k)
    requires pos' == pos[n := pos[mp]]
    ensures LiveFirst(r, pos')
  {
    forall z | 0 <= z < |nd| && nd[z].key.Dead? ensures nd[z].key.k != k { assert HomeOk(h, nd, cid, pos, z); }
    forall x, z | 0 <= x < |nd| && 0 <= z < |nd| && r[x].key.Live? && r[z].key.Dead? && r[x].key.k == r[z].key.k
      ensures pos'[x] < pos'[z]
    {
      var x0, z0 := if x == n then mp else x, if z == n then mp else z;
      assert nd[z0].key == r[z].key;
      assert nd[x0].key == r[x].key;
    }
  }

  lemma AppendLiveFirst(h: Hash, nd: seq<Node>, cid: seq<int>, pos: seq<real>, mp: int, n: int, k: Key, r: seq<Node>,
      pos': seq<real>)
    requires Chains(nd, cid, pos) && Homes(h, nd, cid, pos) && LiveFirst(nd, pos)
    requires IsNewAt(h, nd, k, mp) && nd[mp].key.Live? && CanAppend(h, nd, mp, n) && r == Append(nd, mp, n, k)
    requires pos' == pos[n := PlaceBehind(nd, pos, mp)]
    ensures LiveFirst(r, pos')
  {
    forall z | 0 <= z < |nd| && nd[z].key == Dead(k) ensures PlaceBehind(nd, pos, mp) < pos[z] {
      assert HomeOk(h, nd, cid, pos, z) && PairOk(nd, cid, pos, mp, z) && LinkOk(nd, cid, pos, mp);
    }
  }

  // ----- the sizes rehash asks for

  /** Used slots of the array part from index i on. */
  ghost function SlotsFrom(arr: seq<Value>, i: nat): nat
    requires i <= |arr|
    decreases |arr| - i
  {
    if i == |arr| then 0 else SlotsFrom(arr, i + 1) + if arr[i].Nil? then 0 else 1
  }

  /** Nodes below i with a value whose key stays out of an array part of size n. */
  ghost function HashBound(nd: seq<Node>, i: nat, n: nat): nat
    requires i <= |nd|
  {
    if i == 0 then 0
    else
      var stays := !nd[i - 1].val.Nil? && !nd[i - 1].key.Free? && !InArrayRange(n, nd[i - 1].key.k);
      HashBound(nd, i - 1, n) + if stays then 1 else 0
  }

  ghost function ExtraBound(k: Key, n: nat): nat { if InArrayRange(n, k) then 0 else 1 }

  /** All integers rehash counts. */
  ghost function CountedKeys(arr: seq<Value>, nd: seq<Node>, k: Key): seq<int> {
    UsedSlots(arr, |arr|) + NodeInts(nd, 0) + ArrayIndexes(k)
  }

  lemma {:induction false} SlotsLeft(arr: seq<Value>, i: nat, n: nat)
    requires i <= |arr| && n <= i
    ensures |UsedSlots(arr, i)| - Cnt(UsedSlots(arr, i), 0, n) + SlotsFrom(arr, i) == SlotsFrom(arr, n)
  {
    hide Cnt, UsedSlots, Within, Distinct;
    if i == n {
      CntAll(UsedSlots(arr, i), 0, n);
    } else {
      SlotsLeft(arr, i - 1, n);
      OneMoreSlot(arr, i, n);
    }
  }

  lemma OneMoreSlot(arr: seq<Value>, i: nat, n: nat)
    requires 0 < i <= |arr| && n < i
    ensures |UsedSlots(arr, i)| == |UsedSlots(arr, i - 1)| + if arr[i - 1].Nil? then 0 else 1
    ensures Cnt(UsedSlots(arr, i), 0, n) == Cnt(UsedSlots(arr, i - 1), 0, n)
  {
    hide Cnt, Within, Distinct;
    if arr[i - 1].Nil? {
      assert UsedSlots(arr, i) == UsedSlots(arr, i - 1);
    } else {
      CntSnoc(UsedSlots(arr, i - 1), i, 0, n);
    }
  }

  lemma {:induction false} NodesLeft(nd: seq<Node>, i: nat, n: nat)
    requires i <= |nd| && n <= MAXASIZE && forall x :: 0 <= x < |nd| && !nd[x].val.Nil? ==> !nd[x].key.Free?
    ensures Valued(nd, i) - Cnt(NodeInts(nd, i), 0, n) + HashBound(nd, i, n) == HashBound(nd, |nd|, n)
    decreases |nd| - i
  {
    if i < |nd| {
      NodesLeft(nd, i + 1, n);
      if !nd[i].val.Nil? {
        var a := ArrayIndexes(nd[i].key.k);
        if a == [] { assert NodeInts(nd, i) == NodeInts(nd, i + 1); } else { CntSnoc(NodeInts(nd, i + 1), a[0], 0, n); }
      } else {
        assert NodeInts(nd, i) == NodeInts(nd, i + 1);
      }
    }
  }

  lemma CntShort(w: seq<int>, n: nat)
    ensures w == [] ==> Cnt(w, 0, n) == 0
    ensures |w| == 1 ==> Cnt(w, 0, n) == if 0 < w[0] <= n then 1 else 0
  {
    if |w| == 1 { assert w[..0] == []; }
  }

  /** The hash size rehash asks for is exactly the number of elements, the new key included, that stay out of the
      array part. */
  lemma SizeSuffices(arr: seq<Value>, nd: seq<Node>, k: Key, n: nat)
    requires n <= MAXASIZE && forall x :: 0 <= x < |nd| && !nd[x].val.Nil? ==> !nd[x].key.Free?
    ensures |UsedSlots(arr, |arr|)| + Valued(nd, 0) + 1 - Cnt(CountedKeys(arr, nd, k), 0, n)
         == SlotsFrom(arr, Min(n, |arr|)) + HashBound(nd, |nd|, n) + ExtraBound(k, n)
  {
    hide Cnt, UsedSlots, Distinct, Valued, NodeInts;
    var u, v, w := UsedSlots(arr, |arr|), NodeInts(nd, 0), ArrayIndexes(k);
    CntConcat(u + v, w, 0, n);
    CntConcat(u, v, 0, n);
    NodesLeft(nd, 0, n);
    SlotsLeft(arr, |arr|, Min(n, |arr|));
    if n > |arr| { CntAll(u, 0, n); CntAll(u, 0, |arr|); }
    CntShort(w, n);
  }

  // ----- array parts of any size

  /** What rehash counts when it looks only at the first MAXASIZE slots. */
  ghost function TruncatedKeys(arr: seq<Value>, nd: seq<Node>, k: Key): seq<int> {
    UsedSlots(arr, Min(|arr|, MAXASIZE)) + NodeInts(nd, 0) + ArrayIndexes(k)
  }

  /** The hash size rehash asks for. */
  ghost function AskedSize(arr: seq<Value>, nd: seq<Node>, k: Key, n: nat): int {
    |UsedSlots(arr, Min(|arr|, MAXASIZE))| + Valued(nd, 0) + 1 - Cnt(TruncatedKeys(arr, nd, k), 0, n)
  }

  /** The elements, the new one included, that stay out of an array part of size n. */
  ghost function NeededSize(arr: seq<Value>, nd: seq<Node>, k: Key, n: nat): nat {
    SlotsFrom(arr, Min(n, |arr|)) + HashBound(nd, |nd|, n) + ExtraBound(k, n)
  }

  lemma {:induction false} FarSlots(arr: seq<Value>, m: nat, i: nat, n: nat)
    requires n <= m <= i <= |arr|
    ensures Cnt(UsedSlots(arr, i), 0, n) == Cnt(UsedSlots(arr, m), 0, n)
  {
    hide Cnt, UsedSlots, Within, Distinct;
    if m < i {
      FarSlots(arr, m, i - 1, n);
      OneMoreSlot(arr, i, n);
    }
  }

  /** How many slots beyond MAXASIZE are in use. */
  ghost function FarInUse(arr: seq<Value>): int { |UsedSlots(arr, |arr|)| - |UsedSlots(arr, Min(|arr|, MAXASIZE))| }

  /** For an array part of any size: rehash asks for as many nodes too few as slots beyond MAXASIZE are in use, and
      so for exactly what is needed if and only if none is. */
  lemma AskedIsNeeded(arr: seq<Value>, nd: seq<Node>, k: Key, n: nat)
    requires n <= MAXASIZE && forall x :: 0 <= x < |nd| && !nd[x].val.Nil? ==> !nd[x].key.Free?
    ensures NeededSize(arr, nd, k, n) == AskedSize(arr, nd, k, n) + FarInUse(arr)
    ensures FarInUse(arr) >= 0 && (FarInUse(arr) == 0 <==> NoneBeyond(arr))
  {
    hide Cnt, UsedSlots, Within, Distinct, Valued, NodeInts, SlotsFrom, HashBound;
    SizeSuffices(arr, nd, k, n);
    var m := Min(|arr|, MAXASIZE);
    var u, t, v, w := UsedSlots(arr, |arr|), UsedSlots(arr, m), NodeInts(nd, 0), ArrayIndexes(k);
    CntConcat(u + v, w, 0, n);
    CntConcat(u, v, 0, n);
    CntConcat(t + v, w, 0, n);
    CntConcat(t, v, 0, n);
    if n <= m { FarSlots(arr, m, |arr|, n); }
    UsedSlotsPrefix(arr, m, |arr|);
  }

  /** The nodes that setnodevector makes, a power of two, hold everything if and only if it has rounded up by at
      least as much. */
  lemma RoundingSuffices(arr: seq<Value>, nd: seq<Node>, k: Key, n: nat, lsize: nat)
    requires n <= MAXASIZE && forall x :: 0 <= x < |nd| && !nd[x].val.Nil? ==> !nd[x].key.Free?
    requires Low(lsize) < AskedSize(arr, nd, k, n) <= Pow2(lsize)
    ensures NeededSize(arr, nd, k, n) <= Pow2(lsize) <==> FarInUse(arr) <= Pow2(lsize) - AskedSize(arr, nd, k, n)
    ensures NoneBeyond(arr) ==> NeededSize(arr, nd, k, n) <= Pow2(lsize)
  {
    AskedIsNeeded(arr, nd, k, n);
  }

  lemma {:induction false} NothingValued(nd: seq<Node>, i: nat)
    requires i <= |nd| && forall x :: 0 <= x < |nd| ==> nd[x].val.Nil?
    ensures Valued(nd, i) == 0 && NodeInts(nd, i) == []
    decreases |nd| - i
  {
    if i < |nd| { NothingValued(nd, i + 1); }
  }

  /** A table whose only element lies one slot too far gets one node for a key that is no array index, and needs two. */
  lemma AskedTooLittle(arr: seq<Value>, nd: seq<Node>, k: Key, n: nat)
    requires n <= MAXASIZE && (forall x :: 0 <= x < |nd| ==> nd[x].val.Nil?) && ArrayIndexes(k) == []
    requires |arr| == MAXASIZE + 1 && (forall i :: 0 <= i < MAXASIZE ==> arr[i].Nil?) && arr[MAXASIZE] == Val(1)
    ensures AskedSize(arr, nd, k, n) == 1 && Low(0) < 1 <= Pow2(0) == 1 && NeededSize(arr, nd, k, n) == 2
  {
    hide UsedSlots, Within, Distinct, Valued, NodeInts, SlotsFrom, HashBound;
    AskedIsNeeded(arr, nd, k, n);
    NothingValued(nd, 0);
    UsedSlotsPrefix(arr, 0, MAXASIZE);
    NoSlots(arr);
    OneMoreSlot(arr, MAXASIZE + 1, n);
    assert TruncatedKeys(arr, nd, k) == [];
  }

  lemma NoSlots(arr: seq<Value>)
    ensures UsedSlots(arr, 0) == []
  {
  }

  // ----- the integers counted are distinct, and they are the table's

  ghost predicate HeldFrom(nd: seq<Node>, j: nat, i: int) {
    exists x :: j <= x < |nd| && Holds(nd, x, Int(i)) && !nd[x].val.Nil?
  }

  lemma {:induction false} NodeIntsAre(nd: seq<Node>, j: nat)
    requires Keys(nd) && j <= |nd|
    ensures Distinct(NodeInts(nd, j)) && Within(NodeInts(nd, j), 0, MAXASIZE)
    ensures forall i :: i in NodeInts(nd, j) <==> 0 < i <= MAXASIZE && HeldFrom(nd, j, i)
    decreases |nd| - j
  {
    if j < |nd| {
      NodeIntsAre(nd, j + 1);
      var a, b := NodeInts(nd, j + 1), NodeInts(nd, j);
      if nd[j].val.Nil? || ArrayIndexes(nd[j].key.k) == [] {
        assert b == a;
        forall i | 0 < i <= MAXASIZE ensures HeldFrom(nd, j, i) <==> HeldFrom(nd, j + 1, i) {}
      } else {
        var k := nd[j].key.k.i;
        assert b == a + [k];
        assert Holds(nd, j, Int(k));
        assert HeldFrom(nd, j, k) && !HeldFrom(nd, j + 1, k);
        forall i | i != k ensures HeldFrom(nd, j, i) <==> HeldFrom(nd, j + 1, i) {}
        forall i ensures i in b <==> 0 < i <= MAXASIZE && HeldFrom(nd, j, i) {
          if i != k { assert i in b <==> i in a; }
        }
      }
    }
  }

  lemma {:induction false} UsedSlotsAre(arr: seq<Value>, n: nat)
    requires n <= |arr|
    ensures forall i :: i in UsedSlots(arr, n) <==> 1 <= i <= n && !arr[i - 1].Nil?
  {
    if n > 0 { UsedSlotsAre(arr, n - 1); }
  }

  lemma ConcatDistinct(a: seq<int>, b: seq<int>)
    requires Distinct(a) && Distinct(b) && forall i :: i in a ==> i !in b
    ensures Distinct(a + b)
  {
    forall i, j | 0 <= i < j < |a + b| ensures (a + b)[i] != (a + b)[j] {
      if i < |a| && j >= |a| { assert a[i] in a && b[j - |a|] in b; }
    }
  }

  /** k is an integer that the table, with the new key, uses. */
  ghost predicate UsedInt(arr: seq<Value>, nd: seq<Node>, k: Key, i: int) {
    !Lookup(arr, nd, Int(i)).Nil? || k == Int(i)
  }

  lemma ValueHeld(arr: seq<Value>, nd: seq<Node>, i: int)
    requires Keys(nd) && Apart(|arr|, nd)
    ensures !Lookup(arr, nd, Int(i)).Nil? <==> (1 <= i <= |arr| && !arr[i - 1].Nil?) || HeldFrom(nd, 0, i)
    ensures HeldFrom(nd, 0, i) ==> !(1 <= i <= |arr|)
  {
    if HeldFrom(nd, 0, i) {
      var x :| 0 <= x < |nd| && Holds(nd, x, Int(i)) && !nd[x].val.Nil?;
      NodeValueIs(nd, Int(i), x);
    } else if !InArrayRange(|arr|, Int(i)) {
      if x :| Holds(nd, x, Int(i)) { NodeValueIs(nd, Int(i), x); }
    }
  }

  lemma CountedAre(arr: seq<Value>, nd: seq<Node>, k: Key)
    requires NoneBeyond(arr) && Keys(nd) && Apart(|arr|, nd)
    ensures forall i :: i in CountedKeys(arr, nd, k) <==> 1 <= i <= MAXASIZE && UsedInt(arr, nd, k, i)
  {
    hide UsedSlots, NodeInts, Lookup, HeldFrom, Keys, Apart, Distinct, Within;
    UsedSlotsAre(arr, |arr|);
    NodeIntsAre(nd, 0);
    forall i ensures i in CountedKeys(arr, nd, k) <==> 1 <= i <= MAXASIZE && UsedInt(arr, nd, k, i) {
      ValueHeld(arr, nd, i);
      assert i in CountedKeys(arr, nd, k) <==>
        i in UsedSlots(arr, |arr|) || i in NodeInts(nd, 0) || i in ArrayIndexes(k);
    }
  }

  lemma CountedDistinct(arr: seq<Value>, nd: seq<Node>, k: Key)
    requires NoneBeyond(arr) && Keys(nd) && Apart(|arr|, nd) && SlotFor(arr, nd, NoSlot, k)
    ensures Distinct(CountedKeys(arr, nd, k)) && Within(CountedKeys(arr, nd, k), 0, MAXASIZE)
  {
    hide UsedSlots, NodeInts, Lookup, Keys, Apart, Distinct;
    UsedSlotsAre(arr, |arr|);
    NodeIntsAre(nd, 0);
    var u, v, w := UsedSlots(arr, |arr|), NodeInts(nd, 0), ArrayIndexes(k);
    forall j | 0 <= j < |u| ensures 0 < u[j] <= MAXASIZE { assert u[j] in u; }
    forall i | i in u ensures i !in v { ValueHeld(arr, nd, i); }
    ConcatDistinct(u, v);
    assert Distinct(w) by { Single(w); }
    forall i | i in u + v ensures i !in w {
      assert !HeldFrom(nd, 0, i) || Int(i) != k;
    }
    ConcatDistinct(u + v, w);
  }

  lemma Single(w: seq<int>)
    requires |w| <= 1
    ensures Distinct(w)
  {
  }

  /** What computesizes achieves, said of the table: n is the largest power of two such that more than n/2 of the keys
      1..n are in use, and na is how many those are. */
  lemma OptimalForTable(arr: seq<Value>, nd: seq<Node>, k: Key, m: nat)
    requires NoneBeyond(arr) && Keys(nd) && Apart(|arr|, nd) && SlotFor(arr, nd, NoSlot, k) && m <= MAXASIZE
    ensures Cnt(CountedKeys(arr, nd, k), 0, m) == |set i | 1 <= i <= m && UsedInt(arr, nd, k, i)|
  {
    hide UsedInt, CountedKeys, Cnt, Distinct, Within, Keys, Apart, SlotFor;
    var ks := CountedKeys(arr, nd, k);
    CountedDistinct(arr, nd, k);
    CountedAre(arr, nd, k);
    CntIsCardinality(ks, 0, m);
    assert (set i | i in ks && 0 < i <= m) == set i | 1 <= i <= m && UsedInt(arr, nd, k, i);
  }
}
