/** The hash part of a Lua table (lua/ltable.c): a chained scatter table with Brent's variation. */
module TableNodes {

  /** A key that is neither nil nor NaN: an integer-valued number, or anything else (other numbers, strings,
      booleans, objects). */
  datatype Key = Int(i: int) | Other(id: nat, collectable: bool)

  datatype Value = Nil | Val(v: int)

  /** The key of a node: none yet, a key in use, or a collectable key the collector has declared dead. */
  datatype NodeKey = Free | Live(k: Key) | Dead(k: Key)

  /** `next` is the index of the next node of the chain, or -1. */
  datatype Node = Node(key: NodeKey, val: Value, next: int)

  /** Any hash function; it may depend on the number of nodes. */
  type Hash = (Key, nat) -> nat

  /** mainposition: any function of the key into the nodes. */
  function Main(h: Hash, n: nat, k: Key): (p: nat)
    requires n > 0
    ensures p < n
  {
    if h(k, n) < n then h(k, n) else 0
  }

  predicate IsUsed(nd: seq<Node>, x: int) { 0 <= x < |nd| && !nd[x].key.Free? }

  // ----- the structure: chains, and keys reachable from their main positions.
  // Every used node has a chain number cid and a place pos on the chain; only the order of the places matters.

  /** The link of node x leads to a later place of the same chain; a free node has none. */
  ghost predicate LinkOk(nd: seq<Node>, cid: seq<int>, pos: seq<real>, x: int)
    requires |cid| == |nd| && |pos| == |nd|
  {
    0 <= x < |nd| ==>
      var y := nd[x].next;
      if y == -1 then nd[x].key.Free? ==> nd[x].val.Nil?
      else 0 <= y < |nd| && !nd[x].key.Free? && !nd[y].key.Free? && cid[y] == cid[x] && pos[x] < pos[y]
  }

  /** Two used nodes of one chain have different places, and no place lies between a node and the one its link leads
      to. */
  ghost predicate PairOk(nd: seq<Node>, cid: seq<int>, pos: seq<real>, x: int, z: int)
    requires |cid| == |nd| && |pos| == |nd|
  {
    IsUsed(nd, x) && IsUsed(nd, z) && x != z && cid[x] == cid[z] ==>
      && pos[x] != pos[z]
      && (pos[x] < pos[z] ==> 0 <= nd[x].next < |nd| && pos[nd[x].next] <= pos[z])
  }

  ghost predicate Chains(nd: seq<Node>, cid: seq<int>, pos: seq<real>) {
    && |nd| > 0 && |cid| == |nd| && |pos| == |nd|
    && (forall x {:trigger LinkOk(nd, cid, pos, x)} :: LinkOk(nd, cid, pos, x))
    && (forall x, z {:trigger PairOk(nd, cid, pos, x, z)} :: PairOk(nd, cid, pos, x, z))
  }

  /** The key of node x lies on the chain through its main position, at or behind it; away from it only when
      the occupant of the main position is at home. */
  ghost predicate HomeOk(h: Hash, nd: seq<Node>, cid: seq<int>, pos: seq<real>, x: int)
    requires |nd| > 0 && |cid| == |nd| && |pos| == |nd|
  {
    IsUsed(nd, x) ==>
      var p := Main(h, |nd|, nd[x].key.k);
      IsUsed(nd, p) && cid[p] == cid[x] && pos[p] <= pos[x] && (p != x ==> Main(h, |nd|, nd[p].key.k) == p)
  }

  ghost predicate Homes(h: Hash, nd: seq<Node>, cid: seq<int>, pos: seq<real>)
    requires |nd| > 0 && |cid| == |nd| && |pos| == |nd|
  {
    forall x {:trigger HomeOk(h, nd, cid, pos, x)} :: HomeOk(h, nd, cid, pos, x)
  }

  /** No key occurs twice, and only live keys have values. */
  ghost predicate Keys(nd: seq<Node>) {
    && (forall x, z ::
          0 <= x < |nd| && 0 <= z < |nd| && x != z && nd[x].key.Live? && nd[z].key.Live? ==>
            nd[x].key.k != nd[z].key.k)
    && (forall x :: 0 <= x < |nd| && !nd[x].val.Nil? ==> nd[x].key.Live?)
  }

  ghost predicate NodesOk(h: Hash, nd: seq<Node>, cid: seq<int>, pos: seq<real>) {
    Chains(nd, cid, pos) && Homes(h, nd, cid, pos) && Keys(nd)
  }

  predicate Holds(nd: seq<Node>, x: int, k: Key) { 0 <= x < |nd| && nd[x].key == Live(k) }

  /** What the nodes store under k. */
  ghost function NodeValue(nd: seq<Node>, k: Key): (v: Value) {
    if x :| Holds(nd, x, k) then nd[x].val else Nil
  }

  lemma NodeValueIs(nd: seq<Node>, k: Key, x: int)
    requires Keys(nd) && Holds(nd, x, k)
    ensures NodeValue(nd, k) == nd[x].val
  {
  }

  // ----- consequences

  /** Each node has at most one predecessor. */
  lemma OnePredecessor(nd: seq<Node>, cid: seq<int>, pos: seq<real>, x: int, z: int)
    requires Chains(nd, cid, pos) && 0 <= x < |nd| && 0 <= z < |nd| && nd[x].next != -1 && nd[x].next == nd[z].next
    ensures x == z
  {
    assert LinkOk(nd, cid, pos, x) && LinkOk(nd, cid, pos, z);
    assert PairOk(nd, cid, pos, x, z) && PairOk(nd, cid, pos, z, x);
  }

  /** Places behind pos[x]: what bounds every walk along a chain. */
  ghost function Behind(pos: seq<real>, x: int): set<int>
    requires 0 <= x < |pos|
  {
    set z | 0 <= z < |pos| && pos[x] < pos[z]
  }

  lemma BehindShrinks(pos: seq<real>, x: int, y: int)
    requires 0 <= x < |pos| && 0 <= y < |pos| && pos[x] < pos[y]
    ensures |Behind(pos, y)| < |Behind(pos, x)|
  {
    assert Behind(pos, y) <= Behind(pos, x) - {y};
    assert y in Behind(pos, x);
    Smaller(Behind(pos, y), Behind(pos, x) - {y});
  }

  lemma Smaller(a: set<int>, b: set<int>)
    requires a <= b
    ensures |a| <= |b|
  {
    assert b == a + (b - a);
  }

  function Fresh(cid: seq<int>): (c: int)
    ensures forall i :: 0 <= i < |cid| ==> cid[i] < c
  {
    if cid == [] then 0
    else
      var c := Fresh(cid[1..]);
      assert forall i :: 1 <= i < |cid| ==> cid[i] == cid[1..][i - 1];
      if cid[0] < c then c else cid[0] + 1
  }
}
