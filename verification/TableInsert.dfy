/** The three ways newkey stores a key that is not in the hash part yet, and what each keeps. */
module TableInsert {
  import opened TableNodes

  /** k is not stored, and its main position is mp. */
  ghost predicate IsNewAt(h: Hash, nd: seq<Node>, k: Key, mp: int) {
    |nd| > 0 && mp == Main(h, |nd|, k) && forall x :: !Holds(nd, x, k)
  }

  /** After the insertion node t holds k, without a value yet, and every other key keeps its value. */
  ghost predicate Inserted(nd: seq<Node>, nd': seq<Node>, k: Key, t: int) {
    && |nd'| == |nd| && Holds(nd', t, k) && nd'[t].val == Nil
    && forall k' :: k' != k ==> NodeValue(nd', k') == NodeValue(nd, k')
  }

  // ----- the main position is free, or holds a key without a value: the key goes there

  function PlaceHome(nd: seq<Node>, mp: int, k: Key): (r: seq<Node>)
    requires 0 <= mp < |nd|
  {
    nd[mp := nd[mp].(key := Live(k))]
  }

  lemma PlaceHomeChains(nd: seq<Node>, cid: seq<int>, pos: seq<real>, mp: int, k: Key, r: seq<Node>, cid': seq<int>)
    requires Chains(nd, cid, pos) && 0 <= mp < |nd| && r == PlaceHome(nd, mp, k) && nd[mp].val.Nil?
    requires cid' == if nd[mp].key.Free? then cid[mp := Fresh(cid)] else cid
    ensures Chains(r, cid', pos)
  {
    forall x ensures LinkOk(r, cid', pos, x) { assert LinkOk(nd, cid, pos, x); }
    forall x, z ensures PairOk(r, cid', pos, x, z) { assert PairOk(nd, cid, pos, x, z) && LinkOk(nd, cid, pos, x); }
  }

  lemma PlaceHomeHomes(h: Hash, nd: seq<Node>, cid: seq<int>, pos: seq<real>, k: Key, mp: int, r: seq<Node>,
      cid': seq<int>)
    requires |cid| == |nd| && |pos| == |nd| && IsNewAt(h, nd, k, mp) && Homes(h, nd, cid, pos)
    requires r == PlaceHome(nd, mp, k) && cid' == if nd[mp].key.Free? then cid[mp := Fresh(cid)] else cid
    ensures Homes(h, r, cid', pos)
  {
    forall x ensures HomeOk(h, r, cid', pos, x) { assert HomeOk(h, nd, cid, pos, x); }
  }

  lemma PlaceHomeValues(h: Hash, nd: seq<Node>, k: Key, mp: int, r: seq<Node>)
    requires Keys(nd) && IsNewAt(h, nd, k, mp) && nd[mp].val.Nil? && r == PlaceHome(nd, mp, k)
    ensures Keys(r) && Inserted(nd, r, k, mp)
  {
    forall x | 0 <= x < |nd| && nd[x].key.Live? ensures nd[x].key.k != k { assert !Holds(nd, x, k); }
    assert Keys(r);
    forall k' | k' != k ensures NodeValue(r, k') == NodeValue(nd, k') {
      if x :| Holds(r, x, k') {
        assert Holds(nd, x, k');
        NodeValueIs(r, k', x);
        NodeValueIs(nd, k', x);
      } else if x :| Holds(nd, x, k') {
        assert x != mp ==> Holds(r, x, k');
        NodeValueIs(nd, k', x);
      }
    }
  }

  // ----- the occupant of the main position is not at home: it moves to the free node n

  function MoveOut(nd: seq<Node>, prev: int, mp: int, n: int, k: Key): (r: seq<Node>)
    requires 0 <= prev < |nd| && 0 <= mp < |nd| && 0 <= n < |nd|
  {
    nd[prev := nd[prev].(next := n)][n := nd[mp]][mp := Node(Live(k), Nil, -1)]
  }

  /** prev is the predecessor of mp, whose occupant is away from its main position; n is free. */
  ghost predicate CanMove(h: Hash, nd: seq<Node>, prev: int, mp: int, n: int) {
    && IsUsed(nd, prev) && IsUsed(nd, mp) && nd[prev].next == mp && prev != mp
    && 0 <= n < |nd| && nd[n].key.Free? && nd[mp].key.Live? && Main(h, |nd|, nd[mp].key.k) != mp
  }

  lemma MoveOutLinks(h: Hash, nd: seq<Node>, cid: seq<int>, pos: seq<real>, prev: int, mp: int, n: int, k: Key,
      r: seq<Node>, cid': seq<int>, pos': seq<real>)
    requires Chains(nd, cid, pos) && CanMove(h, nd, prev, mp, n) && r == MoveOut(nd, prev, mp, n, k)
    requires cid' == cid[n := cid[mp]][mp := Fresh(cid)] && pos' == pos[n := pos[mp]]
    ensures forall x :: LinkOk(r, cid', pos', x)
  {
    assert LinkOk(nd, cid, pos, mp) && LinkOk(nd, cid, pos, prev);
    forall x ensures LinkOk(r, cid', pos', x) {
      assert LinkOk(nd, cid, pos, x);
      if 0 <= x < |nd| && nd[x].next == mp { OnePredecessor(nd, cid, pos, x, prev); }
    }
  }

  lemma MoveOutPairs(h: Hash, nd: seq<Node>, cid: seq<int>, pos: seq<real>, prev: int, mp: int, n: int, k: Key,
      r: seq<Node>, cid': seq<int>, pos': seq<real>)
    requires Chains(nd, cid, pos) && CanMove(h, nd, prev, mp, n) && r == MoveOut(nd, prev, mp, n, k)
    requires cid' == cid[n := cid[mp]][mp := Fresh(cid)] && pos' == pos[n := pos[mp]]
    ensures forall x, z :: PairOk(r, cid', pos', x, z)
  {
    forall x, z ensures PairOk(r, cid', pos', x, z) {
      var x0, z0 := if x == n then mp else x, if z == n then mp else z;
      assert PairOk(nd, cid, pos, x0, z0) && LinkOk(nd, cid, pos, x0);
    }
  }

  lemma MoveOutHomes(h: Hash, nd: seq<Node>, cid: seq<int>, pos: seq<real>, prev: int, mp: int, n: int, k: Key,
      r: seq<Node>, cid': seq<int>, pos': seq<real>)
    requires |cid| == |nd| && |pos| == |nd| && CanMove(h, nd, prev, mp, n) && IsNewAt(h, nd, k, mp)
    requires Homes(h, nd, cid, pos)
    requires r == MoveOut(nd, prev, mp, n, k)
    requires cid' == cid[n := cid[mp]][mp := Fresh(cid)] && pos' == pos[n := pos[mp]]
    ensures Homes(h, r, cid', pos')
  {
    forall x ensures HomeOk(h, r, cid', pos', x) { assert HomeOk(h, nd, cid, pos, if x == n then mp else x); }
  }

  lemma MoveOutValues(h: Hash, nd: seq<Node>, prev: int, mp: int, n: int, k: Key, r: seq<Node>)
    requires Keys(nd) && CanMove(h, nd, prev, mp, n) && IsNewAt(h, nd, k, mp) && r == MoveOut(nd, prev, mp, n, k)
    ensures Keys(r) && Inserted(nd, r, k, mp)
  {
    forall x | 0 <= x < |nd| && nd[x].key.Live? ensures nd[x].key.k != k { assert !Holds(nd, x, k); }
    assert Keys(r);
    forall k' | k' != k ensures NodeValue(r, k') == NodeValue(nd, k') {
      if x :| Holds(r, x, k') {
        assert Holds(nd, if x == n then mp else x, k');
        NodeValueIs(r, k', x);
        NodeValueIs(nd, k', if x == n then mp else x);
      } else if x :| Holds(nd, x, k') {
        assert Holds(r, if x == mp then n else x, k');
        assert false;
      }
    }
  }

  // ----- the occupant is at home: the key goes to the free node n, right behind it

  function Append(nd: seq<Node>, mp: int, n: int, k: Key): (r: seq<Node>)
    requires 0 <= mp < |nd| && 0 <= n < |nd|
  {
    nd[n := Node(Live(k), Nil, nd[mp].next)][mp := nd[mp].(next := n)]
  }

  ghost predicate CanAppend(h: Hash, nd: seq<Node>, mp: int, n: int) {
    && IsUsed(nd, mp) && Main(h, |nd|, nd[mp].key.k) == mp && 0 <= n < |nd| && nd[n].key.Free?
    && (nd[mp].next == -1 || 0 <= nd[mp].next < |nd|)
  }

  /** A place between mp and its successor. */
  ghost function PlaceBehind(nd: seq<Node>, pos: seq<real>, mp: int): real
    requires 0 <= mp < |nd| == |pos| && (nd[mp].next == -1 || 0 <= nd[mp].next < |nd|)
  {
    if nd[mp].next == -1 then pos[mp] + 1.0 else (pos[mp] + pos[nd[mp].next]) / 2.0
  }

  lemma AppendChains(h: Hash, nd: seq<Node>, cid: seq<int>, pos: seq<real>, mp: int, n: int, k: Key, r: seq<Node>,
      cid': seq<int>, pos': seq<real>)
    requires Chains(nd, cid, pos) && CanAppend(h, nd, mp, n) && r == Append(nd, mp, n, k)
    requires cid' == cid[n := cid[mp]] && pos' == pos[n := PlaceBehind(nd, pos, mp)]
    ensures Chains(r, cid', pos')
  {
    assert LinkOk(nd, cid, pos, mp);
    forall x ensures LinkOk(r, cid', pos', x) { assert LinkOk(nd, cid, pos, x); }
    forall x, z ensures PairOk(r, cid', pos', x, z) {
      assert PairOk(nd, cid, pos, x, z) && LinkOk(nd, cid, pos, x);
      assert PairOk(nd, cid, pos, x, mp) && PairOk(nd, cid, pos, mp, x) && PairOk(nd, cid, pos, mp, z);
      assert PairOk(nd, cid, pos, z, mp);
    }
  }

  lemma AppendHomes(h: Hash, nd: seq<Node>, cid: seq<int>, pos: seq<real>, mp: int, n: int, k: Key, r: seq<Node>,
      cid': seq<int>, pos': seq<real>)
    requires Chains(nd, cid, pos) && CanAppend(h, nd, mp, n) && IsNewAt(h, nd, k, mp) && Homes(h, nd, cid, pos)
    requires r == Append(nd, mp, n, k)
    requires cid' == cid[n := cid[mp]] && pos' == pos[n := PlaceBehind(nd, pos, mp)]
    ensures Homes(h, r, cid', pos')
  {
    assert LinkOk(nd, cid, pos, mp);
    forall x ensures HomeOk(h, r, cid', pos', x) { assert HomeOk(h, nd, cid, pos, x); }
  }

  lemma AppendValues(h: Hash, nd: seq<Node>, mp: int, n: int, k: Key, r: seq<Node>)
    requires Keys(nd) && CanAppend(h, nd, mp, n) && IsNewAt(h, nd, k, mp) && r == Append(nd, mp, n, k)
    ensures Keys(r) && Inserted(nd, r, k, n)
  {
    forall x | 0 <= x < |nd| && nd[x].key.Live? ensures nd[x].key.k != k { assert !Holds(nd, x, k); }
    assert Keys(r);
    forall k' | k' != k ensures NodeValue(r, k') == NodeValue(nd, k') {
      if x :| Holds(r, x, k') {
        assert Holds(nd, x, k');
        NodeValueIs(r, k', x);
        NodeValueIs(nd, k', x);
      } else if x :| Holds(nd, x, k') {
        assert Holds(r, x, k');
        assert false;
      }
    }
  }
}
