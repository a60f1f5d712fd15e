/** luaF_findupval: the open upvalue of a stack slot, found and perhaps revived, or created. */
module GcOpen {
  import opened GcHeap
  import opened GcMark
  import opened GcTri
  import opened GcState
  import opened GcCycle
  import opened GcSweep
  import opened GcUpval
  import opened GcMutator

  /** Where the search for slot stops: behind all upvalues of higher slots. */
  function FindPos(h: Heap, us: seq<Id>, slot: nat): (k: nat)
    requires forall i :: 0 <= i < |us| ==> us[i] in h && h[us[i]].place.Open?
    ensures k <= |us|
    ensures k < |us| ==> h[us[k]].place.slot <= slot
    ensures forall i :: 0 <= i < k ==> h[us[i]].place.slot > slot
  {
    if us == [] || h[us[0]].place.slot <= slot then 0 else FindPos(h, us[1..], slot) + 1
  }

  /** A new open upvalue x of slot, at position k of the list of thread t. */
  function NewUpval(s: State, t: Id, slot: nat, x: Id, k: nat): (r: State)
    requires t in s.heap && k <= |s.heap[t].openupval|
  {
    var us := s.heap[t].openupval;
    s.(heap := s.heap[t := s.heap[t].(openupval := us[..k] + [x] + us[k..])][x := Obj(UpVal, [], [], [],
      Open(t, slot))],
       marks := s.marks[x := White(s.white1, Marked(false, false, false, false))],
       uvhead := [x] + s.uvhead)
  }

  predicate CanOpen(s: State, t: Id, slot: nat, x: Id, k: nat) {
    t in s.heap && s.heap[t].kind.Thread? && slot < |s.heap[t].stack| && x !in s.heap && k <= |s.heap[t].openupval|
  }

  lemma NewUpvalRefs(s: State, t: Id, slot: nat, x: Id, k: nat, h: Heap)
    requires CanOpen(s, t, slot, x, k) && UpvalLists(s) && h == NewUpval(s, t, slot, x, k).heap
    ensures forall a, b :: a in s.heap ==> RefersTo(h, a, b) == RefersTo(s.heap, a, b)
    ensures forall b :: RefersTo(h, x, b) ==> RefersTo(s.heap, t, b)
    ensures NoDangling(s.heap) ==> NoDangling(h)
  {
    hide NoDup;
    forall a, b | a in s.heap ensures RefersTo(h, a, b) == RefersTo(s.heap, a, b) {
      if IsOpen(s.heap[a]) { assert IsOwned(s.heap, a); }
    }
  }

  lemma NewUpvalLists(s: State, t: Id, slot: nat, x: Id, k: nat, r: State)
    requires CanOpen(s, t, slot, x, k) && UpvalLists(s) && r == NewUpval(s, t, slot, x, k)
    ensures UpvalLists(r)
  {
    hide NoDup;
    var us := s.heap[t].openupval;
    assert forall u :: u in us ==> IsUpvalOf(s.heap, t, u);
    Inserted(us, 0, x, k);
    forall t', u | t' in r.heap && r.heap[t'].kind.Thread? && u in r.heap[t'].openupval
      ensures IsUpvalOf(r.heap, t', u)
    {
      if u != x || t' != t { assert IsUpvalOf(s.heap, t', u); }
    }
    forall u | u in r.heap && IsOpen(r.heap[u]) ensures u in r.uvhead && IsOwned(r.heap, u) {
      if u != x { assert IsOwned(s.heap, u); }
    }
  }

  lemma NewUpvalOthers(s: State, t: Id, slot: nat, x: Id, k: nat, r: State)
    requires CanOpen(s, t, slot, x, k) && RootList(s) && StringTable(s) && r == NewUpval(s, t, slot, x, k)
    ensures RootList(r) && StringTable(r)
  {
    hide NoDup;
    forall b | 0 <= b < |r.strt| ensures IsChain(r.heap, b, r.strt[b]) { assert IsChain(s.heap, b, s.strt[b]); }
  }

  lemma NewUpvalTri(s: State, t: Id, slot: nat, x: Id, k: nat, r: State)
    requires CanOpen(s, t, slot, x, k) && UpvalLists(s) && Propagating(s) && r == NewUpval(s, t, slot, x, k)
    ensures Propagating(r)
  {
    hide Listed, Coloured, Tri, RefersTo, UpvalLists;
    NewUpvalRefs(s, t, slot, x, k, r.heap);
    var open := OpenUpvals(r.heap);
    assert forall a :: a in OpenUpvals(s.heap) ==> a in open;
    MoreExempt(s.heap, MarkingOf(s), s.white1, OpenUpvals(s.heap), open);
    FreshArrows(s.heap, MarkingOf(s), open, x, r.heap, MarkingOf(r));
    FreshListed(s.heap, MarkingOf(s), open, x, r.heap, MarkingOf(r));
    FreshColoured(s.heap, s.marks, s.white1, open, x, r.heap, r.marks);
  }

  lemma NewUpvalLive(s: State, t: Id, slot: nat, x: Id, k: nat, r: State)
    requires CanOpen(s, t, slot, x, k) && UpvalLists(s) && LiveClosed(s) && s.marks.Keys == s.heap.Keys && Usable(s, t)
    requires r == NewUpval(s, t, slot, x, k)
    ensures LiveClosed(r)
  {
    hide RefersTo, UpvalLists;
    NewUpvalRefs(s, t, slot, x, k, r.heap);
    forall a, b | a in r.heap && !IsDead(r.white1, r.marks[a]) && RefersTo(r.heap, a, b) ensures Usable(r, b) {
      if a == x { assert RefersTo(s.heap, t, b); }
      assert Usable(s, b);
    }
  }

  lemma NewUpvalWhite(s: State, t: Id, slot: nat, x: Id, k: nat, r: State)
    requires CanOpen(s, t, slot, x, k) && SweptWhite(s) && s.marks.Keys == s.heap.Keys && s.sweepgc <= |s.rootgc|
    requires r == NewUpval(s, t, slot, x, k)
    ensures SweptWhite(r)
  {
    hide Unswept;
    forall a | a in r.heap
      ensures MarkOk(r.heap[a], r.marks[a]) && (IsCurrentWhite(r.white1, r.marks[a]) || Unswept(r, a))
    {
      if a != x {
        assert MarkOk(s.heap[a], s.marks[a]);
        if Unswept(s, a) { UnsweptKept(s, r, a); }
      }
    }
  }

  lemma NewUpvalKeepsInv(s: State, t: Id, slot: nat, x: Id, k: nat, r: State)
    requires Inv(s) && CanOpen(s, t, slot, x, k) && Usable(s, t) && r == NewUpval(s, t, slot, x, k)
    ensures Inv(r) && Usable(r, x) && forall y :: Usable(s, y) ==> Usable(r, y)
  {
    hide RootList, StringTable, UpvalLists, Rooted, LiveClosed, SweptWhite, Propagating;
    NewUpvalLists(s, t, slot, x, k, r);
    NewUpvalOthers(s, t, slot, x, k, r);
    RootedKept(s, r);
    if s.phase.Propagate? {
      NewUpvalTri(s, t, slot, x, k, r);
    } else {
      SweepBound(s);
      NewUpvalLive(s, t, slot, x, k, r);
      NewUpvalWhite(s, t, slot, x, k, r);
    }
  }

  datatype Found = Found(s: State, u: Id)

  /** luaF_findupval(t, slot): an existing upvalue of the slot, revived if dead, or the new object x. */
  function FindUpval(s: State, t: Id, slot: nat, x: Id): (f: Found)
    requires s.marks.Keys == s.heap.Keys && t in s.heap
    requires forall u :: u in s.heap[t].openupval ==> u in s.heap && s.heap[u].place.Open?
  {
    var us := s.heap[t].openupval;
    assert forall i :: 0 <= i < |us| ==> us[i] in us;
    var k := FindPos(s.heap, us, slot);
    if k < |us| && s.heap[us[k]].place.slot == slot then
      assert us[k] in us;
      Found(Revive(s, us[k]), us[k])
    else Found(NewUpval(s, t, slot, x, k), x)
  }

  lemma FindUpvalKeepsInv(s: State, t: Id, slot: nat, x: Id, f: Found)
    requires Inv(s) && t in s.heap && s.heap[t].kind.Thread? && slot < |s.heap[t].stack| && x !in s.heap && Usable(s, t)
    requires forall u :: u in s.heap[t].openupval ==> u in s.heap && s.heap[u].place.Open?
    requires f == FindUpval(s, t, slot, x)
    ensures Inv(f.s) && Usable(f.s, f.u) && forall y :: Usable(s, y) ==> Usable(f.s, y)
  {
    hide RootList, StringTable, Rooted, LiveClosed, SweptWhite, Propagating, FindPos, NewUpval;
    var us := s.heap[t].openupval;
    var k := FindPos(s.heap, us, slot);
    if k < |us| && s.heap[us[k]].place.slot == slot {
      assert us[k] in us;
      assert IsUpvalOf(s.heap, t, us[k]);
      OpenIsUsable(s, t, us[k]);
      ReviveKeepsInv(s, us[k], f.s);
    } else {
      NewUpvalKeepsInv(s, t, slot, x, k, f.s);
    }
  }

  /** The value of an open upvalue of a usable thread is usable. */
  lemma OpenIsUsable(s: State, t: Id, u: Id)
    requires Inv(s) && t in s.heap && s.heap[t].kind.Thread? && Usable(s, t) && IsUpvalOf(s.heap, t, u)
    ensures forall y :: RefersTo(s.heap, u, y) ==> Usable(s, y)
  {
    hide RootList, StringTable, UpvalLists, Rooted, SweptWhite;
    forall y | RefersTo(s.heap, u, y) ensures Usable(s, y) {
      assert RefersTo(s.heap, t, y);
    }
  }
}
