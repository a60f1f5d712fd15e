/** sweeplist over rootgc: one object at a time, with the open upvalues of every thread it passes. */
module GcRoot {
  import opened GcHeap
  import opened GcMark
  import opened GcTri
  import opened GcState
  import opened GcSweep
  import opened GcUpval

  // ----- the open upvalues of a thread that is about to be swept

  lemma SweepUpvalsKeepsInv(s: State, t: Id, r: State)
    requires Inv(s) && s.phase.Sweep? && t in s.heap && s.heap[t].kind.Thread?
    requires NoDup(s.heap[t].openupval)
    requires forall u :: u in s.heap[t].openupval ==> u in s.heap && u != t && IsOpen(s.heap[u])
    requires r == SweepUpvals(s, t)
    ensures Inv(r) && SameRoots(s, r) && r.phase.Sweep? && r.rootgc == s.rootgc && r.sweepgc == s.sweepgc
    ensures t in r.heap && r.marks[t] == s.marks[t] && r.heap[t].kind.Thread?
  {
    hide NoDup, RootList, StringTable, UpvalLists, LiveClosed, SweptWhite, Rooted, Culled;
    SweepUpvalsFacts(s, t, r);
    SweepUpvalsLists(s, t, r);
    SweepUpvalsUpvals(s, t);
    SubHeapOfUpvals(s, t, r);
    CullKeepsRooted(s, r);
    CullKeepsLive(s, r);
    SweepUpvalsWhite(s, t, r);
  }

  lemma SubHeapOfUpvals(s: State, t: Id, r: State)
    requires t in s.heap && t in r.heap && r.heap[t] == s.heap[t].(openupval := r.heap[t].openupval)
    requires forall x :: x in r.heap && x != t ==> x in s.heap && r.heap[x] == s.heap[x]
    ensures SubHeap(s.heap, r.heap)
  {
  }

  lemma SweepUpvalsWhite(s: State, t: Id, r: State)
    requires Structure(s) && SweptWhite(s) && s.phase.Sweep? && t in s.heap && s.heap[t].kind.Thread?
    requires NoDup(s.heap[t].openupval)
    requires forall u :: u in s.heap[t].openupval ==> u in s.heap && u != t && IsOpen(s.heap[u])
    requires r == SweepUpvals(s, t)
    ensures SweptWhite(r)
  {
    hide NoDup, StringTable, UpvalLists, Culled, Unswept, SweepChain;
    SweepUpvalsFacts(s, t, r);
    forall x | x in r.heap
      ensures MarkOk(r.heap[x], r.marks[x])
      ensures IsCurrentWhite(r.white1, r.marks[x]) || Unswept(r, x)
    {
      assert MarkOk(s.heap[x], s.marks[x]);
      if Unswept(s, x) { UnsweptKept(s, r, x); }
    }
  }

  // ----- freeing the object at the sweep pointer

  function FreeRoot(s: State, x: Id): (r: State)
    requires s.sweepgc <= |s.rootgc|
  {
    s.(rootgc := s.rootgc[..s.sweepgc] + Remove(s.rootgc[s.sweepgc..], x), heap := s.heap - {x}, marks := s.marks - {x})
  }

  /** x is due: dead, not fixed, at or behind the sweep pointer, and without open upvalues. */
  predicate IsDue(s: State, x: Id) {
    && s.sweepgc <= |s.rootgc| && x in s.rootgc[s.sweepgc..] && x in s.heap && x in s.marks
    && !Survives(s.white1, s.marks[x])
    && (s.heap[x].kind.Thread? ==> s.heap[x].openupval == [])
  }

  lemma FreeRootList(s: State, x: Id, r: State)
    requires RootList(s) && IsDue(s, x) && r == FreeRoot(s, x)
    ensures RootList(r) && r.rootgc[r.sweepgc..] == Remove(s.rootgc[s.sweepgc..], x)
    ensures x !in r.rootgc && forall y :: y in s.rootgc && y != x ==> y in r.rootgc
  {
    hide NoDup, Remove, Survives;
    var a, b := s.rootgc[..s.sweepgc], s.rootgc[s.sweepgc..];
    assert s.rootgc == a + b;
    Split(a, b, x);
    forall y | y in s.rootgc && y != x ensures y in r.rootgc { assert y in a || y in b; }
  }

  lemma Split(a: seq<Id>, b: seq<Id>, x: Id)
    requires NoDup(a + b) && x in b
    ensures NoDup(a + Remove(b, x)) && x !in a
    ensures forall y :: y in a + Remove(b, x) ==> y in a + b && y != x
  {
    NoDupParts(a, b);
    NoDupConcat(a, Remove(b, x));
  }

  lemma NoDupParts(a: seq<Id>, b: seq<Id>)
    requires NoDup(a + b)
    ensures NoDup(a) && NoDup(b) && forall y :: y in a ==> y !in b
  {
    assert a == (a + b)[..|a|] && b == (a + b)[|a|..];
  }

  lemma NoDupConcat(a: seq<Id>, b: seq<Id>)
    requires NoDup(a) && NoDup(b) && forall y :: y in a ==> y !in b
    ensures NoDup(a + b)
  {
    forall i, j | 0 <= i < j < |a + b| ensures (a + b)[i] != (a + b)[j] {
      if i < |a| <= j { assert a[i] in a && b[j - |a|] in b; }
    }
  }

  lemma FreeRootKeepsInv(s: State, x: Id, r: State)
    requires Inv(s) && s.phase.Sweep? && IsDue(s, x) && r == FreeRoot(s, x)
    ensures Inv(r) && r.phase.Sweep?
  {
    hide RootList, StringTable, UpvalLists, LiveClosed, SweptWhite, Rooted, SubHeap, Culled;
    FreeRootList(s, x, r);
    FreeRootOthers(s, x, r);
    CullKeepsRooted(s, r);
    CullKeepsLive(s, r);
    FreeRootWhite(s, x, r);
  }

  lemma FreeRootOthers(s: State, x: Id, r: State)
    requires Structure(s) && IsDue(s, x) && r == FreeRoot(s, x)
    ensures StringTable(r) && UpvalLists(r)
    ensures SubHeap(s.heap, r.heap) && Culled(s.white1, s.marks, r.marks) && r.marks.Keys == r.heap.Keys
    ensures SameRoots(s, r)
  {
    hide StringTable, UpvalLists, NoDup;
    assert x in s.rootgc;
    FreeRootUpvals(s, x, r);
    FreeRootStrings(s, x, r);
  }

  lemma FreeRootStrings(s: State, x: Id, r: State)
    requires StringTable(s) && x in s.heap && !s.heap[x].kind.String? && s.sweepgc <= |s.rootgc| && r == FreeRoot(s, x)
    ensures StringTable(r)
  {
    hide NoDup;
    forall b | 0 <= b < |r.strt| ensures IsChain(r.heap, b, r.strt[b]) { assert IsChain(s.heap, b, s.strt[b]); }
  }

  lemma FreeRootUpvals(s: State, x: Id, r: State)
    requires UpvalLists(s) && IsDue(s, x) && !IsOpen(s.heap[x]) && r == FreeRoot(s, x)
    ensures UpvalLists(r)
  {
    hide NoDup;
    forall t, u | t in r.heap && r.heap[t].kind.Thread? && u in r.heap[t].openupval ensures IsUpvalOf(r.heap, t, u) {
      assert IsUpvalOf(s.heap, t, u);
    }
    forall u | u in r.heap && IsOpen(r.heap[u])
      ensures u in r.uvhead && IsOwned(r.heap, u)
    {
      assert IsOwned(s.heap, u);
    }
  }

  lemma FreeRootWhite(s: State, x: Id, r: State)
    requires Structure(s) && SweptWhite(s) && s.phase.Sweep? && IsDue(s, x) && r == FreeRoot(s, x)
    requires r.sweepgc <= |r.rootgc| && r.rootgc[r.sweepgc..] == Remove(s.rootgc[s.sweepgc..], x)
    ensures SweptWhite(r)
  {
    hide RootList, StringTable, Unswept, NoDup;
    forall y | y in r.heap ensures IsCurrentWhite(r.white1, r.marks[y]) || Unswept(r, y) {
      if Unswept(s, y) {
        if IsOpen(s.heap[y]) { assert IsOwned(s.heap, y); }
        FreeRootUnswept(s, x, r, y);
      }
    }
  }

  lemma FreeRootUnswept(s: State, x: Id, r: State, y: Id)
    requires s.phase.Sweep? && s.sweepgc <= |s.rootgc| && r.sweepgc == s.sweepgc <= |r.rootgc| && r.phase.Sweep?
    requires y in s.heap && y in r.heap && y != x && r.heap[y] == s.heap[y] && Unswept(s, y)
    requires IsOpen(s.heap[y]) ==> s.heap[y].place.thread != x
    requires r.rootgc[r.sweepgc..] == Remove(s.rootgc[s.sweepgc..], x)
    ensures Unswept(r, y)
  {
  }

  // ----- one round of sweeplist

  /** Whiten the survivor at the sweep pointer and pass it. */
  function PassRoot(s: State): (r: State)
    requires s.sweepgc < |s.rootgc| && s.rootgc[s.sweepgc] in s.marks
  {
    var x := s.rootgc[s.sweepgc];
    s.(marks := s.marks[x := White(s.white1, s.marks[x])], sweepgc := s.sweepgc + 1)
  }

  lemma PassRootKeepsInv(s: State, x: Id, r: State)
    requires Inv(s) && s.phase.Sweep? && s.sweepgc < |s.rootgc| && x == s.rootgc[s.sweepgc] && x in s.heap
    requires x in s.marks
    requires Survives(s.white1, s.marks[x])
    requires s.heap[x].kind.Thread? ==>
        forall u :: u in s.heap[x].openupval && u in s.marks ==> IsCurrentWhite(s.white1, s.marks[u])
    requires r == PassRoot(s)
    ensures Inv(r) && r.phase.Sweep?
  {
    hide RootList, StringTable, UpvalLists, LiveClosed, SweptWhite, Rooted;
    PassRootLists(s, r);
    assert Culled(s.white1, s.marks, r.marks) && SubHeap(s.heap, r.heap);
    CullKeepsRooted(s, r);
    CullKeepsLive(s, r);
    PassRootWhite(s, x, r);
  }

  lemma PassRootLists(s: State, r: State)
    requires Structure(s) && s.phase.Sweep? && s.sweepgc < |s.rootgc| && s.rootgc[s.sweepgc] in s.marks
    requires r == PassRoot(s)
    ensures Structure(r)
  {
    hide NoDup, IsChain;
  }

  lemma PassRootWhite(s: State, x: Id, r: State)
    requires Structure(s) && SweptWhite(s) && s.phase.Sweep?
    requires s.sweepgc < |s.rootgc| && x == s.rootgc[s.sweepgc] && x in s.heap && x in s.marks
    requires s.heap[x].kind.Thread? ==>
        forall u :: u in s.heap[x].openupval && u in s.marks ==> IsCurrentWhite(s.white1, s.marks[u])
    requires r == PassRoot(s)
    ensures SweptWhite(r)
  {
    hide RootList, StringTable, NoDup;
    assert s.rootgc[s.sweepgc..] == [x] + r.rootgc[r.sweepgc..];
    forall y | y in r.heap ensures IsCurrentWhite(r.white1, r.marks[y]) || Unswept(r, y) {
      if IsOpen(s.heap[y]) { assert IsOwned(s.heap, y); }
    }
  }
}
