/** sweeplist as a whole, singlestep and luaC_fullgc. */
module GcStep {
  import opened GcHeap
  import opened GcMark
  import opened GcTri
  import opened GcState
  import opened GcCycle
  import opened GcSweep
  import opened GcUpval
  import opened GcRoot

  // ----- what a sweep does to the heap as a whole

  predicate Doomed(s: State, x: Id) { x in s.marks && !Survives(s.white1, s.marks[x]) }

  /** From s to r only doomed objects went, no other object became doomed or was spared,
      and what stayed refers to what it referred to. */
  ghost predicate SweepsTo(s: State, r: State) {
    && SameRoots(s, r)
    && (forall x :: x in r.heap ==> x in s.heap && x in s.marks && x in r.marks && r.marks[x].fixed == s.marks[x].fixed)
    && (forall x :: x in s.heap && !Doomed(s, x) ==> x in r.heap && !Doomed(r, x))
    && (forall x :: x in r.heap && Doomed(s, x) ==> Doomed(r, x))
    && (forall x, y :: x in r.heap && x in s.heap ==> RefersTo(r.heap, x, y) == RefersTo(s.heap, x, y))
  }

  lemma SweepsToTrans(s: State, m: State, r: State)
    requires SweepsTo(s, m) && SweepsTo(m, r)
    ensures SweepsTo(s, r)
  {
  }

  lemma CullSweeps(s: State, r: State)
    requires UpvalLists(s) && UpvalLists(r) && SubHeap(s.heap, r.heap) && Culled(s.white1, s.marks, r.marks)
    requires SameRoots(s, r) && r.marks.Keys == r.heap.Keys && s.marks.Keys == s.heap.Keys
    ensures SweepsTo(s, r)
  {
    hide UpvalLists, RefersTo;
    CullRefs(s, r);
  }

  lemma CullRefs(s: State, r: State)
    requires UpvalLists(r) && SubHeap(s.heap, r.heap)
    ensures forall x, y :: x in r.heap && x in s.heap ==> RefersTo(r.heap, x, y) == RefersTo(s.heap, x, y)
  {
    hide NoDup;
    forall x, y | x in r.heap && x in s.heap ensures RefersTo(r.heap, x, y) == RefersTo(s.heap, x, y) {
      if IsOpen(s.heap[x]) {
        assert IsOwned(r.heap, x);
      }
    }
  }

  lemma CloseOneRefs(s: State, t: Id, u: Id, d: State)
    requires UpvalLists(s) && t in s.heap && s.heap[t].kind.Thread? && HasOpen(s, t)
    requires u == s.heap[t].openupval[0] && u !in s.heap[t].openupval[1..] && d == Detach(s, t)
    ensures forall x, y :: x in d.heap && x in s.heap ==> RefersTo(d.heap, x, y) == RefersTo(s.heap, x, y)
  {
    hide NoDup, Collectable;
    if IsDead(s.white1, s.marks[u]) {
      forall x, y | x in d.heap && x in s.heap ensures RefersTo(d.heap, x, y) == RefersTo(s.heap, x, y) {
        if IsOpen(s.heap[x]) { assert IsOwned(s.heap, x); }
      }
    } else {
      DetachRefs(s, t);
    }
  }

  lemma CloseOneSweeps(s: State, t: Id, u: Id, r: State)
    requires Structure(s) && !s.phase.Propagate? && t in s.heap && s.heap[t].kind.Thread? && HasOpen(s, t)
    requires u == s.heap[t].openupval[0] && u !in s.heap[t].openupval[1..] && !s.marks[u].fixed
    requires r == CloseOne(s, t)
    ensures SweepsTo(s, r)
  {
    hide RootList, StringTable, UpvalLists, CloseOne, RefersTo, Detach;
    CloseOneMarks(s, t, u, Detach(s, t), r);
    CloseOneRefs(s, t, u, Detach(s, t));
    SweptOne(s, u, r);
  }

  /** Nothing changes but the mark of u, which is freed exactly when it is dead. */
  lemma SweptOne(s: State, u: Id, r: State)
    requires SameRoots(s, r) && s.marks.Keys == s.heap.Keys && r.marks.Keys == r.heap.Keys && u in s.heap
    requires !s.marks[u].fixed
    requires forall x :: x in r.heap ==> x in s.heap && r.marks[x].fixed == s.marks[x].fixed
    requires forall x :: x in s.heap && x != u ==> x in r.heap && r.marks[x] == s.marks[x]
    requires u in r.heap <==> !IsDead(s.white1, s.marks[u])
    requires u in r.heap ==> r.marks[u] == s.marks[u] || IsCurrentWhite(s.white1, r.marks[u])
    requires forall x, y :: x in r.heap && x in s.heap ==> RefersTo(r.heap, x, y) == RefersTo(s.heap, x, y)
    ensures SweepsTo(s, r)
  {
    hide RefersTo;
  }

  /** Closing all upvalues of t outside propagate: nothing but the upvalues and the lists change. */
  lemma {:induction false} CloseAll(s: State, t: Id, r: State)
    requires Inv(s) && s.phase.Sweep? && t in s.heap && s.heap[t].kind.Thread? && t in s.marks
    requires s.sweepgc <= |s.rootgc| && r == CloseFrom(s, t, 0)
    ensures SweepsTo(s, r) && r.phase.Sweep? && r.sweepgc <= |r.rootgc|
    ensures t in r.heap && t in r.marks && r.marks[t] == s.marks[t] && r.heap[t].openupval == []
    ensures r.heap[t].kind.Thread?
    ensures t in s.rootgc[s.sweepgc..] ==> t in r.rootgc[r.sweepgc..]
    ensures |r.uvhead| <= |s.uvhead| && (r != s ==> |r.uvhead| < |s.uvhead|)
    decreases |s.heap[t].openupval|
  {
    hide RootList, StringTable, LiveClosed, SweptWhite, SweepsTo, Rooted, UpvalLists, CloseOne;
    SweepsToRefl(s);
    if s.heap[t].openupval != [] {
      var u := s.heap[t].openupval[0];
      CloseReady(s, t);
      var c := CloseOne(s, t);
      CloseOneKeepsInv(s, t, u, c);
      CloseOneStep(s, t, u, c);
      CloseAll(c, t, r);
      SweepsToTrans(s, c, r);
    }
  }

  lemma SweepsToRefl(s: State)
    requires s.marks.Keys == s.heap.Keys
    ensures SweepsTo(s, s)
  {
  }

  lemma CloseOneStep(s: State, t: Id, u: Id, r: State)
    requires Inv(s) && s.phase.Sweep? && t in s.heap && s.heap[t].kind.Thread? && HasOpen(s, t)
    requires s.sweepgc <= |s.rootgc|
    requires u == s.heap[t].openupval[0] && u !in s.heap[t].openupval[1..]
    requires r == CloseOne(s, t)
    ensures SweepsTo(s, r) && r.phase.Sweep? && r.sweepgc <= |r.rootgc|
    ensures t in r.heap && t in r.marks && r.marks[t] == s.marks[t]
    ensures r.heap[t] == s.heap[t].(openupval := s.heap[t].openupval[1..])
    ensures t in s.rootgc[s.sweepgc..] ==> t in r.rootgc[r.sweepgc..]
    ensures |r.uvhead| < |s.uvhead|
  {
    hide RootList, StringTable, LiveClosed, SweptWhite, SweepsTo, CloseOne, Detach;
    CloseOneMarks(s, t, u, Detach(s, t), r);
    DetachFacts(s, t, u, Detach(s, t));
    CloseOneSweeps(s, t, u, r);
    CloseOneShorter(s, t, r);
    LinkedSuffix(s.rootgc, s.sweepgc, u);
  }

  // ----- sweeplist

  /** The thread x at the pointer: sweep its upvalues, then pass it, or close what is left and free it. */
  function SweepThread(s: State, x: Id): (r: State)
    requires Inv(s) && s.phase.Sweep? && s.sweepgc < |s.rootgc| && x == s.rootgc[s.sweepgc]
    requires x in s.heap && x in s.marks && s.heap[x].kind.Thread?
    ensures Inv(r) && r.phase.Sweep?
  {
    UpvalsOf(s, x);
    var s1 := SweepUpvals(s, x);
    SweepUpvalsKeepsInv(s, x, s1);
    SweptUpvals(s, x, s1);
    if Survives(s.white1, s.marks[x]) then
      PassRootKeepsInv(s1, x, PassRoot(s1));
      PassRoot(s1)
    else
      var s2 := CloseFrom(s1, x, 0);
      CloseAll(s1, x, s2);
      FreeRootKeepsInv(s2, x, FreeRoot(s2, x));
      FreeRoot(s2, x)
  }

  /** One round of sweeplist. */
  function SweepRoot(s: State): (r: State)
    requires Inv(s) && s.phase.Sweep? && s.sweepgc < |s.rootgc|
    ensures Inv(r) && r.phase.Sweep?
  {
    var x := s.rootgc[s.sweepgc];
    Visited(s);
    if s.heap[x].kind.Thread? then SweepThread(s, x)
    else if Survives(s.white1, s.marks[x]) then
      PassRootKeepsInv(s, x, PassRoot(s));
      PassRoot(s)
    else
      FreeRootKeepsInv(s, x, FreeRoot(s, x));
      FreeRoot(s, x)
  }

  lemma Visited(s: State)
    requires Structure(s) && s.sweepgc < |s.rootgc|
    ensures s.rootgc[s.sweepgc] in s.heap && s.rootgc[s.sweepgc] in s.marks
    ensures s.rootgc[s.sweepgc] in s.rootgc[s.sweepgc..]
  {
  }

  lemma SweptUpvals(s: State, t: Id, r: State)
    requires UpvalLists(s) && s.marks.Keys == s.heap.Keys && t in s.heap && s.heap[t].kind.Thread?
    requires NoDup(s.heap[t].openupval)
    requires forall u :: u in s.heap[t].openupval ==> u in s.heap && u != t && IsOpen(s.heap[u])
    requires r == SweepUpvals(s, t)
    ensures t in r.heap && forall u :: u in r.heap[t].openupval && u in r.marks ==> IsCurrentWhite(r.white1, r.marks[u])
  {
    hide UpvalLists, NoDup, Culled;
    SweepUpvalsFacts(s, t, r);
  }

  /** Progress of the sweep pointer: uvhead gets shorter, or the list behind the pointer does. */
  ghost predicate Closer(s: State, r: State) {
    && r.sweepgc <= |r.rootgc| && |r.uvhead| <= |s.uvhead|
    && (|r.uvhead| < |s.uvhead| || |r.rootgc| - r.sweepgc < |s.rootgc| - s.sweepgc)
  }

  lemma SweepThreadSweeps(s: State, x: Id, r: State)
    requires Inv(s) && s.phase.Sweep? && s.sweepgc < |s.rootgc| && x == s.rootgc[s.sweepgc]
    requires x in s.heap && x in s.marks && s.heap[x].kind.Thread? && x in s.rootgc[s.sweepgc..]
    requires r == SweepThread(s, x)
    ensures SweepsTo(s, r) && Closer(s, r)
  {
    hide RootList, StringTable, LiveClosed, SweptWhite, SweepsTo, Rooted, SweepUpvals, PassRoot, FreeRoot, CloseFrom;
    UpvalsOf(s, x);
    var s1 := SweepUpvals(s, x);
    SweepUpvalsKeepsInv(s, x, s1);
    SweepUpvalsSweeps(s, x, s1);
    if Survives(s.white1, s.marks[x]) {
      PassSweeps(s1, x, r);
      SweepsToTrans(s, s1, r);
    } else {
      SweepBound(CloseFrom(s1, x, 0));
      FreeThreadSweeps(s1, x, CloseFrom(s1, x, 0), r);
      SweepsToTrans(s, s1, r);
    }
  }

  lemma FreeThreadSweeps(s: State, x: Id, c: State, r: State)
    requires Inv(s) && s.phase.Sweep? && s.sweepgc < |s.rootgc| && x == s.rootgc[s.sweepgc]
    requires x in s.heap && x in s.marks && s.heap[x].kind.Thread? && x in s.rootgc[s.sweepgc..]
    requires !Survives(s.white1, s.marks[x])
    requires c == CloseFrom(s, x, 0) && c.sweepgc <= |c.rootgc| && r == FreeRoot(c, x)
    ensures SweepsTo(s, r) && Closer(s, r)
  {
    hide Structure, LiveClosed, SweptWhite, Rooted, CloseFrom, FreeRoot;
    CloseAll(s, x, c);
    FreeSweeps(c, x, r);
    SweepsToTrans(s, c, r);
  }

  /** Each round frees only doomed objects and makes progress. */
  lemma SweepRootSweeps(s: State, r: State)
    requires Inv(s) && s.phase.Sweep? && s.sweepgc < |s.rootgc| && r == SweepRoot(s)
    ensures SweepsTo(s, r) && Closer(s, r)
  {
    hide RootList, StringTable, LiveClosed, SweptWhite, SweepsTo, Rooted, UpvalLists, SweepThread, PassRoot, FreeRoot;
    var x := s.rootgc[s.sweepgc];
    Visited(s);
    if s.heap[x].kind.Thread? {
      SweepThreadSweeps(s, x, r);
    } else if Survives(s.white1, s.marks[x]) {
      PassSweeps(s, x, r);
    } else {
      FreeSweeps(s, x, r);
    }
  }

  lemma SweepUpvalsSweeps(s: State, t: Id, r: State)
    requires Inv(s) && Inv(r) && t in s.heap && s.heap[t].kind.Thread?
    requires NoDup(s.heap[t].openupval)
    requires forall u :: u in s.heap[t].openupval ==> u in s.heap && u != t && IsOpen(s.heap[u])
    requires r == SweepUpvals(s, t)
    ensures SweepsTo(s, r) && |r.uvhead| <= |s.uvhead|
  {
    hide RootList, StringTable, LiveClosed, SweptWhite, SweepsTo, UpvalLists, Rooted, SweepChain, Culled, NoDup;
    SweepUpvalsFacts(s, t, r);
    SubHeapOfUpvals(s, t, r);
    CullSweeps(s, r);
    KeepShorter(s.uvhead, r.marks);
  }

  lemma KeepShorter(xs: seq<Id>, mk: Marks)
    ensures |Keep(xs, mk)| <= |xs|
  {
  }

  lemma PassSweeps(s: State, x: Id, r: State)
    requires Inv(s) && s.sweepgc < |s.rootgc| && x == s.rootgc[s.sweepgc] && x in s.marks
    requires Survives(s.white1, s.marks[x])
    requires r == PassRoot(s) && Inv(r)
    ensures SweepsTo(s, r) && r.uvhead == s.uvhead && r.sweepgc == s.sweepgc + 1 && r.rootgc == s.rootgc
  {
    hide RootList, StringTable, LiveClosed, SweptWhite, SweepsTo, UpvalLists, Rooted;
    CullSweeps(s, r);
  }

  lemma FreeSweeps(s: State, x: Id, r: State)
    requires Inv(s) && IsDue(s, x) && r == FreeRoot(s, x)
    ensures SweepsTo(s, r) && r.uvhead == s.uvhead && r.sweepgc == s.sweepgc <= |r.rootgc| && |r.rootgc| < |s.rootgc|
  {
    hide RootList, StringTable, LiveClosed, SweptWhite, SweepsTo, UpvalLists, Rooted, SubHeap, Culled;
    FreeRootOthers(s, x, r);
    CullSweeps(s, r);
    RemoveShorter(s.rootgc[s.sweepgc..], x);
  }

  const GCSWEEPMAX: nat := 40

  /** sweeplist from the sweep pointer, at most n rounds. */
  function SweepList(s: State, n: nat): (r: State)
    requires Inv(s) && s.phase.Sweep?
    ensures Inv(r) && r.phase.Sweep?
    decreases n
  {
    if n == 0 || s.sweepgc >= |s.rootgc| then s else SweepList(SweepRoot(s), n - 1)
  }

  lemma {:induction false} SweepListSweeps(s: State, n: nat, r: State)
    requires Inv(s) && s.phase.Sweep? && r == SweepList(s, n)
    ensures SweepsTo(s, r) && |r.uvhead| <= |s.uvhead| && r.sweepgc <= |r.rootgc|
    ensures n > 0 && s.sweepgc < |s.rootgc| ==> Closer(s, r)
    decreases n
  {
    hide RootList, StringTable, UpvalLists, LiveClosed, SweptWhite, Rooted, SweepsTo, SweepRoot;
    SweepsToRefl(s);
    SweepBound(s);
    if n > 0 && s.sweepgc < |s.rootgc| {
      var m := SweepRoot(s);
      SweepRootSweeps(s, m);
      SweepListSweeps(m, n - 1, r);
      SweepsToTrans(s, m, r);
      if m.sweepgc >= |m.rootgc| || n == 1 { assert r == m; }
    }
  }

  /** GCSsweep: sweep part of rootgc and move on when the pointer has reached its end. */
  function SweepStep(s: State): (r: State)
    requires Inv(s) && s.phase.Sweep?
    ensures Inv(r) && (r.phase.Sweep? || r.phase.Finalize?)
  {
    var m := SweepList(s, GCSWEEPMAX);
    if m.sweepgc < |m.rootgc| then m
    else
      EndOfSweep(m, m.(phase := Finalize));
      m.(phase := Finalize)
  }

  lemma PhaseMoves(s: State, r: State)
    requires Structure(s) && Rooted(s) && LiveClosed(s) && r == s.(phase := r.phase) && !r.phase.SweepString?
    ensures Structure(r) && Rooted(r) && LiveClosed(r)
  {
    hide NoDup, IsChain, IsOwned, IsUpvalOf, Rooted;
    assert Structure(r);
    RootedKept(s, r);
    forall x, y | x in r.heap && !IsDead(r.white1, r.marks[x]) && RefersTo(r.heap, x, y) ensures Usable(r, y) {
      assert Usable(s, y);
    }
  }

  lemma EndOfSweep(s: State, r: State)
    requires Inv(s) && s.phase.Sweep? && s.sweepgc >= |s.rootgc| && r == s.(phase := Finalize)
    ensures Inv(r)
  {
    hide RootList, StringTable, UpvalLists, Rooted, LiveClosed;
    SweepBound(s);
    PhaseMoves(s, r);
  }

  // ----- singlestep

  function SingleStep(s: State): (r: State)
    requires Inv(s)
  {
    match s.phase
    case Pause => MarkRoot(s)
    case Propagate => if s.gray != [] then WithMarking(s, PropagateMark(s.heap, MarkingOf(s))) else Atomic(s)
    case SweepString => SweepStrings(s)
    case Sweep => SweepStep(s)
    case Finalize => s.(phase := Pause)
  }

  lemma PropagateStepKeepsInv(s: State, r: State)
    requires Inv(s) && s.phase.Propagate? && s.gray != [] && r == WithMarking(s, PropagateMark(s.heap, MarkingOf(s)))
    ensures Inv(r) && r.phase.Propagate?
  {
    hide StringTable, UpvalLists, Listed, Tri, Rooted, OpenUpvals, PropagateMark;
    PropagateMarkKeepsTri(s.heap, MarkingOf(s), s.white1, OpenUpvals(s.heap));
    assert r.sweepstrgc <= |r.strt| by { TableBound(s); }
    RecolouredMeta(s, r);
  }

  lemma TableBound(s: State)
    requires Structure(s)
    ensures s.sweepstrgc <= |s.strt|
  {
  }

  lemma FinalizeKeepsInv(s: State, r: State)
    requires Inv(s) && s.phase.Finalize? && r == s.(phase := Pause)
    ensures Inv(r)
  {
    hide RootList, StringTable, UpvalLists, Rooted, LiveClosed;
    PhaseMoves(s, r);
  }

  /** Every step of the collector keeps the invariant. */
  lemma SingleStepKeepsInv(s: State)
    requires Inv(s)
    ensures Inv(SingleStep(s))
  {
    hide Structure, Rooted, Propagating, LiveClosed, SweptWhite;
    match s.phase
    case Pause => MarkRootKeepsInv(s);
    case Propagate =>
      if s.gray != [] { PropagateStepKeepsInv(s, SingleStep(s)); } else { AtomicKeepsInv(s); }
    case SweepString => SweepStringsKeepsInv(s);
    case Sweep =>
    case Finalize => FinalizeKeepsInv(s, SingleStep(s));
  }
}
