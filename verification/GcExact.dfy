/** Marking reaches nothing but reachable objects; with the sweep this makes luaC_fullgc exact. */
module GcExact {
  import opened GcHeap
  import opened GcMark
  import opened GcTri
  import opened GcState
  import opened GcCycle
  import opened GcSweep
  import opened GcUpval
  import opened GcStep
  import opened GcFull

  // ----- marking stays inside every set that is closed under references

  ghost predicate Within(mk: Marks, R: set<Id>) { forall x :: x in mk && !IsWhite(mk[x]) ==> x in R }

  ghost predicate RefsWithin(h: Heap, R: set<Id>) {
    forall x, y :: x in h && RefersTo(h, x, y) && x in R ==> y in R
  }

  lemma {:induction false} ReallyMarkWithin(h: Heap, m: Marking, x: Id, R: set<Id>)
    requires NoDangling(h) && m.mk.Keys == h.Keys && x in h && IsWhite(m.mk[x])
    requires RefsWithin(h, R) && Within(m.mk, R) && x in R
    ensures Within(ReallyMarkObject(h, m, x).mk, R)
    decreases |Whites(m.mk)|, 0
  {
    var gray := WhiteToGray(m.mk[x]);
    var g, b := m.(mk := Recolour(m.mk, x, gray)), m.(mk := Recolour(m.mk, x, GrayToBlack(gray)));
    match h[x].kind
    case Userdata => MarkAllWithin(h, b, RefSeq(h, x), R);
    case UpVal => MarkAllWithin(h, g, RefSeq(h, x), R);
    case _ =>
  }

  lemma {:induction false} MarkAllWithin(h: Heap, m: Marking, xs: seq<Id>, R: set<Id>)
    requires NoDangling(h) && m.mk.Keys == h.Keys && forall x :: x in xs ==> x in h && x in R
    requires RefsWithin(h, R) && Within(m.mk, R)
    ensures Within(MarkAll(h, m, xs).mk, R)
    decreases |Whites(m.mk)|, 1 + |xs|
  {
    if xs != [] {
      if IsWhite(m.mk[xs[0]]) { ReallyMarkWithin(h, m, xs[0], R); }
      var m' := MarkObject(h, m, xs[0]);
      FewerWhites(m.mk, m'.mk);
      MarkAllWithin(h, m', xs[1..], R);
    }
  }

  lemma PropagateMarkWithin(h: Heap, m: Marking, w1: bool, exempt: set<Id>, R: set<Id>)
    requires MarkInv(h, m, w1, exempt) && m.gray != [] && RefsWithin(h, R) && Within(m.mk, R)
    ensures Within(PropagateMark(h, m).mk, R)
  {
    hide Coloured, Tri, NoDup;
    var x := m.gray[0];
    assert x in m.gray && x in R;
    MarkAllWithin(h, TakeGray(h, m), RefSeq(h, x), R);
  }

  lemma {:induction false} PropagateAllWithin(h: Heap, m: Marking, w1: bool, exempt: set<Id>, R: set<Id>)
    requires MarkInv(h, m, w1, exempt) && RefsWithin(h, R) && Within(m.mk, R)
    ensures Within(PropagateAll(h, m, w1, exempt).mk, R)
    decreases |Whites(m.mk)|, |m.gray|
  {
    if m.gray != [] {
      PropagateMarkKeepsTri(h, m, w1, exempt);
      PropagateMarkWithin(h, m, w1, exempt, R);
      PropagateAllWithin(h, PropagateMark(h, m), w1, exempt, R);
    }
  }

  lemma {:induction false} RemarkWithin(h: Heap, m: Marking, uvs: seq<Id>, R: set<Id>)
    requires NoDangling(h) && m.mk.Keys == h.Keys && forall x :: x in uvs ==> x in h
    requires RefsWithin(h, R) && Within(m.mk, R)
    ensures Within(RemarkUpvals(h, m, uvs).mk, R)
    decreases |uvs|
  {
    if uvs != [] {
      if IsGray(m.mk[uvs[0]]) {
        MarkAllWithin(h, m, RefSeq(h, uvs[0]), R);
        RemarkWithin(h, MarkAll(h, m, RefSeq(h, uvs[0])), uvs[1..], R);
      } else {
        RemarkWithin(h, m, uvs[1..], R);
      }
    }
  }

  lemma AtomicWithin(h: Heap, m: Marking, w1: bool, uvs: seq<Id>, late: seq<Id>, R: set<Id>)
    requires MarkInv(h, m, w1, set x | x in uvs)
    requires (forall x :: x in uvs ==> x in h && IsOpen(h[x])) && (forall x :: x in late ==> x in h && x in R)
    requires RefsWithin(h, R) && Within(m.mk, R)
    ensures Within(AtomicMarks(h, m, w1, uvs, late).mk, R)
  {
    hide Listed, Coloured, Tri, MarkLate;
    RemarkUpvalsEndsExemption(h, m, w1, uvs);
    RemarkWithin(h, m, uvs, R);
    var m1 := RemarkUpvals(h, m, uvs);
    PropagateAllWithin(h, m1, w1, {}, R);
    LateWithin(h, PropagateAll(h, m1, w1, {}), w1, late, R);
  }

  lemma LateWithin(h: Heap, m: Marking, w1: bool, late: seq<Id>, R: set<Id>)
    requires MarkInv(h, m, w1, {}) && (forall x :: x in late ==> x in h && x in R)
    requires RefsWithin(h, R) && Within(m.mk, R)
    ensures Within(MarkLate(h, m, w1, late).mk, R)
  {
    hide Listed, Coloured, Tri, PropagateAll, MarkAll;
    MarkAllKeepsTri(h, m, w1, {}, late);
    MarkAllWithin(h, m, late, R);
    var m3 := MarkAll(h, m, late);
    PropagateAllWithin(h, m3, w1, {}, R);
    var m4 := PropagateAll(h, m3, w1, {});
    Swap(h, m4, w1);
    PropagateAllWithin(h, m4.(gray := m4.grayagain, grayagain := []), w1, {}, R);
  }

  // ----- sweeping from the flip to the end of the collection

  lemma StepSweeps(s: State)
    requires Inv(s) && (s.phase.SweepString? || s.phase.Sweep? || s.phase.Finalize?) && Inv(SingleStep(s))
    ensures SweepsTo(s, SingleStep(s))
  {
    hide RootList, Rooted, LiveClosed, SweptWhite, SweepsTo, SubHeap, Culled, SweepList, UpvalLists;
    var r := SingleStep(s);
    match s.phase
    case SweepString =>
      SweepStringsFacts(s, r);
      CullSweeps(s, r);
    case Sweep =>
      var m := SweepList(s, GCSWEEPMAX);
      SweepListSweeps(s, GCSWEEPMAX, m);
      SweepsToPhase(s, m, r);
    case Finalize =>
      SweepsToRefl(s);
      SweepsToPhase(s, s, r);
  }

  lemma SweepsToPhase(s: State, m: State, r: State)
    requires SweepsTo(s, m) && r == m.(phase := r.phase)
    ensures SweepsTo(s, r)
  {
  }

  lemma {:induction false} SweepToPause(s: State)
    requires Inv(s) && !s.phase.Propagate?
    ensures SweepsTo(s, RunToPause(s))
    decreases Rank0(s), Rank1(s), Rank2(s)
  {
    hide Structure, Rooted, LiveClosed, SweptWhite, SweepsTo, SingleStep, Propagating;
    if s.phase.Pause? {
      KeysMatch(s);
      SweepsToRefl(s);
    } else {
      SingleStepKeepsInv(s); StepsEnd(s);
      StepSweeps(s);
      NoWayBack(s);
      SweepToPause(SingleStep(s));
      SweepsToTrans(s, SingleStep(s), RunToPause(s));
    }
  }

  lemma KeysMatch(s: State)
    requires Inv(s)
    ensures s.marks.Keys == s.heap.Keys
  {
  }

  lemma NoWayBack(s: State)
    requires Inv(s) && !s.phase.Propagate? && !s.phase.Pause?
    ensures !SingleStep(s).phase.Propagate?
  {
    hide Inv;
  }

  lemma {:induction false} SweepToFinalize(s: State)
    requires Inv(s) && !s.phase.Propagate? && !s.phase.Pause?
    ensures SweepsTo(s, RunToFinalize(s))
    decreases Rank0(s), Rank1(s), Rank2(s)
  {
    hide Structure, Rooted, LiveClosed, SweptWhite, SweepsTo, SingleStep, Propagating;
    if s.phase.Finalize? {
      KeysMatch(s);
      SweepsToRefl(s);
    } else {
      SingleStepKeepsInv(s); StepsEnd(s); SweepStays(s);
      StepSweeps(s);
      SweepToFinalize(SingleStep(s));
      SweepsToTrans(s, SingleStep(s), RunToFinalize(s));
    }
  }

  /** Between collections nothing is doomed, so a finished sweep has freed exactly the doomed objects. */
  lemma SweptClean(s: State, r: State)
    requires Inv(s) && Inv(r) && (r.phase.Pause? || r.phase.Finalize?) && SweepsTo(s, r)
    ensures forall x :: x in r.heap <==> x in s.heap && !Doomed(s, x)
  {
    hide RootList, StringTable, UpvalLists, Rooted, LiveClosed, RefersTo;
    forall x | x in r.heap ensures !Doomed(s, x) {
      assert IsCurrentWhite(r.white1, r.marks[x]);
    }
  }

  // ----- reachability through a sweep

  lemma SweepKeepsPath(s: State, r: State, p: seq<Id>)
    requires Inv(s) && SweepsTo(s, r)
    ensures IsPath(s, p) <==> IsPath(r, p)
  {
    hide RootList, StringTable, UpvalLists, Rooted, LiveClosed, SweptWhite, Propagating, RefersTo;
    if IsPath(s, p) {
      ReachableIsUsable(s);
      forall i | 0 <= i < |p| - 1 ensures p[i] in r.heap && RefersTo(r.heap, p[i], p[i + 1]) {
        assert IsPath(s, p[..i + 1]) && p[..i + 1][|p[..i + 1]| - 1] == p[i];
        assert Reachable(s, p[i]);
      }
      assert IsRoot(r, p[0]);
    }
    if IsPath(r, p) {
      assert IsRoot(s, p[0]);
    }
  }

  lemma SweepKeepsReachable(s: State, r: State)
    requires Inv(s) && SweepsTo(s, r)
    ensures forall x :: Reachable(s, x) <==> Reachable(r, x)
  {
    forall p ensures IsPath(s, p) <==> IsPath(r, p) { SweepKeepsPath(s, r, p); }
  }

  lemma SameGraphReachable(s: State, r: State)
    requires SameGraph(s, r)
    ensures forall x :: Reachable(s, x) <==> Reachable(r, x)
  {
    forall p ensures IsPath(s, p) <==> IsPath(r, p) { assert p != [] ==> (IsRoot(s, p[0]) <==> IsRoot(r, p[0])); }
  }

  // ----- marking from the roots to the flip

  ghost predicate IsReach(s: State, R: set<Id>) { forall x :: x in R <==> x in s.heap && Reachable(s, x) }

  lemma ReachIsClosed(s: State, R: set<Id>)
    requires Inv(s) && IsReach(s, R)
    ensures RefsWithin(s.heap, R) && forall x :: IsRoot(s, x) ==> x in R
  {
    hide Structure, Rooted, LiveClosed, SweptWhite, Propagating, RefersTo;
    ReachableIsUsable(s);
    forall x, y | x in s.heap && RefersTo(s.heap, x, y) && x in R ensures y in R { ReachableStep(s, x, y); }
    forall x | IsRoot(s, x) ensures x in R { RootIsReachable(s, x); }
  }

  /** atomic condemns exactly the unreachable objects that are not fixed. */
  lemma AtomicExact(s: State, R: set<Id>)
    requires Inv(s) && s.phase.Propagate? && IsReach(s, R) && Within(s.marks, R)
    ensures forall x :: x in s.heap ==> (Doomed(Atomic(s), x) <==> x !in R && !s.marks[x].fixed)
  {
    var r := Atomic(s);
    AtomicKeepsInv(s);
    AtomicMarksWithin(s, R);
    SameGraphReachable(s, r);
    ReachableIsUsable(r);
    DoomedExact(s, r, R);
  }

  lemma AtomicMarksWithin(s: State, R: set<Id>)
    requires Inv(s) && s.phase.Propagate? && IsReach(s, R) && Within(s.marks, R)
    ensures Within(Atomic(s).marks, R) && Kept(s.marks, Atomic(s).marks) && SameGraph(s, Atomic(s))
  {
    hide RootList, StringTable, Listed, Coloured, Tri, LiveClosed, SweptWhite, IsReach, AtomicMarks;
    ReachIsClosed(s, R);
    MoreExempt(s.heap, MarkingOf(s), s.white1, OpenUpvals(s.heap), set x | x in s.uvhead);
    assert forall x :: Ref(x) in s.mt ==> IsRoot(s, x);
    AtomicWithin(s.heap, MarkingOf(s), s.white1, s.uvhead, [s.running] + Collectable(s.mt), R);
  }

  lemma DoomedExact(s: State, r: State, R: set<Id>)
    requires s.marks.Keys == s.heap.Keys && Kept(s.marks, r.marks) && Within(r.marks, R) && IsReach(s, R)
    requires forall x :: Reachable(s, x) ==> Usable(r, x)
    requires forall x :: x in s.heap ==> (IsDead(r.white1, r.marks[x]) <==> IsWhite(r.marks[x]))
    ensures forall x :: x in s.heap ==> (Doomed(r, x) <==> x !in R && !s.marks[x].fixed)
  {
  }

  lemma AtomicToPause(s: State, R: set<Id>, r: State, e: State)
    requires Inv(s) && s.phase.Propagate? && IsReach(s, R) && Within(s.marks, R)
    requires r == Atomic(s) && Inv(r) && e == RunToPause(r)
    ensures s.marks.Keys == s.heap.Keys && forall x :: x in e.heap <==> x in s.heap && (x in R || s.marks[x].fixed)
  {
    hide Structure, Rooted, LiveClosed, SweptWhite, Propagating, IsReach, Within, Atomic, RunToPause, Doomed;
    KeysMatch(s);
    AtomicHeap(s);
    AtomicExact(s, R);
    SweepToPause(r);
    SweptClean(r, e);
  }

  lemma {:induction false} MarkToPause(s: State, R: set<Id>)
    requires Inv(s) && s.phase.Propagate? && IsReach(s, R) && Within(s.marks, R)
    ensures s.marks.Keys == s.heap.Keys
    ensures forall x :: x in RunToPause(s).heap <==> x in s.heap && (x in R || s.marks[x].fixed)
    decreases |Whites(s.marks)|, |s.gray|
  {
    hide Structure, Rooted, LiveClosed, SweptWhite, Propagating, IsReach, Within, Atomic, PropagateMark;
    var r := SingleStep(s);
    SingleStepKeepsInv(s);
    KeysMatch(s);
    if s.gray == [] {
      AtomicToPause(s, R, r, RunToPause(r));
    } else {
      PropagateStepKeepsInv(s, r);
      PropagateStepExact(s, R, r);
      MarkToPause(r, R);
    }
  }

  lemma PropagateStepExact(s: State, R: set<Id>, r: State)
    requires Inv(s) && s.phase.Propagate? && s.gray != [] && IsReach(s, R) && Within(s.marks, R)
    requires r == WithMarking(s, PropagateMark(s.heap, MarkingOf(s)))
    ensures IsReach(r, R) && Within(r.marks, R) && r.heap == s.heap && Kept(s.marks, r.marks)
    ensures |Whites(r.marks)| < |Whites(s.marks)| || (|Whites(r.marks)| == |Whites(s.marks)| && |r.gray| < |s.gray|)
  {
    hide RootList, StringTable, UpvalLists, Rooted, Coloured, Tri, IsReach, PropagateMark;
    ReachIsClosed(s, R);
    PropagateMarkWithin(s.heap, MarkingOf(s), s.white1, OpenUpvals(s.heap), R);
    SameReach(s, r, R);
  }

  lemma AtomicHeap(s: State)
    requires Inv(s) && s.phase.Propagate?
    ensures Atomic(s).heap == s.heap && Atomic(s).phase.SweepString?
  {
  }

  lemma SameReach(s: State, r: State, R: set<Id>)
    requires SameGraph(s, r) && IsReach(s, R)
    ensures IsReach(r, R)
  {
    SameGraphReachable(s, r);
  }

  lemma RootSeqWithin(s: State, R: set<Id>)
    requires Rooted(s) && RefsWithin(s.heap, R) && forall x :: IsRoot(s, x) ==> x in R
    ensures forall x :: x in RootSeq(s) ==> x in R
  {
    assert IsRoot(s, s.mainthread);
    forall x | x in RootSeq(s) ensures x in R {
      if !IsRoot(s, x) { assert RefersTo(s.heap, s.mainthread, x); }
    }
  }

  lemma MarkRootExact(f: State, R: set<Id>, r: State)
    requires Inv(f) && f.phase.Finalize? && IsReach(f, R) && r == MarkRoot(f)
    ensures Within(r.marks, R) && IsReach(r, R)
  {
    hide Listed, Coloured, Tri, RootList, StringTable, UpvalLists, LiveClosed, IsReach, Rooted;
    AllWhite(f);
    ReachIsClosed(f, R);
    RootSeqInHeap(f);
    RootSeqWithin(f, R);
    MarkAllWithin(f.heap, Marking(f.marks, [], []), RootSeq(f), R);
    SameReach(f, r, R);
  }

  lemma CollectFromWhite(f: State, r: State)
    requires Inv(f) && f.phase.Finalize? && r == MarkRoot(f) && Inv(r)
    ensures f.marks.Keys == f.heap.Keys
    ensures forall x :: x in RunToPause(r).heap <==> x in f.heap && (Reachable(f, x) || f.marks[x].fixed)
  {
    hide Structure, Rooted, LiveClosed, SweptWhite, Propagating, Reachable, RunToPause, Within;
    var R := set x | x in f.heap && Reachable(f, x);
    KeysMatch(f);
    MarkRootExact(f, R, r);
    MarkToPause(r, R);
  }

  /** luaC_fullgc leaves exactly the objects that were reachable when it was called, and the fixed ones. */
  lemma FullGcIsExact(s: State)
    requires Inv(s)
    ensures s.marks.Keys == s.heap.Keys
    ensures forall x :: x in FullGc(s).heap <==> x in s.heap && (Reachable(s, x) || s.marks[x].fixed)
  {
    hide Structure, Rooted, LiveClosed, SweptWhite, Propagating, RunToPause, RunToFinalize, Reachable, SweepsTo,
      MarkRoot;
    var s1 := Restart(s);
    RestartKeepsInv(s, s1);
    KeysMatch(s);
    SameGraphReachable(s, s1);
    SweepToFinalize(s1);
    var f := RunToFinalize(s1);
    MarkRootKeepsInv(f);
    CollectFromWhite(f, MarkRoot(f));
    SweepKeepsReachable(s1, f);
    ReachableIsUsable(s1);
    FixedSurvives(s1, f);
  }

  lemma FixedSurvives(s: State, f: State)
    requires s.marks.Keys == s.heap.Keys && SweepsTo(s, f) && f.marks.Keys == f.heap.Keys
    ensures forall x :: x in f.heap ==> x in s.heap && f.marks[x].fixed == s.marks[x].fixed
    ensures forall x :: x in s.heap && (s.marks[x].fixed || Usable(s, x)) ==> x in f.heap
  {
  }
}
