/** The two ends of the mark phase: markroot and atomic. */
module GcCycle {
  import opened GcHeap
  import opened GcMark
  import opened GcTri
  import opened GcState

  function WithMarking(s: State, m: Marking): State {
    s.(marks := m.mk, gray := m.gray, grayagain := m.grayagain)
  }

  // ----- markroot

  /** Between collections every object has the current white. */
  lemma AllWhite(s: State)
    requires Inv(s) && (s.phase.Pause? || s.phase.Finalize?)
    ensures NoDangling(s.heap)
    ensures forall x :: x in s.heap ==> IsCurrentWhite(s.white1, s.marks[x])
    ensures MarkInv(s.heap, Marking(s.marks, [], []), s.white1, {})
  {
    hide RootList, StringTable, UpvalLists;
  }

  /** The roots in the order markroot marks them. */
  function RootSeq(s: State): (xs: seq<Id>)
    requires s.mainthread in s.heap
    ensures s.mainthread in xs && s.registry in xs
    ensures forall x :: x in xs <==>
      x == s.mainthread || x in s.heap[s.mainthread].refs || x == s.registry || Ref(x) in s.mt
  {
    [s.mainthread] + s.heap[s.mainthread].refs + [s.registry] + Collectable(s.mt)
  }

  lemma RootSeqInHeap(s: State)
    requires Rooted(s) && NoDangling(s.heap)
    ensures forall x :: x in RootSeq(s) ==> x in s.heap
  {
    forall x | x in RootSeq(s) ensures x in s.heap {
      if !IsRoot(s, x) { assert RefersTo(s.heap, s.mainthread, x); }
    }
  }

  /** Mark the roots xs of an all-white heap with empty gray lists. */
  function MarkRoots(h: Heap, mk: Marks, ghost w1: bool, xs: seq<Id>): (m: Marking)
    requires MarkInv(h, Marking(mk, [], []), w1, {}) && forall x :: x in xs ==> x in h
    ensures MarkInv(h, m, w1, OpenUpvals(h)) && Kept(mk, m.mk)
    ensures forall x :: x in xs ==> !IsWhite(m.mk[x])
    ensures forall x :: x in h ==> !IsDead(w1, m.mk[x])
  {
    MarkAllKeepsTri(h, Marking(mk, [], []), w1, {}, xs);
    MoreExempt(h, MarkAll(h, Marking(mk, [], []), xs), w1, {}, OpenUpvals(h));
    MarkAll(h, Marking(mk, [], []), xs)
  }

  function MarkRoot(s: State): (r: State)
    requires Inv(s) && (s.phase.Pause? || s.phase.Finalize?)
    ensures Propagating(r) && Kept(s.marks, r.marks) && SameGraph(s, r)
    ensures r.phase.Propagate? && r.sweepgc == s.sweepgc && r.sweepstrgc == s.sweepstrgc
    ensures forall x :: x in s.heap ==> Usable(r, x)
  {
    AllWhite(s); RootSeqInHeap(s);
    WithMarking(s, MarkRoots(s.heap, s.marks, s.white1, RootSeq(s))).(phase := Propagate)
  }

  lemma MarkRootKeepsInv(s: State)
    requires Inv(s) && (s.phase.Pause? || s.phase.Finalize?)
    ensures Inv(MarkRoot(s))
  {
    RecolouredMeta(s, MarkRoot(s));
  }

  lemma RecolouredMeta(s: State, r: State)
    requires Structure(s) && Rooted(s) && SameGraph(s, r) && Kept(s.marks, r.marks)
    requires r.sweepgc <= |r.rootgc| && (r.phase.SweepString? ==> r.sweepgc == 0)
    requires (if r.phase.SweepString? then r.sweepstrgc < |r.strt| else r.sweepstrgc <= |r.strt|)
    requires forall x :: x in s.heap ==> Usable(r, x)
    ensures Structure(r) && Rooted(r)
  {
    RecolouredStructure(s, r);
    RecolouredRooted(s, r);
  }

  /** s and r differ in marks, gray lists, white, phase and sweep positions only. */
  ghost predicate SameGraph(s: State, r: State) {
    && r.heap == s.heap && r.rootgc == s.rootgc && r.strt == s.strt && r.uvhead == s.uvhead
    && r.mainthread == s.mainthread && r.running == s.running && r.registry == s.registry && r.mt == s.mt
  }

  lemma RecolouredStructure(s: State, r: State)
    requires Structure(s) && SameGraph(s, r) && r.marks.Keys == s.marks.Keys
    requires r.sweepgc <= |r.rootgc| && (r.phase.SweepString? ==> r.sweepgc == 0)
    requires (if r.phase.SweepString? then r.sweepstrgc < |r.strt| else r.sweepstrgc <= |r.strt|)
    ensures Structure(r)
  {
  }

  lemma RecolouredRooted(s: State, r: State)
    requires Rooted(s) && SameGraph(s, r) && r.marks.Keys == s.marks.Keys
    requires forall x :: x in s.marks ==> r.marks[x].fixed == s.marks[x].fixed
    requires forall x :: x in s.heap && IsRoot(s, x) ==> Usable(r, x)
    ensures Rooted(r)
  {
    assert forall x :: IsRoot(r, x) ==> IsRoot(s, x) && Usable(s, x);
  }

  // ----- atomic

  /** All marking of atomic: the gray open upvalues `uvs`, propagate; the running thread and the metatables `late`,
      propagate; grayagain, propagate. Without weak tables `weak` is empty and stays so. */
  function AtomicMarks(h: Heap, m: Marking, ghost w1: bool, uvs: seq<Id>, late: seq<Id>): (r: Marking)
    requires MarkInv(h, m, w1, set x | x in uvs)
    requires (forall x :: x in uvs ==> x in h && IsOpen(h[x])) && (forall x :: x in late ==> x in h)
    ensures MarkInv(h, r, w1, {}) && r.gray == [] && AgainDone(h, r) && Kept(m.mk, r.mk)
    ensures forall x :: x in late ==> !IsWhite(r.mk[x])
  {
    RemarkUpvalsEndsExemption(h, m, w1, uvs);
    var m2 := PropagateAll(h, RemarkUpvals(h, m, uvs), w1, {});
    MarkLate(h, m2, w1, late)
  }

  function MarkLate(h: Heap, m: Marking, ghost w1: bool, late: seq<Id>): (r: Marking)
    requires MarkInv(h, m, w1, {}) && forall x :: x in late ==> x in h
    ensures MarkInv(h, r, w1, {}) && r.gray == [] && AgainDone(h, r) && Kept(m.mk, r.mk)
    ensures forall x :: x in late ==> !IsWhite(r.mk[x])
  {
    MarkAllKeepsTri(h, m, w1, {}, late);
    var m4 := PropagateAll(h, MarkAll(h, m, late), w1, {});
    Swap(h, m4, w1);
    TraverseAgain(h, m4.(gray := m4.grayagain, grayagain := []), w1)
  }

  function TraverseAgain(h: Heap, m: Marking, ghost w1: bool): (r: Marking)
    requires MarkInv(h, m, w1, {}) && m.grayagain == []
    ensures MarkInv(h, r, w1, {}) && r.gray == [] && AgainDone(h, r) && Kept(m.mk, r.mk)
  {
    PropagateAllKeepsDone(h, m, w1, {});
    PropagateAll(h, m, w1, {})
  }

  function AtomicMarking(s: State): (m: Marking)
    requires Propagating(s) && Rooted(s) && UpvalLists(s)
    ensures MarkInv(s.heap, m, s.white1, {}) && m.gray == [] && AgainDone(s.heap, m) && Kept(s.marks, m.mk)
    ensures forall x :: x in s.heap && IsRoot(s, x) ==> !IsWhite(m.mk[x])
  {
    MoreExempt(s.heap, MarkingOf(s), s.white1, OpenUpvals(s.heap), set x | x in s.uvhead);
    assert forall x :: Ref(x) in s.mt ==> IsRoot(s, x);
    AtomicMarks(s.heap, MarkingOf(s), s.white1, s.uvhead, [s.running] + Collectable(s.mt))
  }

  lemma MoreExempt(h: Heap, m: Marking, w1: bool, exempt: set<Id>, more: set<Id>)
    requires MarkInv(h, m, w1, exempt) && exempt <= more
    ensures MarkInv(h, m, w1, more)
  {
  }

  lemma Swap(h: Heap, m: Marking, w1: bool)
    requires MarkInv(h, m, w1, {}) && m.gray == []
    ensures MarkInv(h, m.(gray := m.grayagain, grayagain := []), w1, {})
  {
  }

  function Atomic(s: State): (r: State)
    requires Inv(s) && s.phase.Propagate?
  {
    WithMarking(s, AtomicMarking(s)).(white1 := !s.white1, sweepstrgc := 0, sweepgc := 0, phase := SweepString)
  }

  /** The flip of the current white condemns exactly the objects atomic left white, and no live object refers to one. */
  lemma AtomicKeepsInv(s: State)
    requires Inv(s) && s.phase.Propagate?
    ensures Inv(Atomic(s))
    ensures
      forall x :: x in s.heap ==> (IsDead(Atomic(s).white1, Atomic(s).marks[x]) <==> IsWhite(AtomicMarking(s).mk[x]))
  {
    var r, m := Atomic(s), AtomicMarking(s);
    RecolouredStructure(s, r);
    forall x | x in s.heap
      ensures IsDead(r.white1, r.marks[x]) <==> IsWhite(m.mk[x])
      ensures MarkOk(r.heap[x], r.marks[x])
    {
    }
    RecolouredRooted(s, r);
    forall x, y | x in s.heap && !IsDead(r.white1, r.marks[x]) && RefersTo(s.heap, x, y) ensures Usable(r, y) {
      MarkedIsClosed(s.heap, m, s.white1, x, y);
    }
    AllUnswept(s, r);
  }

  lemma AllUnswept(s: State, r: State)
    requires Structure(s) && SameGraph(s, r) && r.phase.SweepString? && r.sweepstrgc == 0
    ensures forall x :: x in r.heap ==> Unswept(r, x)
  {
  }
}
