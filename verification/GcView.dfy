/** What the program sees of the collector, over whole collections and whole runs. */
module GcView {
  import opened GcHeap
  import opened GcMark
  import opened GcTri
  import opened GcState
  import opened GcCycle
  import opened GcStep
  import opened GcFull
  import opened GcExact
  import opened GcRun

  /** In every propagate state of every run no black object refers to a white one, and every gray table, closure,
      prototype or thread is on the gray or the grayagain list. */
  lemma RunIsTricolour(run: seq<State>, ops: seq<Op>, i: nat, x: Id, y: Id)
    requires IsRun(run, ops) && i < |run| && run[i].phase.Propagate? && x in run[i].heap
    ensures run[i].marks.Keys == run[i].heap.Keys
    ensures IsBlack(run[i].marks[x]) && RefersTo(run[i].heap, x, y) ==> y in run[i].heap && !IsWhite(run[i].marks[y])
    ensures IsGray(run[i].marks[x]) && IsContainer(run[i].heap[x].kind) ==> x in run[i].gray || x in run[i].grayagain
  {
    hide IsRun, Structure, Rooted, Listed, Coloured, Tri, RefersTo;
    RunKeepsInv(run, ops, i);
    var s := run[i];
    assert Propagating(s);
    NoBlackToWhite(s.heap, MarkingOf(s), s.white1, x, y);
  }

  // ----- full collections

  /** From s to r neither what the program can reach nor what reachable objects refer to has changed. */
  ghost predicate SameView(s: State, r: State) { forall x :: SameFor(s, r, x) }

  ghost predicate SameFor(s: State, r: State, x: Id) {
    && (Reachable(s, x) <==> Reachable(r, x))
    && (Reachable(s, x) ==>
          x in s.heap && x in r.heap && forall y :: RefersTo(r.heap, x, y) <==> RefersTo(s.heap, x, y))
  }

  lemma ViewTrans(s: State, m: State, r: State)
    requires SameView(s, m) && SameView(m, r)
    ensures SameView(s, r)
  {
    hide Reachable, RefersTo;
    forall x ensures SameFor(s, r, x) { assert SameFor(s, m, x) && SameFor(m, r, x); }
  }

  lemma StepView(s: State)
    requires Inv(s)
    ensures SameView(s, SingleStep(s))
  {
    hide Inv, SingleStep, Reachable, RefersTo;
    forall x ensures SameFor(s, SingleStep(s), x) { CollectorIsInvisible(s, x); }
  }

  lemma GraphView(s: State, r: State)
    requires SameGraph(s, r) && forall x :: Reachable(s, x) ==> x in s.heap
    ensures SameView(s, r)
  {
    hide Reachable, RefersTo;
    SameGraphReachable(s, r);
  }

  lemma ReachableInHeap(s: State)
    requires Inv(s)
    ensures forall x :: Reachable(s, x) ==> x in s.heap
  {
    hide Inv, Reachable;
    ReachableIsUsable(s);
  }

  lemma {:induction false} ToFinalizeView(s: State)
    requires Inv(s) && !s.phase.Pause? && !s.phase.Propagate?
    ensures SameView(s, RunToFinalize(s))
    decreases Rank0(s), Rank1(s), Rank2(s)
  {
    hide Inv, SingleStep, SameView;
    if s.phase.Finalize? {
      SelfView(s);
    } else {
      SingleStepKeepsInv(s);
      StepsEnd(s);
      SweepStays(s);
      StepView(s);
      ToFinalizeView(SingleStep(s));
      ViewTrans(s, SingleStep(s), RunToFinalize(s));
    }
  }

  lemma {:induction false} ToPauseView(s: State)
    requires Inv(s)
    ensures SameView(s, RunToPause(s))
    decreases Rank0(s), Rank1(s), Rank2(s)
  {
    hide Inv, SingleStep, SameView;
    if s.phase.Pause? {
      SelfView(s);
    } else {
      SingleStepKeepsInv(s);
      StepsEnd(s);
      StepView(s);
      ToPauseView(SingleStep(s));
      ViewTrans(s, SingleStep(s), RunToPause(s));
    }
  }

  lemma SelfView(s: State)
    requires Inv(s)
    ensures SameView(s, s)
  {
    hide Inv, Reachable, RefersTo;
    ReachableInHeap(s);
  }

  /** A full collection changes neither what the program can reach nor what the reachable objects refer to. */
  lemma FullGcIsInvisible(s: State)
    requires Inv(s)
    ensures SameView(s, FullGc(s))
  {
    hide Inv, SameView, RunToFinalize, RunToPause, MarkRoot;
    var s1 := Restart(s);
    RestartKeepsInv(s, s1);
    ReachableInHeap(s);
    GraphView(s, s1);
    ToFinalizeView(s1);
    var f := RunToFinalize(s1);
    MarkRootKeepsInv(f);
    ReachableInHeap(f);
    GraphView(f, MarkRoot(f));
    ToPauseView(MarkRoot(f));
    ViewTrans(s, s1, f);
    ViewTrans(s, f, MarkRoot(f));
    ViewTrans(s, MarkRoot(f), FullGc(s));
  }
}
