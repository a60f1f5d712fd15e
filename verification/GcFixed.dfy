/** What else a step of a program leaves or changes: the roots, and the objects that are fixed and so never freed. */
module GcFixed {
  import opened GcHeap
  import opened GcMark
  import opened GcState
  import opened GcCycle
  import opened GcSweep
  import opened GcUpval
  import opened GcStep
  import opened GcMutator
  import opened GcOpen
  import opened GcFull
  import opened GcExact
  import opened GcRun

  predicate IsFixed(s: State, x: Id) { x in s.heap && x in s.marks && s.marks[x].fixed }

  /** The roots are the same, and so are the fixed objects. */
  ghost predicate Steady(s: State, r: State) {
    && r.mainthread == s.mainthread && r.running == s.running && r.registry == s.registry && r.mt == s.mt
    && forall x :: IsFixed(r, x) <==> IsFixed(s, x)
  }

  lemma SteadyTrans(s: State, m: State, r: State)
    requires Steady(s, m) && Steady(m, r)
    ensures Steady(s, r)
  {
    hide IsFixed;
  }

  // ----- the collector

  lemma SweepIsSteady(s: State, r: State)
    requires SweepsTo(s, r) && r.marks.Keys == r.heap.Keys
    ensures Steady(s, r)
  {
  }

  lemma MarkingIsSteady(s: State, r: State)
    requires SameGraph(s, r) && Kept(s.marks, r.marks)
    ensures Steady(s, r)
  {
  }

  lemma MarkingKept(s: State)
    requires Inv(s) && (s.phase.Pause? || s.phase.Propagate?)
    ensures SameGraph(s, SingleStep(s)) && Kept(s.marks, SingleStep(s).marks)
  {
    hide Structure, Rooted, LiveClosed, SweptWhite, Kept, PropagateMark, AtomicMarking;
    if s.phase.Propagate? && s.gray != [] { assert Kept(s.marks, PropagateMark(s.heap, MarkingOf(s)).mk); }
  }

  lemma StepIsSteady(s: State)
    requires Inv(s)
    ensures Steady(s, SingleStep(s))
  {
    hide Structure, Rooted, LiveClosed, SweptWhite, Propagating, SingleStep, Steady, SweepsTo;
    if s.phase.Pause? || s.phase.Propagate? {
      MarkingKept(s);
      MarkingIsSteady(s, SingleStep(s));
    } else {
      SingleStepKeepsInv(s);
      StepSweeps(s);
      KeysMatch(SingleStep(s));
      SweepIsSteady(s, SingleStep(s));
    }
  }

  lemma {:induction false} ToPauseIsSteady(s: State)
    requires Inv(s)
    ensures Steady(s, RunToPause(s))
    decreases Rank0(s), Rank1(s), Rank2(s)
  {
    hide Inv, SingleStep, IsFixed;
    if !s.phase.Pause? {
      SingleStepKeepsInv(s);
      StepsEnd(s);
      StepIsSteady(s);
      ToPauseIsSteady(SingleStep(s));
      SteadyTrans(s, SingleStep(s), RunToPause(s));
    }
  }

  lemma {:induction false} ToFinalizeIsSteady(s: State)
    requires Inv(s) && !s.phase.Pause? && !s.phase.Propagate?
    ensures Steady(s, RunToFinalize(s))
    decreases Rank0(s), Rank1(s), Rank2(s)
  {
    hide Inv, SingleStep, IsFixed;
    if !s.phase.Finalize? {
      SingleStepKeepsInv(s);
      StepsEnd(s);
      SweepStays(s);
      StepIsSteady(s);
      ToFinalizeIsSteady(SingleStep(s));
      SteadyTrans(s, SingleStep(s), RunToFinalize(s));
    }
  }

  lemma FullGcIsSteady(s: State)
    requires Inv(s)
    ensures Steady(s, FullGc(s))
  {
    hide Inv, IsFixed, RunToFinalize, RunToPause, MarkRoot;
    var s1 := Restart(s);
    RestartKeepsInv(s, s1);
    assert Steady(s, s1) by { RestartIsSteady(s); }
    ToFinalizeIsSteady(s1);
    var f := RunToFinalize(s1);
    MarkRootKeepsInv(f);
    MarkingIsSteady(f, MarkRoot(f));
    ToPauseIsSteady(MarkRoot(f));
  }

  lemma RestartIsSteady(s: State)
    ensures Steady(s, Restart(s))
  {
  }

  // ----- luaF_close and luaF_findupval

  lemma CloseOneIsSteady(s: State, t: Id, u: Id, c: State)
    requires HasOpen(s, t) && (s.phase.Propagate? ==> NoDangling(s.heap)) && u == s.heap[t].openupval[0]
    requires !s.marks[u].fixed && s.marks.Keys == s.heap.Keys && t in s.heap && t != u && c == CloseOne(s, t)
    ensures Steady(s, c)
  {
    hide NoDangling, MarkAll;
  }

  lemma NotFixed(s: State, t: Id)
    requires Inv(s) && t in s.heap && s.heap[t].kind.Thread? && s.heap[t].openupval != []
    ensures s.marks.Keys == s.heap.Keys && s.heap[t].openupval[0] in s.marks && s.heap[t].openupval[0] != t
    ensures !s.marks[s.heap[t].openupval[0]].fixed
  {
    hide StringTable, LiveClosed, SweptWhite, Propagating, NoDup;
    assert IsUpvalOf(s.heap, t, s.heap[t].openupval[0]);
  }

  lemma {:induction false} CloseFromIsSteady(s: State, t: Id, level: nat)
    requires Inv(s) && t in s.heap && s.heap[t].kind.Thread?
    ensures Steady(s, CloseFrom(s, t, level))
    decreases |s.heap[t].openupval|
  {
    hide Structure, Rooted, LiveClosed, SweptWhite, Propagating, CloseOne, IsFixed;
    if s.heap[t].openupval != [] {
      CloseReady(s, t);
      var u := s.heap[t].openupval[0];
      if s.heap[u].place.slot >= level {
        var c := CloseOne(s, t);
        CloseOneKeepsInv(s, t, u, c);
        CloseOneShorter(s, t, c);
        NotFixed(s, t);
        CloseOneIsSteady(s, t, u, c);
        CloseFromIsSteady(c, t, level);
      }
    }
  }

  // ----- every step

  /** The roots and the fixed objects after the step: only SetMetatables, Resume and FixString change them. */
  ghost predicate Settles(s: State, op: Op, r: State) {
    && r.mainthread == s.mainthread && r.registry == s.registry
    && r.running == (if op.Resume? then op.t else s.running)
    && r.mt == (if op.SetMetatables? then op.mt else s.mt)
    && forall x :: IsFixed(r, x) <==> IsFixed(s, x) || (op.FixString? && x == op.x)
  }

  lemma SteadySettles(s: State, op: Op, r: State)
    requires Steady(s, r) && !op.Resume? && !op.SetMetatables? && !op.FixString?
    ensures Settles(s, op, r)
  {
    hide IsFixed;
  }

  lemma AllocateIsSteady(s: State, op: Op)
    requires IsAllocation(op) && s.mainthread in s.rootgc && s.marks.Keys == s.heap.Keys && s.running in s.heap
    requires (op.NewString? ==> op.chain < |s.strt|) && (!op.InternString? ==> op.x !in s.heap)
    requires op.InternString? ==> op.x in s.marks
    ensures Steady(s, Push(Allocate(s, op), op.x))
  {
  }

  lemma MutateIsSteady(s: State, op: Op)
    requires Inv(s) && Legal(s, op) && IsStore(op)
    ensures Steady(s, Mutate(s, op))
  {
    hide RootList, StringTable, UpvalLists, Rooted, LiveClosed, SweptWhite, Propagating, Reachable, Fits, NoDangling,
      ReallyMarkObject;
    RootsReady(s);
    if op.OpenUpval? { OpenReady(s); }
    else if op.WriteField? { FieldReady(s, op.o, op.refs, op.v); }
    else if op.WriteOpenUpval? { UpvalReady(s, op.u); }
  }

  lemma ApplySettles(s: State, op: Op)
    requires Inv(s) && Legal(s, op)
    ensures Settles(s, op, Apply(s, op))
  {
    hide Structure, Rooted, Propagating, LiveClosed, SweptWhite, Mutate, SingleStep, FullGc, CloseFrom, Reachable,
      Steady, Allocate, Push;
    RootsReady(s);
    var r := Apply(s, op);
    if op.Collect? { StepIsSteady(s); SteadySettles(s, op, r); }
    else if op.CollectAll? { FullGcIsSteady(s); SteadySettles(s, op, r); }
    else if op.CloseUpvals? { CloseFromIsSteady(s, s.running, op.level); SteadySettles(s, op, r); }
    else if IsAllocation(op) { AllocateIsSteady(s, op); SteadySettles(s, op, r); }
    else if IsStore(op) { MutateIsSteady(s, op); SteadySettles(s, op, r); }
  }

  // ----- whole runs

  lemma RunSettles(run: seq<State>, ops: seq<Op>, i: nat)
    requires IsRun(run, ops) && i < |ops|
    ensures Settles(run[i], ops[i], run[i + 1])
  {
    hide Inv, Legal, Apply, Settles;
    RunKeepsInv(run, ops, i);
    assert IsStep(run[i], ops[i], run[i + 1]);
    ApplySettles(run[i], ops[i]);
  }

  /** In every run: what is fixed is fixed for good, and in the heap, whether the program can reach it or not; and only
      the main thread and the strings that luaS_fix was called for are. */
  lemma {:induction false} RunFixes(run: seq<State>, ops: seq<Op>, i: nat, x: Id)
    requires IsRun(run, ops) && i < |run|
    ensures IsFixed(run[i], x) <==> IsFixed(run[0], x) || exists j :: 0 <= j < i && ops[j] == FixString(x)
    decreases i
  {
    hide Inv, Legal, Apply, IsFixed;
    if i > 0 {
      RunSettles(run, ops, i - 1);
      RunFixes(run, ops, i - 1, x);
      assert ops[i - 1].FixString? && x == ops[i - 1].x <==> ops[i - 1] == FixString(x);
    }
  }
}
