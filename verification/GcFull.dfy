/** luaC_fullgc: it always ends, and leaves exactly the reachable and the fixed objects. */
module GcFull {
  import opened GcHeap
  import opened GcMark
  import opened GcTri
  import opened GcState
  import opened GcCycle
  import opened GcSweep
  import opened GcUpval
  import opened GcRoot
  import opened GcStep

  // ----- termination

  ghost function Rank0(s: State): nat {
    match s.phase case Pause => 0 case Finalize => 1 case Sweep => 2 case SweepString => 3 case Propagate => 4
  }

  ghost function Rank1(s: State): nat {
    match s.phase
    case Propagate => |Whites(s.marks)|
    case SweepString => if s.sweepstrgc <= |s.strt| then |s.strt| - s.sweepstrgc else 0
    case Sweep => |s.uvhead|
    case _ => 0
  }

  ghost function Rank2(s: State): nat {
    match s.phase
    case Propagate => |s.gray|
    case Sweep => if s.sweepgc <= |s.rootgc| then |s.rootgc| - s.sweepgc else 0
    case _ => 0
  }

  ghost predicate RankLess(r: State, s: State) {
    || Rank0(r) < Rank0(s)
    || (Rank0(r) == Rank0(s) && Rank1(r) < Rank1(s))
    || (Rank0(r) == Rank0(s) && Rank1(r) == Rank1(s) && Rank2(r) < Rank2(s))
  }

  /** Every step but the one that starts a collection brings the collector closer to its end. */
  lemma StepsEnd(s: State)
    requires Inv(s) && !s.phase.Pause?
    ensures RankLess(SingleStep(s), s)
  {
    hide RootList, UpvalLists, Rooted, LiveClosed, SweptWhite, Listed, Coloured, Tri, SweepsTo;
    if s.phase.Sweep? {
      var m := SweepList(s, GCSWEEPMAX);
      SweepListSweeps(s, GCSWEEPMAX, m);
    }
  }

  /** Run singlestep until the sweep is over. */
  function RunToFinalize(s: State): (r: State)
    requires Inv(s) && !s.phase.Pause? && !s.phase.Propagate?
    ensures Inv(r) && r.phase.Finalize?
    decreases Rank0(s), Rank1(s), Rank2(s)
  {
    if s.phase.Finalize? then s
    else
      SingleStepKeepsInv(s); StepsEnd(s); SweepStays(s);
      RunToFinalize(SingleStep(s))
  }

  lemma SweepStays(s: State)
    requires Inv(s) && (s.phase.SweepString? || s.phase.Sweep?)
    ensures !SingleStep(s).phase.Pause? && !SingleStep(s).phase.Propagate?
  {
    hide Inv;
  }

  /** Run singlestep until the collection is over. */
  function RunToPause(s: State): (r: State)
    requires Inv(s)
    ensures Inv(r) && r.phase.Pause?
    decreases Rank0(s), Rank1(s), Rank2(s)
  {
    if s.phase.Pause? then s
    else
      SingleStepKeepsInv(s); StepsEnd(s);
      RunToPause(SingleStep(s))
  }

  /** The reset in front of luaC_fullgc: a collection that is still marking is dropped, and all objects are swept to
      white. */
  function Restart(s: State): (r: State) {
    if s.phase.Pause? || s.phase.Propagate?
    then s.(sweepstrgc := 0, sweepgc := 0, gray := [], grayagain := [], phase := SweepString)
    else s
  }

  lemma RestartKeepsInv(s: State, r: State)
    requires Inv(s) && r == Restart(s)
    ensures Inv(r) && !r.phase.Pause? && !r.phase.Propagate?
  {
    if s.phase.Pause? || s.phase.Propagate? {
      RestartLists(s, r);
      RestartLive(s, r);
    }
  }

  lemma RestartLists(s: State, r: State)
    requires Structure(s) && Rooted(s) && (s.phase.Pause? || s.phase.Propagate?) && r == Restart(s)
    ensures Structure(r) && Rooted(r) && forall x :: x in r.heap ==> Unswept(r, x)
  {
    hide NoDup, IsChain, IsOwned, IsUpvalOf, Rooted;
    RecolouredStructure(s, r);
    RootedKept(s, r);
    AllUnswept(s, r);
  }

  lemma RestartLive(s: State, r: State)
    requires Inv(s) && (s.phase.Pause? || s.phase.Propagate?) && r == Restart(s)
    requires forall x :: x in r.heap ==> Unswept(r, x)
    ensures LiveClosed(r) && SweptWhite(r)
  {
    hide RootList, StringTable, UpvalLists, Rooted, Listed, Tri, Unswept;
    forall a, b | a in r.heap && !IsDead(r.white1, r.marks[a]) && RefersTo(r.heap, a, b) ensures Usable(r, b) {
      assert s.phase.Pause? ==> Usable(s, b);
    }
  }

  function FullGc(s: State): (r: State)
    requires Inv(s)
    ensures Inv(r) && r.phase.Pause?
  {
    RestartKeepsInv(s, Restart(s));
    var f := RunToFinalize(Restart(s));
    MarkRootKeepsInv(f);
    RunToPause(MarkRoot(f))
  }
}
