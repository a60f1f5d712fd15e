/** What the collector and luaF_close leave of the heap: contents, places, and the order of the open upvalues. */
module GcOrder {
  import opened GcHeap
  import opened GcMark
  import opened GcTri
  import opened GcState
  import opened GcCycle
  import opened GcSweep
  import opened GcUpval
  import opened GcRoot
  import opened GcStep
  import opened GcFull

  // ----- what an object holds, and where the open upvalues of a thread are

  /** What the program finds in an object. An open upvalue holds what is in its stack slot. */
  datatype Content = Content(kind: Kind, refs: seq<Id>, stack: seq<Value>)

  function ContentOf(h: Heap, x: Id): Content
    requires x in h
  {
    Content(h[x].kind, if IsOpen(h[x]) then SlotRefs(h, h[x].place) else h[x].refs, h[x].stack)
  }

  function SlotRefs(h: Heap, p: Place): seq<Id>
    requires p.Open?
  {
    if p.thread in h && p.slot < |h[p.thread].stack| then Collectable([h[p.thread].stack[p.slot]]) else []
  }

  /** The slots of the upvalues us strictly decrease. */
  ghost predicate Descending(h: Heap, us: seq<Id>) {
    forall i, j :: 0 <= i < j < |us| ==> Higher(h, us[i], us[j])
  }

  predicate Higher(h: Heap, u: Id, v: Id) {
    u in h && v in h && h[u].place.Open? && h[v].place.Open? && h[u].place.slot > h[v].place.slot
  }

  /** So it is along the list of open upvalues of every thread. */
  ghost predicate Ordered(h: Heap) { forall t :: t in h && h[t].kind.Thread? ==> Descending(h, h[t].openupval) }

  /** From h to h' objects may have gone, and open upvalues may have been closed. What is left holds the same, what is
      open is where it was, and the lists are still ordered. */
  ghost predicate Tidied(h: Heap, h': Heap) {
    && (forall x :: x in h' ==> x in h && ContentOf(h', x) == ContentOf(h, x))
    && (forall x :: x in h' && IsOpen(h'[x]) ==> IsOpen(h[x]) && h'[x].place == h[x].place)
    && (Ordered(h) ==> Ordered(h'))
  }

  lemma TidiedTrans(h: Heap, m: Heap, h': Heap)
    requires Tidied(h, m) && Tidied(m, h')
    ensures Tidied(h, h')
  {
    hide ContentOf, Ordered;
  }

  lemma TidiedSelf(h: Heap)
    ensures Tidied(h, h)
  {
  }

  // ----- sweeping

  lemma {:induction false} SweptDescends(h: Heap, mk: Marks, w1: bool, xs: seq<Id>)
    requires NoDup(xs) && (forall x :: x in xs ==> x in mk) && Descending(h, xs)
    ensures Descending(h, SweepChain(mk, w1, xs).list)
    ensures forall x :: x in SweepChain(mk, w1, xs).list ==> x in xs
    decreases |xs|
  {
    hide Higher;
    if xs != [] {
      var x := xs[0];
      assert forall y :: y in xs <==> y == x || y in xs[1..];
      SweptDescends(h, if Survives(w1, mk[x]) then mk[x := White(w1, mk[x])] else mk - {x}, w1, xs[1..]);
      var list := SweepChain(if Survives(w1, mk[x]) then mk[x := White(w1, mk[x])] else mk - {x}, w1, xs[1..]).list;
      forall v | v in list ensures Higher(h, x, v) {
        var j :| 0 <= j < |xs[1..]| && xs[1..][j] == v;
        assert Higher(h, xs[0], xs[j + 1]);
      }
    }
  }

  /** The same upvalues, in the same places, in another heap. */
  lemma StillDescends(h: Heap, h': Heap, us: seq<Id>)
    requires Descending(h, us) && forall u :: u in us ==> u in h' && u in h && h'[u].place == h[u].place
    ensures Descending(h', us)
  {
    forall i, j | 0 <= i < j < |us| ensures Higher(h', us[i], us[j]) { assert Higher(h, us[i], us[j]); }
  }

  /** Objects go, but not the thread of an open upvalue that stays; lists of open upvalues may only lose entries. */
  lemma CullTidies(s: State, r: State)
    requires UpvalLists(s) && UpvalLists(r) && SubHeap(s.heap, r.heap)
    requires Ordered(s.heap) ==>
        forall t :: t in r.heap && r.heap[t].kind.Thread? ==> Descending(s.heap, r.heap[t].openupval)
    ensures Tidied(s.heap, r.heap)
  {
    hide NoDup, Descending;
    forall x | x in r.heap ensures ContentOf(r.heap, x) == ContentOf(s.heap, x) {
      if IsOpen(r.heap[x]) { assert IsOwned(r.heap, x); }
    }
    if Ordered(s.heap) {
      forall t | t in r.heap && r.heap[t].kind.Thread? ensures Descending(r.heap, r.heap[t].openupval) {
        forall u | u in r.heap[t].openupval ensures u in r.heap && u in s.heap && r.heap[u].place == s.heap[u].place {
          assert IsUpvalOf(r.heap, t, u);
        }
        StillDescends(s.heap, r.heap, r.heap[t].openupval);
      }
    }
  }

  lemma SameListsTidy(s: State, r: State)
    requires UpvalLists(s) && UpvalLists(r) && forall x :: x in r.heap ==> x in s.heap && r.heap[x] == s.heap[x]
    ensures Tidied(s.heap, r.heap)
  {
    hide UpvalLists, Descending, ContentOf;
    if Ordered(s.heap) {
      forall t | t in r.heap && r.heap[t].kind.Thread? ensures Descending(s.heap, r.heap[t].openupval) {
        assert Descending(s.heap, s.heap[t].openupval);
      }
    }
    CullTidies(s, r);
  }

  lemma SweepUpvalsTidies(s: State, t: Id, r: State)
    requires UpvalLists(s) && UpvalLists(r) && s.marks.Keys == s.heap.Keys && t in s.heap && s.heap[t].kind.Thread?
    requires NoDup(s.heap[t].openupval)
    requires forall u :: u in s.heap[t].openupval ==> u in s.heap && u != t && IsOpen(s.heap[u])
    requires r == SweepUpvals(s, t)
    ensures Tidied(s.heap, r.heap)
  {
    hide UpvalLists, NoDup, Culled, Descending, ContentOf;
    SweepUpvalsFacts(s, t, r);
    SubHeapOfUpvals(s, t, r);
    if Ordered(s.heap) {
      forall y | y in r.heap && r.heap[y].kind.Thread? ensures Descending(s.heap, r.heap[y].openupval) {
        assert Descending(s.heap, s.heap[y].openupval);
        if y == t { SweptDescends(s.heap, s.marks, s.white1, s.heap[t].openupval); }
      }
    }
    CullTidies(s, r);
  }

  lemma FreeTidies(s: State, x: Id, r: State)
    requires UpvalLists(s) && UpvalLists(r) && s.sweepgc <= |s.rootgc| && r == FreeRoot(s, x)
    ensures Tidied(s.heap, r.heap)
  {
    hide UpvalLists, Tidied;
    SameListsTidy(s, r);
  }

  // ----- luaF_close

  lemma DescendingTail(h: Heap, us: seq<Id>)
    requires Descending(h, us) && us != []
    ensures Descending(h, us[1..]) && forall v :: v in us[1..] ==> Higher(h, us[0], v)
  {
    hide Higher;
    forall v | v in us[1..] ensures Higher(h, us[0], v) {
      var j :| 0 <= j < |us[1..]| && us[1..][j] == v;
      assert Higher(h, us[0], us[j + 1]);
    }
  }

  /** The objects after luaF_close has dealt with the first upvalue of t. */
  lemma CloseOneHeapIs(s: State, t: Id, u: Id, c: State)
    requires HasOpen(s, t) && (s.phase.Propagate? ==> NoDangling(s.heap)) && u == s.heap[t].openupval[0]
    requires c == CloseOne(s, t) && s.heap[t].kind.Thread?
    ensures c.heap ==
      var h := s.heap[t := s.heap[t].(openupval := s.heap[t].openupval[1..])];
      if IsDead(s.white1, s.marks[u]) then h - {u}
      else h[u := s.heap[u].(place := Closed, refs := SlotRefs(s.heap, s.heap[u].place))]
  {
    hide LinkColour;
    if !IsDead(s.white1, s.marks[u]) { LinkColourSame(Detach(s, t), u, c); }
  }

  lemma CloseOneTidies(s: State, t: Id, u: Id, c: State)
    requires UpvalLists(s) && t in s.heap && s.heap[t].kind.Thread? && HasOpen(s, t)
    requires s.phase.Propagate? ==> NoDangling(s.heap)
    requires u == s.heap[t].openupval[0] && u !in s.heap[t].openupval[1..] && c == CloseOne(s, t) && UpvalLists(c)
    ensures Tidied(s.heap, c.heap)
  {
    hide NoDup, CloseOne, SlotRefs, HasOpen, Descending;
    CloseOneHeapIs(s, t, u, c);
    CloseOneContents(s, t, u, c);
    if Ordered(s.heap) { CloseOneOrdered(s, t, u, c); }
  }

  lemma CloseOneContents(s: State, t: Id, u: Id, c: State)
    requires UpvalLists(s) && t in s.heap && s.heap[t].kind.Thread? && HasOpen(s, t)
    requires s.phase.Propagate? ==> NoDangling(s.heap)
    requires u == s.heap[t].openupval[0] && u !in s.heap[t].openupval[1..] && c == CloseOne(s, t) && UpvalLists(c)
    ensures forall x :: x in c.heap ==> x in s.heap && ContentOf(c.heap, x) == ContentOf(s.heap, x)
    ensures forall x :: x in c.heap && IsOpen(c.heap[x]) ==> IsOpen(s.heap[x]) && c.heap[x].place == s.heap[x].place
  {
    hide NoDup, CloseOne;
    CloseOneHeapIs(s, t, u, c);
    assert IsUpvalOf(s.heap, t, u);
    forall x | x in c.heap ensures x in s.heap && ContentOf(c.heap, x) == ContentOf(s.heap, x) {
      if IsOpen(c.heap[x]) { assert IsOwned(c.heap, x); }
    }
  }

  lemma CloseOneOrdered(s: State, t: Id, u: Id, c: State)
    requires UpvalLists(s) && t in s.heap && s.heap[t].kind.Thread? && HasOpen(s, t) && Ordered(s.heap)
    requires s.phase.Propagate? ==> NoDangling(s.heap)
    requires u == s.heap[t].openupval[0] && u !in s.heap[t].openupval[1..] && c == CloseOne(s, t) && UpvalLists(c)
    ensures Ordered(c.heap)
  {
    hide NoDup, CloseOne, Descending, SlotRefs;
    CloseOneHeapIs(s, t, u, c);
    assert IsUpvalOf(s.heap, t, u);
    forall y | y in c.heap && c.heap[y].kind.Thread? ensures Descending(c.heap, c.heap[y].openupval) {
      var us := c.heap[y].openupval;
      assert Descending(s.heap, s.heap[y].openupval);
      if y == t { DescendingTail(s.heap, s.heap[t].openupval); }
      forall v | v in us ensures v in c.heap && v in s.heap && c.heap[v].place == s.heap[v].place {
        assert IsUpvalOf(c.heap, y, v);
      }
      StillDescends(s.heap, c.heap, us);
    }
  }

  /** What luaF_close(t, level) leaves alone: everything but the upvalues of t at or above level, and the list of t. */
  ghost predicate Untouched(h: Heap, h': Heap, t: Id, level: nat)
    requires t in h
  {
    && t in h' && h'[t] == h[t].(openupval := h'[t].openupval)
    && forall x :: x in h && x != t && !ToClose(h, t, level, x) ==> x in h' && h'[x] == h[x]
  }

  predicate ToClose(h: Heap, t: Id, level: nat, u: Id)
    requires u in h
  {
    IsOpen(h[u]) && h[u].place.thread == t && h[u].place.slot >= level
  }

  ghost predicate NoneOpen(h: Heap, t: Id, level: nat) { forall u :: u in h ==> !ToClose(h, t, level, u) }

  lemma UntouchedTrans(h: Heap, m: Heap, h': Heap, t: Id, level: nat)
    requires t in h && t in m && Untouched(h, m, t, level) && Untouched(m, h', t, level)
    requires forall u :: u in m && u in h && ToClose(m, t, level, u) ==> ToClose(h, t, level, u)
    ensures Untouched(h, h', t, level)
  {
    hide ToClose;
  }

  lemma CloseOneUntouched(s: State, t: Id, u: Id, c: State, level: nat)
    requires UpvalLists(s) && t in s.heap && s.heap[t].kind.Thread? && HasOpen(s, t)
    requires s.phase.Propagate? ==> NoDangling(s.heap)
    requires u == s.heap[t].openupval[0] && c == CloseOne(s, t) && s.heap[u].place.slot >= level
    ensures Untouched(s.heap, c.heap, t, level)
    ensures forall v :: v in c.heap && v in s.heap && ToClose(c.heap, t, level, v) ==> ToClose(s.heap, t, level, v)
  {
    hide NoDup, CloseOne, SlotRefs;
    CloseOneHeapIs(s, t, u, c);
    assert IsUpvalOf(s.heap, t, u);
  }

  /** Where luaF_close stops, nothing at or above the level is open: the list is ordered. */
  lemma NothingAbove(s: State, t: Id, level: nat)
    requires UpvalLists(s) && t in s.heap && s.heap[t].kind.Thread? && Ordered(s.heap)
    requires s.heap[t].openupval != [] ==>
        s.heap[t].openupval[0] in s.heap && s.heap[s.heap[t].openupval[0]].place.Open? &&
        s.heap[s.heap[t].openupval[0]].place.slot < level
    ensures NoneOpen(s.heap, t, level)
  {
    hide NoDup;
    var us := s.heap[t].openupval;
    assert Descending(s.heap, us);
    forall u | u in s.heap ensures !ToClose(s.heap, t, level, u) {
      if IsOpen(s.heap[u]) && s.heap[u].place.thread == t {
        assert IsOwned(s.heap, u);
        var i :| 0 <= i < |us| && us[i] == u;
        assert i > 0 ==> Higher(s.heap, us[0], us[i]);
      }
    }
  }

  /** luaF_close(t, level), for any state of the collector: no upvalue of t at or above level is open any more; all
      others stay open where they were; and every upvalue that is left holds what it held. */
  lemma {:induction false} CloseFromIs(s: State, t: Id, level: nat)
    requires Inv(s) && t in s.heap && s.heap[t].kind.Thread?
    ensures Tidied(s.heap, CloseFrom(s, t, level).heap) && Untouched(s.heap, CloseFrom(s, t, level).heap, t, level)
    ensures Ordered(s.heap) ==> NoneOpen(CloseFrom(s, t, level).heap, t, level)
    decreases |s.heap[t].openupval|
  {
    hide RootList, StringTable, UpvalLists, Rooted, LiveClosed, SweptWhite, Propagating, CloseOne, Tidied, Untouched,
      NoneOpen, Ordered, ToClose;
    TidiedSelf(s.heap);
    UntouchedSelf(s.heap, t, level);
    if s.heap[t].openupval == [] {
      if Ordered(s.heap) { NothingAbove(s, t, level); }
    } else {
      CloseReady(s, t);
      var u := s.heap[t].openupval[0];
      if s.heap[u].place.slot < level {
        if Ordered(s.heap) { NothingAbove(s, t, level); }
      } else {
        var c := CloseOne(s, t);
        CloseOneKeepsInv(s, t, u, c);
        CloseOneShorter(s, t, c);
        CloseOneTidies(s, t, u, c);
        CloseOneUntouched(s, t, u, c, level);
        CloseFromIs(c, t, level);
        TidiedOrdered(s.heap, c.heap);
        TidiedTrans(s.heap, c.heap, CloseFrom(c, t, level).heap);
        UntouchedTrans(s.heap, c.heap, CloseFrom(c, t, level).heap, t, level);
      }
    }
  }

  lemma UntouchedSelf(h: Heap, t: Id, level: nat)
    requires t in h
    ensures Untouched(h, h, t, level)
  {
  }

  lemma TidiedOrdered(h: Heap, h': Heap)
    requires Tidied(h, h')
    ensures Ordered(h) ==> Ordered(h')
  {
  }

  // ----- sweeplist and singlestep

  lemma SweepThreadTidies(s: State, x: Id, r: State)
    requires Inv(s) && s.phase.Sweep? && s.sweepgc < |s.rootgc| && x == s.rootgc[s.sweepgc]
    requires x in s.heap && x in s.marks && s.heap[x].kind.Thread? && r == SweepThread(s, x)
    ensures Tidied(s.heap, r.heap)
  {
    hide RootList, StringTable, LiveClosed, SweptWhite, Rooted, UpvalLists, SweepUpvals, FreeRoot, CloseFrom, Tidied,
      Untouched, NoneOpen, Ordered;
    UpvalsOf(s, x);
    var s1 := SweepUpvals(s, x);
    SweepUpvalsKeepsInv(s, x, s1);
    SweepUpvalsTidies(s, x, s1);
    if !Survives(s.white1, s.marks[x]) {
      var s2 := CloseFrom(s1, x, 0);
      CloseFromIs(s1, x, 0);
      SweepBound(s2);
      FreeTidies(s2, x, r);
      TidiedTrans(s1.heap, s2.heap, r.heap);
      TidiedTrans(s.heap, s1.heap, r.heap);
    }
  }

  lemma SweepRootTidies(s: State, r: State)
    requires Inv(s) && s.phase.Sweep? && s.sweepgc < |s.rootgc| && r == SweepRoot(s)
    ensures Tidied(s.heap, r.heap)
  {
    hide RootList, StringTable, UpvalLists, Rooted, LiveClosed, SweptWhite, SweepThread, FreeRoot, Tidied;
    var x := s.rootgc[s.sweepgc];
    Visited(s);
    if s.heap[x].kind.Thread? { SweepThreadTidies(s, x, r); }
    else if Survives(s.white1, s.marks[x]) { TidiedSelf(s.heap); }
    else { FreeTidies(s, x, r); }
  }

  lemma {:induction false} SweepListTidies(s: State, n: nat)
    requires Inv(s) && s.phase.Sweep?
    ensures Tidied(s.heap, SweepList(s, n).heap)
    decreases n
  {
    hide Inv, SweepRoot, Tidied;
    TidiedSelf(s.heap);
    if n > 0 && s.sweepgc < |s.rootgc| {
      SweepRootTidies(s, SweepRoot(s));
      SweepListTidies(SweepRoot(s), n - 1);
      TidiedTrans(s.heap, SweepRoot(s).heap, SweepList(s, n).heap);
    }
  }

  lemma SweepStringsTidies(s: State, r: State)
    requires Inv(s) && s.phase.SweepString? && r == SweepStrings(s)
    ensures Tidied(s.heap, r.heap)
  {
    hide RootList, UpvalLists, Rooted, LiveClosed, SweptWhite, Tidied, NoDup, SubHeap, Culled;
    assert IsChain(s.heap, s.sweepstrgc, s.strt[s.sweepstrgc]);
    SweepStringsFacts(s, r);
    SweepStringsStructure(s);
    SameListsTidy(s, r);
  }

  /** A step of the collector: whatever is left holds the same, and open upvalues that are still open are where they
      were and in the same order. */
  lemma StepTidies(s: State)
    requires Inv(s)
    ensures Tidied(s.heap, SingleStep(s).heap)
  {
    hide Structure, Rooted, Propagating, LiveClosed, SweptWhite, Tidied, PropagateMark, Atomic, MarkRoot, SweepStrings,
      SweepList;
    TidiedSelf(s.heap);
    match s.phase
    case Pause => MarkRootHeap(s);
    case Propagate => if s.gray == [] { AtomicHeap(s); }
    case SweepString => SweepStringsTidies(s, SingleStep(s));
    case Sweep => SweepListTidies(s, GCSWEEPMAX);
    case Finalize =>
  }

  lemma MarkRootHeap(s: State)
    requires Inv(s) && (s.phase.Pause? || s.phase.Finalize?)
    ensures MarkRoot(s).heap == s.heap
  {
    hide Structure, Rooted, LiveClosed, SweptWhite;
  }

  lemma AtomicHeap(s: State)
    requires Inv(s) && s.phase.Propagate?
    ensures Atomic(s).heap == s.heap
  {
    hide Structure, Rooted, Propagating;
  }

  lemma {:induction false} ToFinalizeTidies(s: State)
    requires Inv(s) && !s.phase.Pause? && !s.phase.Propagate?
    ensures Tidied(s.heap, RunToFinalize(s).heap)
    decreases Rank0(s), Rank1(s), Rank2(s)
  {
    hide Inv, SingleStep, Tidied;
    TidiedSelf(s.heap);
    if !s.phase.Finalize? {
      SingleStepKeepsInv(s);
      StepsEnd(s);
      SweepStays(s);
      StepTidies(s);
      ToFinalizeTidies(SingleStep(s));
      TidiedTrans(s.heap, SingleStep(s).heap, RunToFinalize(s).heap);
    }
  }

  lemma {:induction false} ToPauseTidies(s: State)
    requires Inv(s)
    ensures Tidied(s.heap, RunToPause(s).heap)
    decreases Rank0(s), Rank1(s), Rank2(s)
  {
    hide Inv, SingleStep, Tidied;
    TidiedSelf(s.heap);
    if !s.phase.Pause? {
      SingleStepKeepsInv(s);
      StepsEnd(s);
      StepTidies(s);
      ToPauseTidies(SingleStep(s));
      TidiedTrans(s.heap, SingleStep(s).heap, RunToPause(s).heap);
    }
  }

  /** So does a full collection. */
  lemma FullGcTidies(s: State)
    requires Inv(s)
    ensures Tidied(s.heap, FullGc(s).heap)
  {
    hide Inv, Tidied, RunToFinalize, RunToPause, MarkRoot;
    var s1 := Restart(s);
    RestartKeepsInv(s, s1);
    ToFinalizeTidies(s1);
    var f := RunToFinalize(s1);
    MarkRootKeepsInv(f);
    MarkRootHeap(f);
    ToPauseTidies(MarkRoot(f));
    TidiedTrans(s.heap, f.heap, FullGc(s).heap);
  }
}
