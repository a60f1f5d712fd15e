/** luaF_close and luaC_linkupval: closing the open upvalues of a thread in any state of the collector. */
module GcUpval {
  import opened GcHeap
  import opened GcMark
  import opened GcTri
  import opened GcState
  import opened GcSweep

  /** The sweep pointer after a new first element of rootgc: `&rootgc` stays, any other link moves along. */
  function Shifted(sweepgc: nat): nat { if sweepgc == 0 then 0 else sweepgc + 1 }

  predicate HasOpen(s: State, t: Id) {
    && s.marks.Keys == s.heap.Keys && t in s.heap && s.heap[t].openupval != []
    && IsUpvalOf(s.heap, t, s.heap[t].openupval[0]) && s.heap[t].openupval[0] != t
  }

  /** Take the first open upvalue off its thread: a dead one is freed, a live one gets its value and joins rootgc. */
  function Detach(s: State, t: Id): (r: State)
    requires HasOpen(s, t)
  {
    var u := s.heap[t].openupval[0];
    var h := s.heap[t := s.heap[t].(openupval := s.heap[t].openupval[1..])];
    if IsDead(s.white1, s.marks[u]) then
      s.(heap := h - {u}, marks := s.marks - {u}, uvhead := Remove(s.uvhead, u))
    else
      s.(heap := h[u := h[u].(place := Closed, refs := Collectable([s.heap[t].stack[s.heap[u].place.slot]]))],
         uvhead := Remove(s.uvhead, u), rootgc := [u] + s.rootgc, sweepgc := Shifted(s.sweepgc))
  }

  /** The colour change of luaC_linkupval: a gray upvalue turns black behind a barrier, or white outside propagate. */
  function LinkColour(s: State, u: Id): (r: State)
    requires s.marks.Keys == s.heap.Keys && u in s.heap && (s.phase.Propagate? ==> NoDangling(s.heap))
  {
    if !IsGray(s.marks[u]) then s
    else if s.phase.Propagate? then
      var m := MarkAll(s.heap, Marking(s.marks[u := GrayToBlack(s.marks[u])], s.gray, s.grayagain), RefSeq(s.heap, u));
      s.(marks := m.mk, gray := m.gray)
    else s.(marks := s.marks[u := White(s.white1, s.marks[u])])
  }

  lemma LinkedSuffix(xs: seq<Id>, k: nat, u: Id)
    requires k <= |xs|
    ensures Shifted(k) <= |[u] + xs| && forall y :: y in xs[k..] ==> y in ([u] + xs)[Shifted(k)..]
  {
    if k > 0 { assert ([u] + xs)[k + 1..] == xs[k..]; } else { assert ([u] + xs)[0..] == [u] + xs && xs[0..] == xs; }
  }

  // ----- the lists

  lemma DetachFacts(s: State, t: Id, u: Id, r: State)
    requires HasOpen(s, t) && u == s.heap[t].openupval[0] && r == Detach(s, t) && u !in s.heap[t].openupval[1..]
    ensures r.marks.Keys == r.heap.Keys && t in r.heap && r.strt == s.strt && r.sweepstrgc == s.sweepstrgc
    ensures r.phase == s.phase
    ensures r.heap[t] == s.heap[t].(openupval := s.heap[t].openupval[1..])
    ensures forall x :: x in s.heap && x != t && x != u ==> x in r.heap && r.heap[x] == s.heap[x]
    ensures forall x :: x in r.heap ==> x in s.heap && r.marks[x] == s.marks[x]
    ensures forall x :: x in s.heap && x != u ==> x in r.heap
    ensures forall x :: x in r.uvhead <==> x in s.uvhead && x != u
    ensures if IsDead(s.white1, s.marks[u])
            then u !in r.heap && r.rootgc == s.rootgc && r.sweepgc == s.sweepgc
            else
              && u in r.heap && r.heap[u].kind.UpVal? && r.heap[u].place.Closed?
              && r.rootgc == [u] + s.rootgc && r.sweepgc == Shifted(s.sweepgc)
  {
  }

  /** Objects other than u are on the same kind of list in both states. */
  ghost predicate SameKinds(s: State, r: State, u: Id) {
    && (forall x ::
          x in r.heap && x != u ==>
            x in s.heap && r.heap[x].kind == s.heap[x].kind && r.heap[x].place == s.heap[x].place)
    && (forall x :: x in s.heap && x != u ==> x in r.heap)
  }

  /** Linking u in front of rootgc. */
  lemma RootListLinked(s: State, r: State, u: Id)
    requires RootList(s) && u !in s.rootgc && SameKinds(s, r, u)
    requires r.rootgc == [u] + s.rootgc && r.sweepgc == Shifted(s.sweepgc) && r.phase == s.phase
    requires u in r.heap && !r.heap[u].kind.String? && !IsOpen(r.heap[u])
    ensures RootList(r)
  {
    hide NoDup;
    NoDupCons(u, s.rootgc);
    assert forall x :: x in r.rootgc <==> x == u || x in s.rootgc;
  }

  lemma RootListSame(s: State, r: State, u: Id)
    requires RootList(s) && u !in s.rootgc && SameKinds(s, r, u) && u !in r.heap
    requires r.rootgc == s.rootgc && r.sweepgc == s.sweepgc && r.phase == s.phase
    ensures RootList(r)
  {
    hide NoDup;
  }

  lemma DetachRoot(s: State, t: Id, r: State)
    requires HasOpen(s, t) && r == Detach(s, t) && s.heap[t].openupval[0] !in s.heap[t].openupval[1..]
    requires RootList(s) && s.heap[t].openupval[0] !in s.rootgc
    ensures RootList(r)
  {
    hide Detach, NoDup, RootList;
    var u := s.heap[t].openupval[0];
    DetachFacts(s, t, u, r);
    if IsDead(s.white1, s.marks[u]) {
      RootListSame(s, r, u);
    } else {
      RootListLinked(s, r, u);
    }
  }

  lemma DetachStrings(s: State, t: Id, r: State)
    requires HasOpen(s, t) && r == Detach(s, t) && s.heap[t].openupval[0] !in s.heap[t].openupval[1..]
    requires s.heap[t].kind.Thread? && StringTable(s)
    ensures StringTable(r)
  {
    hide Detach, NoDup;
    DetachFacts(s, t, s.heap[t].openupval[0], r);
    forall b | 0 <= b < |r.strt| ensures IsChain(r.heap, b, r.strt[b]) {
      assert IsChain(s.heap, b, s.strt[b]);
    }
  }

  lemma DetachUpvals(s: State, t: Id, r: State)
    requires HasOpen(s, t) && r == Detach(s, t) && s.heap[t].openupval[0] !in s.heap[t].openupval[1..]
    requires s.heap[t].kind.Thread? && UpvalLists(s)
    ensures UpvalLists(r)
  {
    hide Detach, IsUpvalOf, IsOwned, NoDup;
    var u := s.heap[t].openupval[0];
    DetachFacts(s, t, u, r);
    NoDupTail(s.heap[t].openupval);
    DetachOwned(s, t, r);
    forall t', v | t' in r.heap && r.heap[t'].kind.Thread? && v in r.heap[t'].openupval
      ensures IsUpvalOf(r.heap, t', v)
    {
      DetachUpval(s, t, r, t', v);
    }
  }

  lemma DetachUpval(s: State, t: Id, r: State, t': Id, v: Id)
    requires HasOpen(s, t) && r == Detach(s, t) && s.heap[t].openupval[0] !in s.heap[t].openupval[1..]
    requires s.heap[t].kind.Thread? && UpvalLists(s) && t' in r.heap && r.heap[t'].kind.Thread?
    requires v in r.heap[t'].openupval
    ensures IsUpvalOf(r.heap, t', v)
  {
    hide Detach, NoDup, IsOwned;
    var u := s.heap[t].openupval[0];
    DetachFacts(s, t, u, r);
    assert u in s.heap[t].openupval && IsUpvalOf(s.heap, t, u);
    assert IsUpvalOf(s.heap, t', v);
  }

  lemma DetachOwned(s: State, t: Id, r: State)
    requires HasOpen(s, t) && r == Detach(s, t) && s.heap[t].openupval[0] !in s.heap[t].openupval[1..]
    requires s.heap[t].kind.Thread? && UpvalLists(s)
    ensures forall v :: v in r.uvhead ==> v in r.heap && IsOpen(r.heap[v])
    ensures forall v :: v in r.heap && IsOpen(r.heap[v]) ==> v in r.uvhead && IsOwned(r.heap, v)
  {
    hide Detach, NoDup;
    var u := s.heap[t].openupval[0];
    DetachFacts(s, t, u, r);
    assert IsUpvalOf(s.heap, t, u);
    forall v | v in r.heap && IsOpen(r.heap[v]) ensures v in r.uvhead && IsOwned(r.heap, v) {
      assert v != u && IsOwned(s.heap, v);
    }
  }

  // ----- closing one upvalue keeps the invariant

  function CloseOne(s: State, t: Id): (r: State)
    requires HasOpen(s, t) && (s.phase.Propagate? ==> NoDangling(s.heap))
  {
    var u := s.heap[t].openupval[0];
    if IsDead(s.white1, s.marks[u]) then Detach(s, t)
    else
      DetachRefs(s, t);
      LinkColour(Detach(s, t), u)
  }

  /** A live upvalue refers to the same value before and after it is closed. */
  lemma DetachRefs(s: State, t: Id)
    requires HasOpen(s, t) && !IsDead(s.white1, s.marks[s.heap[t].openupval[0]])
    ensures forall x, y :: x in s.heap ==> RefersTo(Detach(s, t).heap, x, y) == RefersTo(s.heap, x, y)
    ensures NoDangling(s.heap) ==> NoDangling(Detach(s, t).heap)
  {
    var u := s.heap[t].openupval[0];
    var r := Detach(s, t);
    forall x, y | x in s.heap ensures RefersTo(r.heap, x, y) == RefersTo(s.heap, x, y) {
      if x != u && IsOpen(s.heap[x]) {
        var t' := s.heap[x].place.thread;
        assert t' in s.heap && t' != u ==> r.heap[t'].stack == s.heap[t'].stack;
      }
    }
  }

  lemma CloseOneStructure(s: State, t: Id, r: State)
    requires Structure(s) && t in s.heap && s.heap[t].kind.Thread? && HasOpen(s, t)
    requires s.phase.Propagate? ==> NoDangling(s.heap)
    requires r == CloseOne(s, t)
    ensures Structure(r)
  {
    hide RootList, UpvalLists, StringTable, NoDup;
    var u, d := s.heap[t].openupval[0], Detach(s, t);
    FirstOnce(s, t);
    DetachRoot(s, t, d); DetachStrings(s, t, d); DetachUpvals(s, t, d);
    DetachFacts(s, t, u, d);
    SameLists(d, r);
  }

  lemma FirstOnce(s: State, t: Id)
    requires UpvalLists(s) && t in s.heap && s.heap[t].kind.Thread? && s.heap[t].openupval != []
    requires RootList(s)
    ensures s.heap[t].openupval[0] !in s.heap[t].openupval[1..]
    ensures s.heap[t].openupval[0] !in s.rootgc
  {
    assert IsUpvalOf(s.heap, t, s.heap[t].openupval[0]);
  }

  lemma SameLists(s: State, r: State)
    requires Structure(s) && r == s.(marks := r.marks, gray := r.gray) && r.marks.Keys == s.marks.Keys
    ensures Structure(r)
  {
    hide NoDup, IsChain;
  }

  /** Two heaps with the same objects, kinds and references, except that u is no longer open in h'. */
  ghost predicate ClosedIn(h: Heap, h': Heap, u: Id) {
    && h'.Keys == h.Keys && u in h && h'[u].kind.UpVal? && h[u].kind.UpVal? && !IsOpen(h'[u])
    && (forall x :: x in h ==> h'[x].kind == h[x].kind && (x != u ==> IsOpen(h'[x]) == IsOpen(h[x])))
    && (forall x, y :: x in h ==> RefersTo(h', x, y) == RefersTo(h, x, y))
  }

  lemma ClosedKeepsTri(h: Heap, h': Heap, m: Marking, w1: bool, u: Id)
    requires MarkInv(h, m, w1, OpenUpvals(h)) && ClosedIn(h, h', u)
    ensures MarkInv(h', m, w1, OpenUpvals(h') + {u})
  {
    assert forall x :: x in OpenUpvals(h) ==> x in OpenUpvals(h') + {u};
  }

  lemma BlackenExempt(h: Heap, m: Marking, w1: bool, exempt: set<Id>, u: Id)
    requires MarkInv(h, m, w1, exempt + {u}) && u in h && IsGray(m.mk[u]) && h[u].kind.UpVal? && !IsOpen(h[u])
    ensures MarkInv(h, m.(mk := m.mk[u := GrayToBlack(m.mk[u])]), w1, exempt + {u})
  {
  }

  /** The barrier of luaC_linkupval: blacken the closed upvalue u and mark its value. */
  lemma MarkClosed(h: Heap, m: Marking, w1: bool, exempt: set<Id>, u: Id, m': Marking)
    requires MarkInv(h, m, w1, exempt + {u}) && u in h && IsGray(m.mk[u]) && h[u].kind.UpVal? && !IsOpen(h[u])
    requires m' == MarkAll(h, m.(mk := m.mk[u := GrayToBlack(m.mk[u])]), RefSeq(h, u))
    ensures MarkInv(h, m', w1, exempt) && Kept(m.mk, m'.mk) && m'.grayagain == m.grayagain
  {
    hide Listed, Coloured, Tri, MarkAll;
    BlackenExempt(h, m, w1, exempt, u);
    MarkAllKeepsTri(h, m.(mk := m.mk[u := GrayToBlack(m.mk[u])]), w1, exempt + {u}, RefSeq(h, u));
    Discharge(h, m', w1, exempt, u);
  }

  lemma LinkColourTri(s: State, u: Id, r: State)
    requires s.phase.Propagate? && MarkInv(s.heap, MarkingOf(s), s.white1, OpenUpvals(s.heap) + {u})
    requires u in s.heap && s.heap[u].kind.UpVal? && !IsOpen(s.heap[u]) && !IsBlack(s.marks[u])
    requires r == LinkColour(s, u)
    ensures MarkInv(s.heap, MarkingOf(r), s.white1, OpenUpvals(s.heap)) && Kept(s.marks, r.marks)
  {
    hide Listed, Coloured, Tri, NoDangling, RefSeq, MarkAll, OpenUpvals;
    var open := OpenUpvals(s.heap);
    if IsGray(s.marks[u]) {
      MarkClosed(s.heap, MarkingOf(s), s.white1, open, u, MarkingOf(r));
    } else {
      Dismiss(s.heap, MarkingOf(s), s.white1, open, u);
    }
  }

  lemma CloseOneTri(s: State, t: Id, u: Id, d: State, r: State)
    requires s.phase.Propagate? && Propagating(s) && HasOpen(s, t) && u == s.heap[t].openupval[0]
    requires !IsDead(s.white1, s.marks[u]) && !IsBlack(s.marks[u])
    requires d == Detach(s, t) && r == CloseOne(s, t) && ClosedIn(s.heap, d.heap, u)
    ensures Propagating(r) && Kept(s.marks, r.marks)
  {
    hide Listed, Coloured, Tri, NoDangling, LinkColour, Collectable, OpenUpvals, ClosedIn;
    ClosedKeepsTri(s.heap, d.heap, MarkingOf(s), s.white1, u);
    LinkColourTri(d, u, r);
    LinkColourSame(d, u, r);
  }

  lemma LinkColourSame(s: State, u: Id, r: State)
    requires s.marks.Keys == s.heap.Keys && u in s.heap && (s.phase.Propagate? ==> NoDangling(s.heap))
    requires r == LinkColour(s, u)
    ensures r == s.(marks := r.marks, gray := r.gray) && r.marks.Keys == s.marks.Keys
  {
  }

  // ----- outside propagate

  lemma CloseOneMarks(s: State, t: Id, u: Id, d: State, r: State)
    requires !s.phase.Propagate? && HasOpen(s, t) && u == s.heap[t].openupval[0] && u !in s.heap[t].openupval[1..]
    requires d == Detach(s, t) && r == CloseOne(s, t)
    ensures SameRoots(s, r) && r.heap == d.heap && r.marks.Keys == r.heap.Keys && r.phase == s.phase
    ensures r.rootgc == d.rootgc && r.sweepgc == d.sweepgc && r.sweepstrgc == s.sweepstrgc
    ensures forall x ::
        x in r.heap ==> x in s.heap && r.heap[x].kind == s.heap[x].kind && r.marks[x].fixed == s.marks[x].fixed
    ensures forall x :: x in s.heap && x != u ==> x in r.heap && r.marks[x] == s.marks[x]
    ensures u in r.heap <==> !IsDead(s.white1, s.marks[u])
    ensures u in r.heap ==> (r.marks[u] == s.marks[u] && !IsGray(s.marks[u])) || IsCurrentWhite(s.white1, r.marks[u])
  {
    hide LinkColour, Detach, Collectable;
    DetachFacts(s, t, u, d);
    DetachSame(s, t, d);
    if !IsDead(s.white1, s.marks[u]) {
      LinkColourSame(d, u, r);
      LinkColourMarks(d, u, r);
    }
  }

  lemma CloseOneRooted(s: State, t: Id, u: Id, d: State, r: State)
    requires Rooted(s) && !s.phase.Propagate? && HasOpen(s, t) && u == s.heap[t].openupval[0]
    requires u !in s.heap[t].openupval[1..]
    requires d == Detach(s, t) && r == CloseOne(s, t)
    ensures Rooted(r)
  {
    hide Rooted, CloseOne, Detach;
    CloseOneMarks(s, t, u, d, r);
    RootedKept(s, r);
  }

  lemma CloseOneLive(s: State, t: Id, u: Id, d: State, r: State)
    requires LiveClosed(s) && !s.phase.Propagate? && HasOpen(s, t) && u == s.heap[t].openupval[0]
    requires u !in s.heap[t].openupval[1..]
    requires s.heap[t].kind.Thread?
    requires d == Detach(s, t) && r == CloseOne(s, t)
    ensures LiveClosed(r)
  {
    hide CloseOne, Collectable;
    CloseOneMarks(s, t, u, d, r);
    forall x, y | x in r.heap && !IsDead(r.white1, r.marks[x]) && RefersTo(r.heap, x, y) ensures Usable(r, y) {
      if IsDead(s.white1, s.marks[u]) {
        assert RefersTo(s.heap, x, y);
      } else {
        DetachRefs(s, t);
        assert RefersTo(s.heap, x, y);
      }
      assert Usable(s, y);
    }
  }

  lemma CloseOneWhite(s: State, t: Id, u: Id, d: State, r: State)
    requires SweptWhite(s) && !s.phase.Propagate? && HasOpen(s, t) && u == s.heap[t].openupval[0]
    requires u !in s.heap[t].openupval[1..]
    requires d == Detach(s, t) && r == CloseOne(s, t) && s.sweepgc <= |s.rootgc|
    ensures SweptWhite(r)
  {
    hide CloseOne, Collectable, Detach, Unswept;
    CloseOneMarks(s, t, u, d, r);
    DetachFacts(s, t, u, d);
    LinkedSuffix(s.rootgc, s.sweepgc, u);
    forall x | x in r.heap
      ensures MarkOk(r.heap[x], r.marks[x])
      ensures IsCurrentWhite(r.white1, r.marks[x]) || Unswept(r, x)
    {
      assert MarkOk(s.heap[x], s.marks[x]);
      if x != u && Unswept(s, x) { UnsweptKept(s, r, x); }
    }
  }

  lemma DetachSame(s: State, t: Id, d: State)
    requires HasOpen(s, t) && d == Detach(s, t)
    ensures SameRoots(s, d) && d.gray == s.gray && d.grayagain == s.grayagain
  {
  }

  lemma LinkColourMarks(s: State, u: Id, r: State)
    requires s.marks.Keys == s.heap.Keys && u in s.heap && (s.phase.Propagate? ==> NoDangling(s.heap))
    requires r == LinkColour(s, u) && !s.phase.Propagate?
    ensures forall x :: x in s.marks && x != u ==> r.marks[x] == s.marks[x]
    ensures r.marks[u].fixed == s.marks[u].fixed && (r.marks[u] == s.marks[u] || IsCurrentWhite(s.white1, r.marks[u]))
    ensures IsGray(s.marks[u]) ==> IsCurrentWhite(s.white1, r.marks[u])
  {
  }

  // ----- luaF_close

  lemma CloseReady(s: State, t: Id)
    requires Inv(s) && t in s.heap && s.heap[t].kind.Thread? && s.heap[t].openupval != []
    ensures HasOpen(s, t) && (s.phase.Propagate? ==> NoDangling(s.heap))
    ensures s.heap[t].openupval[0] !in s.heap[t].openupval[1..]
  {
    hide StringTable, LiveClosed, SweptWhite, Listed, Coloured, Tri;
    assert IsUpvalOf(s.heap, t, s.heap[t].openupval[0]);
  }

  lemma OpenIsGray(s: State, u: Id)
    requires Propagating(s) && u in s.heap && IsOpen(s.heap[u])
    ensures !IsDead(s.white1, s.marks[u]) && !IsBlack(s.marks[u]) && NoDangling(s.heap) && s.marks.Keys == s.heap.Keys
  {
    hide Listed, Tri, NoDangling;
  }

  lemma CloseOnePropagating(s: State, t: Id, u: Id, d: State, r: State)
    requires s.phase.Propagate? && Propagating(s) && Rooted(s) && HasOpen(s, t) && u == s.heap[t].openupval[0]
    requires u !in s.heap[t].openupval[1..]
    requires d == Detach(s, t) && r == CloseOne(s, t)
    ensures Propagating(r) && Rooted(r)
  {
    hide Rooted, MarkInv, LinkColour, Detach, Collectable, NoDangling, RefersTo;
    OpenIsGray(s, u);
    DetachFacts(s, t, u, d);
    DetachSame(s, t, d);
    DetachRefs(s, t);
    CloseOneTri(s, t, u, d, r);
    LinkColourSame(d, u, r);
    NothingDead(r);
    RootedKept(s, r);
  }

  lemma CloseOneKeepsInv(s: State, t: Id, u: Id, r: State)
    requires Inv(s) && t in s.heap && s.heap[t].kind.Thread? && HasOpen(s, t)
    requires s.phase.Propagate? ==> NoDangling(s.heap)
    requires u == s.heap[t].openupval[0] && u !in s.heap[t].openupval[1..]
    requires r == CloseOne(s, t)
    ensures Inv(r)
  {
    hide RootList, StringTable, UpvalLists, Rooted, LiveClosed, SweptWhite, Propagating, CloseOne;
    var d := Detach(s, t);
    CloseOneStructure(s, t, r);
    if s.phase.Propagate? {
      CloseOnePropagating(s, t, u, d, r);
      PhaseKept(s, t, r);
    } else {
      assert s.sweepgc <= |s.rootgc| by { SweepBound(s); }
      CloseOneMarks(s, t, u, d, r);
      CloseOneRooted(s, t, u, d, r);
      CloseOneLive(s, t, u, d, r);
      CloseOneWhite(s, t, u, d, r);
    }
  }

  lemma SweepBound(s: State)
    requires Structure(s)
    ensures s.sweepgc <= |s.rootgc|
  {
  }

  lemma PhaseKept(s: State, t: Id, r: State)
    requires HasOpen(s, t) && (s.phase.Propagate? ==> NoDangling(s.heap)) && r == CloseOne(s, t)
    ensures r.phase == s.phase
  {
  }

  /** luaF_close(t, level): close the upvalues at the front of the list that are at or above level. */
  function CloseFrom(s: State, t: Id, level: nat): (r: State)
    requires Inv(s) && t in s.heap && s.heap[t].kind.Thread?
    ensures Inv(r)
    decreases |s.heap[t].openupval|
  {
    if s.heap[t].openupval == [] then s
    else
      CloseReady(s, t);
      var u := s.heap[t].openupval[0];
      if s.heap[u].place.slot < level then s
      else
        var c := CloseOne(s, t);
        CloseOneKeepsInv(s, t, u, c);
        CloseOneShorter(s, t, c);
        CloseFrom(c, t, level)
  }

  lemma CloseOneShorter(s: State, t: Id, r: State)
    requires HasOpen(s, t) && (s.phase.Propagate? ==> NoDangling(s.heap)) && r == CloseOne(s, t)
    requires s.heap[t].kind.Thread?
    ensures t in r.heap && r.heap[t] == s.heap[t].(openupval := s.heap[t].openupval[1..])
    ensures r.phase == s.phase && |r.uvhead| <= |s.uvhead|
    ensures s.heap[t].openupval[0] in s.uvhead ==> |r.uvhead| < |s.uvhead|
  {
    RemoveShorter(s.uvhead, s.heap[t].openupval[0]);
  }

  lemma RemoveShorter(xs: seq<Id>, x: Id)
    ensures |Remove(xs, x)| <= |xs| && (x in xs ==> |Remove(xs, x)| < |xs|)
  {
  }
}
