/** What a running Lua program does to the heap: allocation, barriered and unbarriered writes, upvalues, strings. */
module GcMutator {
  import opened GcHeap
  import opened GcMark
  import opened GcTri
  import opened GcState
  import opened GcCycle
  import opened GcSweep
  import opened GcUpval

  // ----- overwriting what an object stores

  /** Replace the references and the stack of x; kind, place and lists stay. */
  function Store(s: State, x: Id, refs: seq<Id>, stack: seq<Value>): (r: State)
    requires x in s.heap
  {
    s.(heap := s.heap[x := s.heap[x].(refs := refs, stack := stack)])
  }

  ghost predicate Fits(s: State, x: Id, refs: seq<Id>, stack: seq<Value>) {
    && x in s.heap
    && (forall y :: y in refs ==> Usable(s, y))
    && (s.heap[x].kind.Thread? ==> forall y :: Ref(y) in stack ==> Usable(s, y))
    && (s.heap[x].kind.Thread? ==>
          forall u :: u in s.heap[x].openupval && u in s.heap && IsOpen(s.heap[u]) ==> s.heap[u].place.slot < |stack|)
  }

  lemma StoreStructure(s: State, x: Id, refs: seq<Id>, stack: seq<Value>, r: State)
    requires Structure(s) && Fits(s, x, refs, stack) && r == Store(s, x, refs, stack)
    ensures Structure(r)
  {
    hide NoDup, RootList, StringTable;
    StoreLists(s, x, refs, stack, r);
    forall t, u | t in r.heap && r.heap[t].kind.Thread? && u in r.heap[t].openupval ensures IsUpvalOf(r.heap, t, u) {
      assert IsUpvalOf(s.heap, t, u);
    }
    forall u | u in r.heap && IsOpen(r.heap[u])
      ensures u in r.uvhead && IsOwned(r.heap, u)
    {
      assert IsOwned(s.heap, u);
    }
  }

  lemma StoreLists(s: State, x: Id, refs: seq<Id>, stack: seq<Value>, r: State)
    requires RootList(s) && StringTable(s) && x in s.heap && r == Store(s, x, refs, stack)
    ensures RootList(r) && StringTable(r)
  {
    hide NoDup;
    forall b | 0 <= b < |r.strt| ensures IsChain(r.heap, b, r.strt[b]) { assert IsChain(s.heap, b, s.strt[b]); }
  }

  lemma StoreLive(s: State, x: Id, refs: seq<Id>, stack: seq<Value>, r: State)
    requires LiveClosed(s) && SweptWhite(s) && Fits(s, x, refs, stack) && r == Store(s, x, refs, stack)
    requires s.marks.Keys == s.heap.Keys
    requires s.heap[x].kind.Thread? || UpvalLists(s)
    ensures LiveClosed(r) && SweptWhite(r)
  {
    hide NoDup;
    forall a, b | a in r.heap && !IsDead(r.white1, r.marks[a]) && RefersTo(r.heap, a, b) ensures Usable(r, b) {
      if IsOpen(s.heap[a]) && UpvalLists(s) { assert IsOwned(s.heap, a); }
      if !RefersTo(s.heap, a, b) { assert b in refs || Ref(b) in stack; }
      assert Usable(s, b);
    }
    forall a | a in r.heap
      ensures MarkOk(r.heap[a], r.marks[a]) && (IsCurrentWhite(r.white1, r.marks[a]) || Unswept(r, a))
    {
      assert MarkOk(s.heap[a], s.marks[a]);
    }
  }

  lemma StoreNoDangling(s: State, x: Id, refs: seq<Id>, stack: seq<Value>, h: Heap)
    requires NoDangling(s.heap) && Fits(s, x, refs, stack) && h == Store(s, x, refs, stack).heap
    requires s.heap[x].kind.Thread? || UpvalLists(s)
    ensures NoDangling(h)
    ensures forall a, b :: a in h && a != x && !IsOpen(s.heap[a]) ==> RefersTo(h, a, b) == RefersTo(s.heap, a, b)
  {
    hide NoDup;
    forall a, b | a in h && RefersTo(h, a, b) ensures b in h {
      if IsOpen(s.heap[a]) && UpvalLists(s) { assert IsOwned(s.heap, a); }
      if !RefersTo(s.heap, a, b) { assert b in refs || Ref(b) in stack; }
    }
  }

  /** A write exempts the written object; a white one, or one that waits on a gray list, needs no exemption. */
  lemma StoreTri(s: State, x: Id, refs: seq<Id>, stack: seq<Value>, h: Heap)
    requires s.marks.Keys == s.heap.Keys && MarkInv(s.heap, MarkingOf(s), s.white1, OpenUpvals(s.heap))
    requires Fits(s, x, refs, stack)
    requires x in s.heap && h == Store(s, x, refs, stack).heap && (s.heap[x].kind.Thread? || UpvalLists(s))
    ensures MarkInv(h, MarkingOf(s), s.white1, OpenUpvals(h) + {x})
  {
    hide Fits, Listed, Coloured, Tri, RefersTo, UpvalLists;
    StoreNoDangling(s, x, refs, stack, h);
    assert OpenUpvals(h) == OpenUpvals(s.heap);
    MovedKeepsTri(s.heap, h, MarkingOf(s), s.white1, OpenUpvals(s.heap), x);
  }

  /** x may store other references, and exempt objects may, when x becomes exempt too. */
  lemma MovedKeepsTri(h: Heap, h': Heap, m: Marking, w1: bool, exempt: set<Id>, x: Id)
    requires MarkInv(h, m, w1, exempt) && NoDangling(h') && h'.Keys == h.Keys
    requires forall a :: a in h ==> h'[a].kind == h[a].kind && IsOpen(h'[a]) == IsOpen(h[a])
    requires forall a, b :: a in h && a != x && a !in exempt ==> RefersTo(h', a, b) == RefersTo(h, a, b)
    ensures MarkInv(h', m, w1, exempt + {x})
  {
    hide RefersTo, NoDangling;
    assert Listed(h', m, exempt + {x}) && Coloured(h', m.mk, w1, exempt + {x});
  }

  lemma DismissListed(h: Heap, m: Marking, w1: bool, exempt: set<Id>, x: Id)
    requires MarkInv(h, m, w1, exempt + {x}) && (x in m.gray || x in m.grayagain)
    ensures MarkInv(h, m, w1, exempt)
  {
  }

  lemma StoreRooted(s: State, x: Id, refs: seq<Id>, stack: seq<Value>, r: State)
    requires Rooted(s) && x in s.heap && r == Store(s, x, refs, stack)
    ensures Rooted(r)
  {
    hide Rooted;
    RootedKept(s, r);
  }

  // ----- stack writes, which have no barrier

  /** Any change to the globals and the stack of thread t; also a write through an open upvalue of t. */
  lemma SetThreadKeepsInv(s: State, t: Id, refs: seq<Id>, stack: seq<Value>, r: State)
    requires Inv(s) && Fits(s, t, refs, stack) && t in s.heap && s.heap[t].kind.Thread? && r == Store(s, t, refs, stack)
    ensures Inv(r)
  {
    hide RootList, StringTable, UpvalLists, Rooted, LiveClosed, SweptWhite, Fits, MarkInv, Propagating;
    StoreStructure(s, t, refs, stack, r);
    StoreRooted(s, t, refs, stack, r);
    if s.phase.Propagate? {
      SetThreadPropagating(s, t, refs, stack, r);
    } else {
      StoreLive(s, t, refs, stack, r);
    }
  }

  lemma SetThreadPropagating(s: State, t: Id, refs: seq<Id>, stack: seq<Value>, r: State)
    requires Propagating(s) && Fits(s, t, refs, stack) && t in s.heap && s.heap[t].kind.Thread?
    requires r == Store(s, t, refs, stack)
    ensures Propagating(r)
  {
    hide Fits, Tri, OpenUpvals, RefersTo;
    TriThread(s, t);
    StoreTri(s, t, refs, stack, r.heap);
    Undo(r.heap, MarkingOf(s), s.white1, OpenUpvals(r.heap), t);
  }

  lemma TriThread(s: State, t: Id)
    requires Propagating(s) && t in s.heap && s.heap[t].kind.Thread?
    ensures !IsBlack(s.marks[t]) && (IsGray(s.marks[t]) ==> t in s.gray || t in s.grayagain)
  {
  }

  /** A container that is not black needs no exemption: it is white, or it waits on a list. */
  lemma Undo(h: Heap, m: Marking, w1: bool, exempt: set<Id>, x: Id)
    requires MarkInv(h, m, w1, exempt + {x}) && x in h && x in m.mk && !IsBlack(m.mk[x])
    requires IsGray(m.mk[x]) ==> x in m.gray || x in m.grayagain
    ensures MarkInv(h, m, w1, exempt)
  {
    hide MarkInv;
    if IsWhite(m.mk[x]) { Dismiss(h, m, w1, exempt, x); } else { DismissListed(h, m, w1, exempt, x); }
  }

  // ----- barriered writes

  function BarrierBack(s: State, t: Id): (r: State)
    requires t in s.marks
  {
    s.(marks := s.marks[t := BlackToGray(s.marks[t])], grayagain := [t] + s.grayagain)
  }

  function BarrierForward(s: State, o: Id, v: Id): (r: State)
    requires s.marks.Keys == s.heap.Keys && o in s.heap && v in s.heap && IsWhite(s.marks[v])
    requires s.phase.Propagate? ==> NoDangling(s.heap)
  {
    if s.phase.Propagate? then WithMarking(s, ReallyMarkObject(s.heap, MarkingOf(s), v))
    else s.(marks := s.marks[o := White(s.white1, s.marks[o])])
  }

  predicate NeedsBarrier(s: State, o: Id, v: Value)
    requires o in s.marks
  {
    v.Ref? && v.o in s.marks && IsWhite(s.marks[v.o]) && IsBlack(s.marks[o])
  }

  /** Store the references refs in o, one of them perhaps the new value v, and run the barrier of o's kind. */
  function Write(s: State, o: Id, refs: seq<Id>, v: Value): (r: State)
    requires s.marks.Keys == s.heap.Keys && o in s.heap && Fits(s, o, refs, s.heap[o].stack)
    requires s.phase.Propagate? ==> NoDangling(s.heap) && UpvalLists(s)
  {
    var s1 := Store(s, o, refs, s.heap[o].stack);
    if !NeedsBarrier(s1, o, v) then s1
    else if s.heap[o].kind.Table? then BarrierBack(s1, o)
    else
      assert s.phase.Propagate? ==> NoDangling(s1.heap) by {
        if s.phase.Propagate? { StoreNoDangling(s, o, refs, s.heap[o].stack, s1.heap); }
      }
      BarrierForward(s1, o, v.o)
  }

  /** Only v is new among the references; strings, threads and open upvalues are written in other ways. */
  ghost predicate IsWrite(s: State, o: Id, refs: seq<Id>, v: Value) {
    && o in s.heap && !s.heap[o].kind.String? && !s.heap[o].kind.Thread? && !IsOpen(s.heap[o])
    && (forall y :: y in refs ==> y in s.heap[o].refs || v == Ref(y))
    && Fits(s, o, refs, s.heap[o].stack)
  }

  lemma BarrierBackTri(h: Heap, m: Marking, w1: bool, exempt: set<Id>, o: Id)
    requires MarkInv(h, m, w1, exempt + {o}) && o in h && IsBlack(m.mk[o]) && h[o].kind.Table?
    ensures MarkInv(h, m.(mk := m.mk[o := BlackToGray(m.mk[o])], grayagain := [o] + m.grayagain), w1, exempt)
  {
  }

  lemma BarrierForwardTri(h: Heap, m: Marking, w1: bool, exempt: set<Id>, o: Id, v: Id, r: Marking)
    requires MarkInv(h, m, w1, exempt + {o}) && o in h && IsBlack(m.mk[o]) && !IsWhite(m.mk[o]) && v in h
    requires IsWhite(m.mk[v])
    requires forall y :: RefersTo(h, o, y) ==> y == v || !IsWhite(m.mk[y])
    requires r == ReallyMarkObject(h, m, v)
    ensures MarkInv(h, r, w1, exempt) && Advanced(m.mk, r.mk)
  {
    hide Listed, Tri, Coloured, ReallyMarkObject, RefersTo;
    ReallyMarkObjectKeepsTri(h, m, w1, exempt + {o}, v);
    forall y | RefersTo(h, o, y) ensures !IsWhite(r.mk[y]) {
      assert y in m.mk;
    }
    Discharge(h, r, w1, exempt, o);
  }

  /** What the tri-colour invariant says about the object of a write, and about its references after the write. */
  lemma WriteColour(s: State, o: Id, refs: seq<Id>, v: Value, h: Heap)
    requires Propagating(s) && IsWrite(s, o, refs, v) && h == Store(s, o, refs, s.heap[o].stack).heap
    ensures IsGray(s.marks[o]) ==> o in s.gray || o in s.grayagain
    ensures IsBlack(s.marks[o]) ==> !IsWhite(s.marks[o])
    ensures
      IsBlack(s.marks[o]) ==> forall y :: RefersTo(h, o, y) ==> v == Ref(y) || (y in s.marks && !IsWhite(s.marks[y]))
  {
    if IsBlack(s.marks[o]) {
      forall y | RefersTo(h, o, y) && v != Ref(y) ensures y in s.marks && !IsWhite(s.marks[y]) {
        assert RefersTo(s.heap, o, y);
      }
    }
  }

  lemma WritePropagating(s: State, o: Id, refs: seq<Id>, v: Value, s1: State, r: State)
    requires s.phase.Propagate? && Propagating(s) && UpvalLists(s)
    requires IsWrite(s, o, refs, v) && o in s.heap && Fits(s, o, refs, s.heap[o].stack)
    requires s1 == Store(s, o, refs, s.heap[o].stack) && r == Write(s, o, refs, v)
    ensures MarkInv(r.heap, MarkingOf(r), s.white1, OpenUpvals(r.heap)) && Kept(s.marks, r.marks)
  {
    hide Fits, Listed, Coloured, Tri, RefersTo, OpenUpvals, IsWrite, ReallyMarkObject, UpvalLists;
    var open := OpenUpvals(s1.heap);
    WriteColour(s, o, refs, v, s1.heap);
    StoreTri(s, o, refs, s.heap[o].stack, s1.heap);
    if !IsBlack(s.marks[o]) {
      Undo(s1.heap, MarkingOf(s), s.white1, open, o);
    } else if !NeedsBarrier(s1, o, v) {
      Discharge(s1.heap, MarkingOf(s), s.white1, open, o);
    } else if s.heap[o].kind.Table? {
      BarrierBackTri(s1.heap, MarkingOf(s), s.white1, open, o);
    } else {
      BarrierForwardTri(s1.heap, MarkingOf(s), s.white1, open, o, v.o, MarkingOf(r));
    }
  }

  /** Outside propagate a barrier only turns a black object gray or white. */
  ghost predicate Softened(s: State, o: Id, r: State) {
    && o in s.marks && r == s.(marks := r.marks, grayagain := r.grayagain)
    && (r.marks == s.marks || (IsBlack(s.marks[o]) &&
        (r.marks == s.marks[o := BlackToGray(s.marks[o])] || r.marks == s.marks[o := White(s.white1, s.marks[o])])))
  }

  lemma SoftenedMarks(s: State, o: Id, r: State)
    requires o in s.heap && o in s.marks && MarkOk(s.heap[o], s.marks[o]) && Softened(s, o, r)
    ensures r.marks.Keys == s.marks.Keys
    ensures forall x ::
        x in r.marks ==>
          r.marks[x].fixed == s.marks[x].fixed && (IsDead(r.white1, r.marks[x]) <==> IsDead(s.white1, s.marks[x]))
  {
  }

  lemma SoftenedLive(s: State, o: Id, r: State)
    requires LiveClosed(s) && o in s.heap && s.marks.Keys == s.heap.Keys
    requires r == s.(marks := r.marks, grayagain := r.grayagain)
    requires r.marks.Keys == s.marks.Keys
    requires forall x :: x in r.marks ==> (IsDead(r.white1, r.marks[x]) <==> IsDead(s.white1, s.marks[x]))
    ensures LiveClosed(r)
  {
    hide RefersTo, IsDead;
    forall a, b | a in r.heap && !IsDead(r.white1, r.marks[a]) && RefersTo(r.heap, a, b) ensures Usable(r, b) {
      assert Usable(s, b);
    }
  }

  lemma SoftenedWhite(s: State, o: Id, r: State)
    requires SweptWhite(s) && s.marks.Keys == s.heap.Keys && Softened(s, o, r)
    ensures SweptWhite(r)
  {
    forall a | a in r.heap
      ensures MarkOk(r.heap[a], r.marks[a]) && (IsCurrentWhite(r.white1, r.marks[a]) || Unswept(r, a))
    {
      assert MarkOk(s.heap[a], s.marks[a]);
    }
  }

  lemma RemarkedStructure(s: State, r: State)
    requires Structure(s) && r == s.(marks := r.marks, gray := r.gray, grayagain := r.grayagain)
    requires r.marks.Keys == s.marks.Keys
    ensures Structure(r)
  {
    hide NoDup, IsChain;
  }

  lemma WriteKeepsInv(s: State, o: Id, refs: seq<Id>, v: Value, s1: State, r: State)
    requires Inv(s) && IsWrite(s, o, refs, v) && o in s.heap && Fits(s, o, refs, s.heap[o].stack)
    requires s.phase.Propagate? ==> NoDangling(s.heap)
    requires s1 == Store(s, o, refs, s.heap[o].stack) && r == Write(s, o, refs, v)
    ensures Inv(r)
  {
    hide RootList, StringTable, UpvalLists, Rooted, LiveClosed, SweptWhite, Fits, IsWrite, Propagating, Write;
    StoreStructure(s, o, refs, s.heap[o].stack, s1);
    StoreRooted(s, o, refs, s.heap[o].stack, s1);
    if s.phase.Propagate? {
      WriteInPropagate(s, o, refs, v, s1, r);
    } else {
      StoreLive(s, o, refs, s.heap[o].stack, s1);
      WriteInSweep(s, o, refs, v, s1, r);
    }
  }

  lemma WriteInPropagate(s: State, o: Id, refs: seq<Id>, v: Value, s1: State, r: State)
    requires s.phase.Propagate? && Propagating(s) && UpvalLists(s) && Structure(s1) && Rooted(s1)
    requires IsWrite(s, o, refs, v) && o in s.heap && Fits(s, o, refs, s.heap[o].stack)
    requires s1 == Store(s, o, refs, s.heap[o].stack) && r == Write(s, o, refs, v)
    ensures Inv(r)
  {
    hide RootList, StringTable, UpvalLists, Rooted, Fits, IsWrite, MarkInv, RefersTo, ReallyMarkObject, NoDangling;
    WritePropagating(s, o, refs, v, s1, r);
    NothingDead(r);
    WriteRest(s1, r);
  }

  lemma WriteInSweep(s: State, o: Id, refs: seq<Id>, v: Value, s1: State, r: State)
    requires !s.phase.Propagate? && Structure(s1) && Rooted(s1) && LiveClosed(s1) && SweptWhite(s1)
    requires s.marks.Keys == s.heap.Keys && o in s.heap && Fits(s, o, refs, s.heap[o].stack)
    requires s1 == Store(s, o, refs, s.heap[o].stack) && r == Write(s, o, refs, v)
    ensures Inv(r)
  {
    hide RootList, StringTable, UpvalLists, Rooted, Fits, LiveClosed;
    assert Softened(s1, o, r);
    SoftenedMarks(s1, o, r);
    SoftenedLive(s1, o, r);
    SoftenedWhite(s1, o, r);
    WriteRest(s1, r);
  }

  lemma WriteRest(s1: State, r: State)
    requires Structure(s1) && Rooted(s1) && r == s1.(marks := r.marks, gray := r.gray, grayagain := r.grayagain)
    requires r.marks.Keys == s1.marks.Keys && forall x :: x in r.marks ==> r.marks[x].fixed == s1.marks[x].fixed
    requires forall x :: x in r.marks && IsDead(r.white1, r.marks[x]) ==> IsDead(s1.white1, s1.marks[x])
    ensures Structure(r) && Rooted(r)
  {
    hide RootList, StringTable, UpvalLists, Rooted;
    RemarkedStructure(s1, r);
    RootedKept(s1, r);
  }

  // ----- new objects

  /** A fresh object of the current white. */
  function Fresh(s: State, x: Id, o: Obj): (r: State)
  {
    s.(heap := s.heap[x := o], marks := s.marks[x := White(s.white1, Marked(false, false, false, false))])
  }

  /** luaC_link: the object goes in front of rootgc. */
  function Link(s: State, x: Id, o: Obj): (r: State) {
    Fresh(s, x, o).(rootgc := [x] + s.rootgc, sweepgc := Shifted(s.sweepgc))
  }

  /** luaS_newudata: a userdata goes behind the main thread, at position k of rootgc. */
  function LinkAt(s: State, x: Id, o: Obj, k: nat): (r: State)
    requires k <= |s.rootgc|
  {
    Fresh(s, x, o).(rootgc := s.rootgc[..k] + [x] + s.rootgc[k..],
      sweepgc := if k < s.sweepgc then s.sweepgc + 1 else s.sweepgc)
  }

  /** newlstr: a string goes in front of the chain its hash selects. */
  function LinkString(s: State, x: Id, b: nat): (r: State)
    requires b < |s.strt|
  {
    Fresh(s, x, Obj(String, [], [], [], Bucket(b))).(strt := s.strt[b := [x] + s.strt[b]])
  }

  /** A new object stores usable references only and starts without open upvalues. */
  ghost predicate IsNew(s: State, x: Id, o: Obj) {
    && x !in s.heap && o.openupval == [] && !IsOpen(o)
    && (forall y :: y in o.refs ==> Usable(s, y)) && (forall y :: Ref(y) in o.stack ==> Usable(s, y))
  }

  lemma FreshRefs(s: State, x: Id, o: Obj, h: Heap)
    requires IsNew(s, x, o) && UpvalLists(s) && h == s.heap[x := o]
    ensures forall a, b :: a in s.heap ==> RefersTo(h, a, b) == RefersTo(s.heap, a, b)
    ensures forall b :: RefersTo(h, x, b) ==> Usable(s, b)
    ensures NoDangling(s.heap) ==> NoDangling(h)
  {
    hide NoDup;
    forall a, b | a in s.heap ensures RefersTo(h, a, b) == RefersTo(s.heap, a, b) {
      if IsOpen(s.heap[a]) { assert IsOwned(s.heap, a); }
    }
  }

  lemma FreshTri(h: Heap, m: Marking, w1: bool, x: Id, o: Obj, h': Heap, m': Marking)
    requires MarkInv(h, m, w1, OpenUpvals(h)) && x !in h && NoDangling(h') && !IsOpen(o)
    requires h' == h[x := o] && m' == m.(mk := m.mk[x := White(w1, Marked(false, false, false, false))])
    requires forall a, b :: a in h ==> RefersTo(h', a, b) == RefersTo(h, a, b)
    ensures MarkInv(h', m', w1, OpenUpvals(h'))
  {
    hide RefersTo, NoDangling, Tri, Listed, Coloured;
    assert OpenUpvals(h') == OpenUpvals(h);
    FreshArrows(h, m, OpenUpvals(h), x, h', m');
    FreshListed(h, m, OpenUpvals(h), x, h', m');
    FreshColoured(h, m.mk, w1, OpenUpvals(h), x, h', m'.mk);
  }

  lemma FreshListed(h: Heap, m: Marking, exempt: set<Id>, x: Id, h': Heap, m': Marking)
    requires m.mk.Keys == h.Keys && Listed(h, m, exempt) && x !in h
    requires h'.Keys == h.Keys + {x} && m'.mk.Keys == h'.Keys && m'.gray == m.gray && m'.grayagain == m.grayagain
    requires IsWhite(m'.mk[x]) && forall a :: a in h ==> m'.mk[a] == m.mk[a] && h'[a].kind == h[a].kind
    ensures Listed(h', m', exempt)
  {
    hide NoDup;
  }

  lemma FreshColoured(h: Heap, mk: Marks, w1: bool, exempt: set<Id>, x: Id, h': Heap, mk': Marks)
    requires mk.Keys == h.Keys && Coloured(h, mk, w1, exempt) && x !in h && h'.Keys == h.Keys + {x}
    requires mk'.Keys == h'.Keys
    requires IsCurrentWhite(w1, mk'[x])
    requires forall a :: a in h ==> mk'[a] == mk[a] && h'[a].kind == h[a].kind && h'[a].place == h[a].place
    ensures Coloured(h', mk', w1, exempt)
  {
  }

  lemma FreshArrows(h: Heap, m: Marking, exempt: set<Id>, x: Id, h': Heap, m': Marking)
    requires m.mk.Keys == h.Keys && NoDangling(h) && Tri(h, m, exempt) && x !in h && NoDangling(h')
    requires h'.Keys == h.Keys + {x} && m'.mk.Keys == h'.Keys && m'.gray == m.gray && m'.grayagain == m.grayagain
    requires IsWhite(m'.mk[x]) && forall a :: a in h ==> m'.mk[a] == m.mk[a]
    requires forall a, b :: a in h ==> RefersTo(h', a, b) == RefersTo(h, a, b)
    ensures Tri(h', m', exempt)
  {
    hide RefersTo;
    forall a, b | a in h' && RefersTo(h', a,
      b) && !IsWhite(m'.mk[a]) && a !in exempt && a !in m'.gray && a !in m'.grayagain
      ensures !IsWhite(m'.mk[b])
    {
      assert RefersTo(h, a, b);
    }
  }

  lemma FreshRooted(s: State, x: Id, o: Obj, r: State)
    requires Rooted(s) && x !in s.heap && s.marks.Keys == s.heap.Keys && SameRoots(s, r)
    requires r.heap == s.heap[x := o] && r.marks == s.marks[x := White(s.white1, Marked(false, false, false, false))]
    ensures Rooted(r)
  {
    hide Rooted;
    RootedKept(s, r);
  }

  lemma FreshLive(s: State, x: Id, o: Obj, r: State)
    requires LiveClosed(s) && x !in s.heap && s.marks.Keys == s.heap.Keys && SameRoots(s, r)
    requires r.heap == s.heap[x := o] && r.marks == s.marks[x := White(s.white1, Marked(false, false, false, false))]
    requires forall a, b :: a in s.heap ==> RefersTo(r.heap, a, b) == RefersTo(s.heap, a, b)
    requires forall b :: RefersTo(r.heap, x, b) ==> Usable(s, b)
    ensures LiveClosed(r)
  {
    hide RefersTo;
    forall a, b | a in r.heap && !IsDead(r.white1, r.marks[a]) && RefersTo(r.heap, a, b) ensures Usable(r, b) {
      assert Usable(s, b);
    }
  }

  lemma FreshWhite(s: State, x: Id, o: Obj, r: State)
    requires SweptWhite(s) && x !in s.heap && s.marks.Keys == s.heap.Keys && SameRoots(s, r)
    requires r.heap == s.heap[x := o] && r.marks == s.marks[x := White(s.white1, Marked(false, false, false, false))]
    requires r.phase == s.phase && r.sweepstrgc == s.sweepstrgc && s.sweepgc <= |s.rootgc| && r.sweepgc <= |r.rootgc|
    requires forall y :: y in s.rootgc[s.sweepgc..] ==> y in r.rootgc[r.sweepgc..]
    ensures SweptWhite(r)
  {
    hide Unswept;
    forall a | a in r.heap
      ensures MarkOk(r.heap[a], r.marks[a]) && (IsCurrentWhite(r.white1, r.marks[a]) || Unswept(r, a))
    {
      if a != x && Unswept(s, a) { UnsweptKept(s, r, a); }
    }
  }

  lemma FreshKeepsInv(s: State, x: Id, o: Obj, r: State)
    requires Inv(s) && IsNew(s, x, o) && Structure(r)
    requires r == Fresh(s, x, o).(rootgc := r.rootgc, sweepgc := r.sweepgc, strt := r.strt)
    requires s.sweepgc <= |s.rootgc| && r.sweepgc <= |r.rootgc|
    requires forall y :: y in s.rootgc[s.sweepgc..] ==> y in r.rootgc[r.sweepgc..]
    ensures Inv(r)
  {
    hide RootList, StringTable, UpvalLists, Rooted, LiveClosed, SweptWhite, MarkInv, RefersTo;
    FreshRefs(s, x, o, r.heap);
    FreshRooted(s, x, o, r);
    if s.phase.Propagate? {
      FreshPropagating(s, x, o, r);
    } else {
      FreshLive(s, x, o, r);
      FreshWhite(s, x, o, r);
    }
  }

  lemma FreshPropagating(s: State, x: Id, o: Obj, r: State)
    requires Propagating(s) && UpvalLists(s) && IsNew(s, x, o)
    requires r.heap == s.heap[x := o] && r.marks == s.marks[x := White(s.white1, Marked(false, false, false, false))]
    requires r.gray == s.gray && r.grayagain == s.grayagain && SameRoots(s, r)
    ensures Propagating(r)
  {
    hide Listed, Coloured, Tri, RefersTo, UpvalLists;
    FreshRefs(s, x, o, r.heap);
    FreshTri(s.heap, MarkingOf(s), s.white1, x, o, r.heap, MarkingOf(r));
  }

  lemma FreshUpvalLists(s: State, x: Id, o: Obj, r: State)
    requires UpvalLists(s) && IsNew(s, x, o) && r.heap == s.heap[x := o] && r.uvhead == s.uvhead
    ensures UpvalLists(r)
  {
    hide NoDup;
    assert NoDup(o.openupval) by { NoDupNil(); }
    forall t, u | t in r.heap && r.heap[t].kind.Thread? && u in r.heap[t].openupval ensures IsUpvalOf(r.heap, t, u) {
      assert IsUpvalOf(s.heap, t, u);
    }
    forall u | u in r.heap && IsOpen(r.heap[u])
      ensures u in r.uvhead && IsOwned(r.heap, u)
    {
      assert IsOwned(s.heap, u);
    }
  }

  lemma NoDupNil()
    ensures NoDup([])
  {
  }

  lemma FreshStringTable(s: State, x: Id, o: Obj, r: State)
    requires StringTable(s) && x !in s.heap && !o.kind.String? && r.heap == s.heap[x := o]
    requires r.strt == s.strt && r.sweepstrgc == s.sweepstrgc && r.phase == s.phase
    ensures StringTable(r)
  {
    hide NoDup;
    forall b | 0 <= b < |r.strt| ensures IsChain(r.heap, b, r.strt[b]) { assert IsChain(s.heap, b, s.strt[b]); }
  }

  lemma LinkKeepsInv(s: State, x: Id, o: Obj, r: State)
    requires Inv(s) && IsNew(s, x, o) && !o.kind.String? && r == Link(s, x, o)
    ensures Inv(r)
  {
    hide StringTable, UpvalLists, Rooted, LiveClosed, SweptWhite, Propagating, NoDup, IsNew;
    assert x !in s.heap && !IsOpen(o) by { Unfold(s, x, o); }
    FreshUpvalLists(s, x, o, r);
    FreshStringTable(s, x, o, r);
    RootListLinked(s, r, x);
    LinkedSuffix(s.rootgc, s.sweepgc, x);
    FreshKeepsInv(s, x, o, r);
  }

  lemma Unfold(s: State, x: Id, o: Obj)
    requires IsNew(s, x, o)
    ensures x !in s.heap && !IsOpen(o)
  {
  }

  lemma LinkAtKeepsInv(s: State, x: Id, o: Obj, k: nat, r: State)
    requires Inv(s) && IsNew(s, x, o) && !o.kind.String? && k <= |s.rootgc| && r == LinkAt(s, x, o, k)
    ensures Inv(r)
  {
    hide StringTable, UpvalLists, Rooted, LiveClosed, SweptWhite, Propagating, NoDup, IsNew;
    assert x !in s.heap && !IsOpen(o) by { Unfold(s, x, o); }
    FreshUpvalLists(s, x, o, r);
    FreshStringTable(s, x, o, r);
    Inserted(s.rootgc, s.sweepgc, x, k);
    FreshKeepsInv(s, x, o, r);
  }

  lemma Inserted(xs: seq<Id>, p: nat, x: Id, k: nat)
    requires NoDup(xs) && x !in xs && p <= |xs| && k <= |xs|
    ensures NoDup(xs[..k] + [x] + xs[k..])
    ensures forall y :: y in xs[..k] + [x] + xs[k..] <==> y == x || y in xs
    ensures forall y :: y in xs[p..] ==> y in (xs[..k] + [x] + xs[k..])[if k < p then p + 1 else p..]
  {
    var ys := xs[..k] + [x] + xs[k..];
    assert xs == xs[..k] + xs[k..];
    forall y | y in xs[p..] ensures y in ys[if k < p then p + 1 else p..] {
      var i :| p <= i < |xs| && xs[i] == y;
      assert ys[if i < k then i else i + 1] == y;
    }
  }

  lemma LinkStringKeepsInv(s: State, x: Id, b: nat, r: State)
    requires Inv(s) && x !in s.heap && b < |s.strt| && r == LinkString(s, x, b)
    ensures Inv(r)
  {
    hide UpvalLists, Rooted, LiveClosed, SweptWhite, Propagating, NoDup;
    var o := Obj(String, [], [], [], Bucket(b));
    FreshUpvalLists(s, x, o, r);
    LinkStringTable(s, x, b, r);
    FreshKeepsInv(s, x, o, r);
  }

  lemma LinkStringTable(s: State, x: Id, b: nat, r: State)
    requires StringTable(s) && RootList(s) && x !in s.heap && b < |s.strt| && r == LinkString(s, x, b)
    ensures StringTable(r) && RootList(r)
  {
    hide NoDup;
    forall c | 0 <= c < |r.strt| ensures IsChain(r.heap, c, r.strt[c]) {
      assert IsChain(s.heap, c, s.strt[c]);
      if c == b { NoDupCons(x, s.strt[b]); }
    }
  }

  // ----- reviving a dead object that the sweep has not reached

  /** luaS_newlstr and luaF_findupval change the white of a dead string or upvalue they find. */
  function Revive(s: State, x: Id): (r: State)
    requires x in s.marks
  {
    if IsDead(s.white1, s.marks[x]) then s.(marks := s.marks[x := ChangeWhite(s.marks[x])]) else s
  }

  lemma ReviveKeepsInv(s: State, x: Id, r: State)
    requires Inv(s) && x in s.heap && x in s.marks && r == Revive(s, x)
    requires IsDead(s.white1, s.marks[x]) ==> forall y :: RefersTo(s.heap, x, y) ==> Usable(s, y)
    ensures Inv(r) && Usable(r, x) && r == s.(marks := r.marks)
    ensures forall y :: Usable(s, y) ==> Usable(r, y)
  {
    hide RootList, StringTable, UpvalLists, Rooted, LiveClosed, Listed, Tri, RefersTo;
    if IsDead(s.white1, s.marks[x]) {
      assert !s.phase.Propagate?;
      ReviveLive(s, x, r);
      WriteRest(s, r);
    }
  }

  lemma ReviveLive(s: State, x: Id, r: State)
    requires LiveClosed(s) && SweptWhite(s) && s.marks.Keys == s.heap.Keys && x in s.heap
    requires IsDead(s.white1, s.marks[x])
    requires forall y :: RefersTo(s.heap, x, y) ==> Usable(s, y)
    requires r == s.(marks := s.marks[x := ChangeWhite(s.marks[x])])
    ensures LiveClosed(r) && SweptWhite(r) && IsCurrentWhite(r.white1, r.marks[x])
  {
    hide RefersTo;
    assert MarkOk(s.heap[x], s.marks[x]);
    forall a, b | a in r.heap && !IsDead(r.white1, r.marks[a]) && RefersTo(r.heap, a, b) ensures Usable(r, b) {
      assert Usable(s, b);
    }
    forall a | a in r.heap
      ensures MarkOk(r.heap[a], r.marks[a]) && (IsCurrentWhite(r.white1, r.marks[a]) || Unswept(r, a))
    {
      assert MarkOk(s.heap[a], s.marks[a]);
    }
  }
}
