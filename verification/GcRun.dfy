/** Runs of a program and its collector, and their safety. */
module GcRun {
  import opened GcHeap
  import opened GcMark
  import opened GcTri
  import opened GcState
  import opened GcCycle
  import opened GcSweep
  import opened GcUpval
  import opened GcRoot
  import opened GcStep
  import opened GcMutator
  import opened GcOpen
  import opened GcFull
  import opened GcExact

  /** One step of a run. New objects and interned strings end up on top of the stack of the running thread. */
  datatype Op =
    | Collect                                                  // singlestep
    | CollectAll                                               // luaC_fullgc
    | NewObject(kind: Kind, x: Id,
      refs: seq<Id>)              // luaC_link: closed upvalue, function, table, thread or prototype
    | NewUserdata(x: Id, refs: seq<Id>)                        // luaS_newudata
    | NewString(x: Id, chain: nat)                             // luaS_newlstr, string not found
    | InternString(x: Id)                                      // luaS_newlstr, string found, dead or not
    | OpenUpval(slot: nat, x: Id, f: Id)                       // luaF_findupval for the new closure f
    | CloseUpvals(level: nat)                                  // luaF_close
    | WriteField(o: Id, refs: seq<Id>, v: Value)               // a store followed by luaC_barrier or luaC_barriert
    | WriteOpenUpval(u: Id, v: Value)                          // OP_SETUPVAL on an open upvalue: a stack write
    | WriteStack(t: Id, refs: seq<Id>, stack: seq<Value>)      // any change to a stack or a thread's globals
    | SetMetatables(mt: seq<Value>)                            // g->mt, written without a barrier
    | Resume(t: Id)                                            // another thread runs
    | FixString(x: Id)                                         // luaS_fix

  /** The program can reach x. (Inv puts every reachable object in the heap, so the first two conjuncts restrict
      nothing.) */
  ghost predicate Held(s: State, x: Id) { x in s.heap && x in s.marks && Reachable(s, x) }

  ghost predicate Holds(s: State, v: Value) { v.Ref? ==> Reachable(s, v.o) }

  ghost predicate AllHeld(s: State, xs: seq<Id>) { forall x :: x in xs ==> Reachable(s, x) }

  ghost predicate AllValuesHeld(s: State, vs: seq<Value>) { forall x :: Ref(x) in vs ==> Reachable(s, x) }

  /** A program only handles what it can reach, and a stack never shrinks below an open upvalue. */
  ghost predicate Legal(s: State, op: Op) {
    match op
    case Collect => true
    case CollectAll => true
    case NewObject(k, x, refs) => x !in s.heap && !k.String? && !k.Userdata? && AllHeld(s, refs)
    case NewUserdata(x, refs) => x !in s.heap && AllHeld(s, refs)
    case NewString(x, b) => x !in s.heap && b < |s.strt|
    case InternString(x) => x in s.heap && s.heap[x].kind.String?
    case OpenUpval(slot, x, f) =>
      && x !in s.heap && s.running in s.heap && slot < |s.heap[s.running].stack|
      && Held(s, f) && s.heap[f].kind.Function? && IsWhite(s.marks[f])
    case CloseUpvals(level) => true
    case WriteField(o, refs, v) =>
      && Held(s, o) && !s.heap[o].kind.String? && !s.heap[o].kind.Thread? && !IsOpen(s.heap[o]) && Holds(s, v)
      && forall y :: y in refs ==> y in s.heap[o].refs || v == Ref(y)
    case WriteOpenUpval(u, v) => Held(s, u) && IsOpen(s.heap[u]) && Holds(s, v)
    case WriteStack(t, refs, stack) =>
      && Held(s, t) && s.heap[t].kind.Thread? && AllHeld(s, refs) && AllValuesHeld(s, stack)
      && forall u :: u in s.heap[t].openupval && u in s.heap && IsOpen(s.heap[u]) ==> s.heap[u].place.slot < |stack|
    case SetMetatables(mt) => AllValuesHeld(s, mt)
    case Resume(t) => Held(s, t) && s.heap[t].kind.Thread?
    case FixString(x) => Held(s, x) && s.heap[x].kind.String?
  }

  // ----- the steps

  /** Push x on the stack of the running thread. */
  function Push(s: State, x: Id): (r: State)
    requires s.running in s.heap
  {
    var t := s.heap[s.running];
    Store(s, s.running, t.refs, t.stack + [Ref(x)])
  }

  lemma PushKeepsInv(s: State, x: Id, r: State)
    requires Inv(s) && s.running in s.heap && Usable(s, x) && r == Push(s, x)
    ensures Inv(r)
  {
    hide RootList, StringTable, LiveClosed, SweptWhite, Propagating;
    var t := s.running;
    assert s.heap[t].kind.Thread? && IsRoot(s, t);
    RefsUsable(s, t);
    forall u | u in s.heap[t].openupval && u in s.heap && IsOpen(s.heap[u])
      ensures s.heap[u].place.slot < |s.heap[t].stack|
    {
      assert IsUpvalOf(s.heap, t, u);
    }
    SetThreadKeepsInv(s, t, s.heap[t].refs, s.heap[t].stack + [Ref(x)], r);
  }

  /** What a usable thread stores is usable. */
  lemma RefsUsable(s: State, t: Id)
    requires Inv(s) && Usable(s, t) && s.heap[t].kind.Thread?
    ensures forall y :: y in s.heap[t].refs ==> Usable(s, y)
    ensures forall y :: Ref(y) in s.heap[t].stack ==> Usable(s, y)
  {
    hide RootList, StringTable, UpvalLists, Rooted, SweptWhite;
    forall y | y in s.heap[t].refs || Ref(y) in s.heap[t].stack ensures Usable(s, y) {
      assert RefersTo(s.heap, t, y);
    }
  }

  lemma RootsReady(s: State)
    requires Inv(s)
    ensures s.running in s.heap && s.heap[s.running].kind.Thread? && Usable(s, s.running)
    ensures s.mainthread in s.rootgc && s.marks.Keys == s.heap.Keys
    ensures s.phase.Propagate? ==> NoDangling(s.heap)
  {
    hide StringTable, UpvalLists, LiveClosed, SweptWhite, Listed, Coloured, Tri, NoDangling;
    assert IsRoot(s, s.running);
  }

  function IndexOf(xs: seq<Id>, x: Id): (k: nat)
    requires x in xs
    ensures k < |xs| && xs[k] == x
  {
    if xs[0] == x then 0 else IndexOf(xs[1..], x) + 1
  }

  lemma UpvalReady(s: State, u: Id)
    requires Inv(s) && u in s.heap && IsOpen(s.heap[u])
    ensures s.heap[u].place.thread in s.heap && s.heap[s.heap[u].place.thread].kind.Thread?
    ensures s.heap[u].place.slot < |s.heap[s.heap[u].place.thread].stack|
  {
    hide RootList, StringTable, Rooted, LiveClosed, SweptWhite, Propagating;
    assert IsOwned(s.heap, u);
    assert IsUpvalOf(s.heap, s.heap[u].place.thread, u);
  }

  lemma OpenReady(s: State)
    requires Inv(s)
    ensures s.running in s.heap && forall u :: u in s.heap[s.running].openupval ==> u in s.heap && s.heap[u].place.Open?
  {
    hide RootList, StringTable, LiveClosed, SweptWhite, Propagating;
    forall u | u in s.heap[s.running].openupval ensures u in s.heap && s.heap[u].place.Open? {
      assert IsUpvalOf(s.heap, s.running, u);
    }
  }

  lemma FieldReady(s: State, o: Id, refs: seq<Id>, v: Value)
    requires Inv(s) && Legal(s, WriteField(o, refs, v))
    ensures o in s.heap && IsWrite(s, o, refs, v) && Fits(s, o, refs, s.heap[o].stack)
  {
    hide RootList, StringTable, UpvalLists, Rooted, SweptWhite;
    ReachableIsUsable(s);
    forall y | y in refs ensures Usable(s, y) {
      if v != Ref(y) { assert RefersTo(s.heap, o, y); }
    }
  }

  predicate IsAllocation(op: Op) { op.NewObject? || op.NewUserdata? || op.NewString? || op.InternString? }

  /** The object an allocation makes or finds, before it is pushed. */
  function Allocate(s: State, op: Op): (r: State)
    requires IsAllocation(op) && s.mainthread in s.rootgc
    requires (op.NewString? ==> op.chain < |s.strt|) && (op.InternString? ==> op.x in s.marks)
    ensures r.running == s.running && s.heap.Keys <= r.heap.Keys
  {
    match op
    case NewObject(k, x, refs) => Link(s, x, Obj(k, refs, [], [], Closed))
    case NewUserdata(x, refs) => LinkUserdata(s, x, refs)
    case NewString(x, b) => LinkString(s, x, b)
    case InternString(x) => Revive(s, x)
  }

  predicate IsStore(op: Op) { op.OpenUpval? || op.WriteField? || op.WriteOpenUpval? || op.WriteStack? }

  /** A write to an object or a stack. */
  function Mutate(s: State, op: Op): (r: State)
    requires Inv(s) && Legal(s, op) && IsStore(op)
  {
    if op.OpenUpval? then StoreUpval(s, op.slot, op.x, op.f)
    else if op.WriteField? then StoreField(s, op.o, op.refs, op.v)
    else if op.WriteOpenUpval? then StoreThrough(s, op.u, op.v)
    else Store(s, op.t, op.refs, op.stack)
  }

  function Apply(s: State, op: Op): (r: State)
    requires Inv(s) && Legal(s, op)
  {
    RootsReady(s);
    if op.Collect? then SingleStep(s)
    else if op.CollectAll? then FullGc(s)
    else if IsAllocation(op) then Push(Allocate(s, op), op.x)
    else if IsStore(op) then Mutate(s, op)
    else if op.CloseUpvals? then CloseFrom(s, s.running, op.level)
    else if op.SetMetatables? then s.(mt := op.mt)
    else if op.Resume? then s.(running := op.t)
    else s.(marks := s.marks[op.x := s.marks[op.x].(fixed := true)])
  }

  function LinkUserdata(s: State, x: Id, refs: seq<Id>): (r: State)
    requires s.mainthread in s.rootgc
  {
    LinkAt(s, x, Obj(Userdata, refs, [], [], Closed), IndexOf(s.rootgc, s.mainthread) + 1)
  }

  function StoreField(s: State, o: Id, refs: seq<Id>, v: Value): (r: State)
    requires Inv(s) && Legal(s, WriteField(o, refs, v))
  {
    RootsReady(s); FieldReady(s, o, refs, v);
    Write(s, o, refs, v)
  }

  /** A write through an open upvalue lands in the stack of its thread, which may be unreachable itself. */
  function StoreThrough(s: State, u: Id, v: Value): (r: State)
    requires Inv(s) && u in s.heap && IsOpen(s.heap[u])
  {
    UpvalReady(s, u);
    var t := s.heap[u].place.thread;
    Store(s, t, s.heap[t].refs, s.heap[t].stack[s.heap[u].place.slot := v])
  }

  /** The closure f, still white, gets the upvalue of slot. */
  function StoreUpval(s: State, slot: nat, x: Id, f: Id): (r: State)
    requires Inv(s) && Legal(s, OpenUpval(slot, x, f))
  {
    RootsReady(s); OpenReady(s);
    var found := FindUpval(s, s.running, slot, x);
    FunctionKept(s, slot, x, f, found);
    Store(found.s, f, s.heap[f].refs + [found.u], s.heap[f].stack)
  }

  lemma FunctionKept(s: State, slot: nat, x: Id, f: Id, found: Found)
    requires s.running in s.heap && s.marks.Keys == s.heap.Keys && s.heap[s.running].kind.Thread? && x !in s.heap
    requires forall u :: u in s.heap[s.running].openupval ==> u in s.heap && s.heap[u].place.Open?
    requires f in s.heap && s.heap[f].kind.Function? && found == FindUpval(s, s.running, slot, x)
    ensures f in found.s.heap && found.s.heap[f] == s.heap[f] && f in found.s.marks
    ensures IsWhite(s.marks[f]) && MarkOk(s.heap[f], s.marks[f]) ==> !IsBlack(found.s.marks[f])
  {
    hide FindPos;
  }

  // ----- every step keeps the invariant

  lemma AllocateKeepsInv(s: State, op: Op, r: State)
    requires Inv(s) && Legal(s, op) && IsAllocation(op) && s.mainthread in s.rootgc
    requires (op.NewString? ==> op.chain < |s.strt|) && (op.InternString? ==> op.x in s.marks)
    requires r == Allocate(s, op)
    ensures Inv(r) && Usable(r, op.x)
  {
    hide Structure, Rooted, LiveClosed, SweptWhite, Propagating, Link, LinkAt, LinkString, Revive, Reachable;
    ReachableIsUsable(s);
    match op
    case NewObject(k, x, refs) =>
      LinkKeepsInv(s, x, Obj(k, refs, [], [], Closed), r);
      LinkUsable(s, x, Obj(k, refs, [], [], Closed), 0);
    case NewUserdata(x, refs) =>
      LinkAtKeepsInv(s, x, Obj(Userdata, refs, [], [], Closed), IndexOf(s.rootgc, s.mainthread) + 1, r);
      LinkUsable(s, x, Obj(Userdata, refs, [], [], Closed), IndexOf(s.rootgc, s.mainthread) + 1);
    case NewString(x, b) =>
      LinkStringKeepsInv(s, x, b, r);
      LinkStringUsable(s, x, b);
    case InternString(x) =>
      ReviveKeepsInv(s, x, r);
  }

  lemma LinkUsable(s: State, x: Id, o: Obj, k: nat)
    requires k <= |s.rootgc|
    ensures Usable(Link(s, x, o), x) && Usable(LinkAt(s, x, o, k), x)
  {
  }

  lemma LinkStringUsable(s: State, x: Id, b: nat)
    requires b < |s.strt|
    ensures Usable(LinkString(s, x, b), x)
  {
  }

  lemma StoreFieldKeepsInv(s: State, o: Id, refs: seq<Id>, v: Value, r: State)
    requires Inv(s) && Legal(s, WriteField(o, refs, v)) && r == StoreField(s, o, refs, v)
    ensures Inv(r)
  {
    hide Structure, Rooted, LiveClosed, SweptWhite, Propagating, Write, Store, IsWrite, Fits, Legal;
    RootsReady(s); FieldReady(s, o, refs, v);
    WriteKeepsInv(s, o, refs, v, Store(s, o, refs, s.heap[o].stack), r);
  }

  lemma StoreThroughKeepsInv(s: State, u: Id, v: Value, r: State)
    requires Inv(s) && u in s.heap && IsOpen(s.heap[u]) && Usable(s, u) && (v.Ref? ==> Usable(s, v.o))
    requires r == StoreThrough(s, u, v)
    ensures Inv(r)
  {
    hide RootList, StringTable, UpvalLists, Rooted, LiveClosed, SweptWhite, Propagating, Store;
    UpvalReady(s, u);
    var t := s.heap[u].place.thread;
    StackWrite(s, t, s.heap[u].place.slot, v, r);
  }

  /** Overwriting one slot of any thread in the heap, even a dead one, with a usable value. */
  lemma StackWrite(s: State, t: Id, slot: nat, v: Value, r: State)
    requires Inv(s) && t in s.heap && s.heap[t].kind.Thread? && slot < |s.heap[t].stack| && (v.Ref? ==> Usable(s, v.o))
    requires r == Store(s, t, s.heap[t].refs, s.heap[t].stack[slot := v])
    ensures Inv(r)
  {
    hide RootList, StringTable, Rooted, LiveClosed, SweptWhite, Propagating;
    if Usable(s, t) {
      RefsUsable(s, t);
      forall u | u in s.heap[t].openupval && u in s.heap && IsOpen(s.heap[u])
        ensures s.heap[u].place.slot < |s.heap[t].stack|
      {
        assert IsUpvalOf(s.heap, t, u);
      }
      SetThreadKeepsInv(s, t, s.heap[t].refs, s.heap[t].stack[slot := v], r);
    } else {
      DeadStackWrite(s, t, slot, v, r);
    }
  }

  /** A dead thread may be written through a live upvalue; what else it stores does not matter. */
  lemma DeadStackWrite(s: State, t: Id, slot: nat, v: Value, r: State)
    requires Inv(s) && t in s.heap && s.heap[t].kind.Thread? && !Usable(s, t) && slot < |s.heap[t].stack|
    requires v.Ref? ==> Usable(s, v.o)
    requires r == Store(s, t, s.heap[t].refs, s.heap[t].stack[slot := v])
    ensures Inv(r)
  {
    hide RootList, StringTable, UpvalLists, Rooted, LiveClosed, SweptWhite, Listed, Coloured, Tri;
    if s.phase.Propagate? { NothingDead(s); }
    DeadStoreLists(s, t, slot, v, r);
    RootedKept(s, r);
    DeadStoreLive(s, t, slot, v, r);
  }

  lemma DeadStoreLists(s: State, t: Id, slot: nat, v: Value, r: State)
    requires Structure(s) && t in s.heap && s.heap[t].kind.Thread? && slot < |s.heap[t].stack|
    requires r == Store(s, t, s.heap[t].refs, s.heap[t].stack[slot := v])
    ensures Structure(r)
  {
    hide NoDup, RootList, StringTable;
    StoreLists(s, t, s.heap[t].refs, s.heap[t].stack[slot := v], r);
    forall t', u | t' in r.heap && r.heap[t'].kind.Thread? && u in r.heap[t'].openupval
      ensures IsUpvalOf(r.heap, t', u)
    {
      assert IsUpvalOf(s.heap, t', u);
    }
    forall u | u in r.heap && IsOpen(r.heap[u])
      ensures u in r.uvhead && IsOwned(r.heap, u)
    {
      assert IsOwned(s.heap, u);
    }
  }

  lemma DeadStoreLive(s: State, t: Id, slot: nat, v: Value, r: State)
    requires LiveClosed(s) && SweptWhite(s) && s.marks.Keys == s.heap.Keys && t in s.heap && s.heap[t].kind.Thread?
    requires !Usable(s, t)
    requires slot < |s.heap[t].stack| && (v.Ref? ==> Usable(s, v.o))
    requires r == Store(s, t, s.heap[t].refs, s.heap[t].stack[slot := v])
    ensures LiveClosed(r) && SweptWhite(r)
  {
    forall a, b | a in r.heap && !IsDead(r.white1, r.marks[a]) && RefersTo(r.heap, a, b) ensures Usable(r, b) {
      if !RefersTo(s.heap, a, b) { assert v == Ref(b); }
      assert Usable(s, b);
    }
    forall a | a in r.heap
      ensures MarkOk(r.heap[a], r.marks[a]) && (IsCurrentWhite(r.white1, r.marks[a]) || Unswept(r, a))
    {
      assert MarkOk(s.heap[a], s.marks[a]);
    }
  }

  lemma StoreUpvalKeepsInv(s: State, slot: nat, x: Id, f: Id, r: State)
    requires Inv(s) && Legal(s, OpenUpval(slot, x, f)) && r == StoreUpval(s, slot, x, f)
    ensures Inv(r)
  {
    hide Structure, Rooted, LiveClosed, SweptWhite, Propagating, FindUpval, Store;
    RootsReady(s); OpenReady(s);
    var found := FindUpval(s, s.running, slot, x);
    FunctionKept(s, slot, x, f, found);
    FindUpvalKeepsInv(s, s.running, slot, x, found);
    ReachableIsUsable(s);
    WhiteIsOk(s, f);
    PlainStore(found.s, f, s.heap[f].refs, found.u, r);
  }

  lemma WhiteIsOk(s: State, f: Id)
    requires Inv(s) && f in s.heap && f in s.marks && IsWhite(s.marks[f])
    ensures MarkOk(s.heap[f], s.marks[f])
  {
    hide Structure, Rooted, LiveClosed, Listed, Tri;
  }

  /** A store without a barrier into a function that is not black. */
  lemma PlainStore(s: State, f: Id, refs: seq<Id>, u: Id, r: State)
    requires Inv(s) && f in s.heap && f in s.marks && Usable(s, f) && s.heap[f].kind.Function? && !IsBlack(s.marks[f])
    requires refs == s.heap[f].refs && Usable(s, u) && r == Store(s, f, refs + [u], s.heap[f].stack)
    ensures Inv(r)
  {
    hide RootList, StringTable, UpvalLists, Rooted, SweptWhite, Listed, Coloured, Tri;
    RootsReady(s);
    if s.phase.Propagate? { NothingDead(s); }
    forall y | y in refs ensures Usable(s, y) { assert RefersTo(s.heap, f, y); }
    assert IsWrite(s, f, refs + [u], Ref(u));
    WriteKeepsInv(s, f, refs + [u], Ref(u), r, r);
  }

  lemma WriteStackKeepsInv(s: State, t: Id, refs: seq<Id>, stack: seq<Value>, r: State)
    requires Inv(s) && Legal(s, WriteStack(t, refs, stack)) && r == Store(s, t, refs, stack)
    ensures Inv(r)
  {
    hide Structure, Rooted, LiveClosed, SweptWhite, Propagating, Store, Reachable;
    ReachableIsUsable(s);
    SetThreadKeepsInv(s, t, refs, stack, r);
  }

  /** Changing a root that the mark phase visits in atomic only. */
  lemma RootsKeepInv(s: State, r: State)
    requires Inv(s) && r == s.(mt := r.mt, running := r.running)
    requires r.running in s.heap && s.heap[r.running].kind.Thread? && Usable(s, r.running)
    requires forall x :: Ref(x) in r.mt ==> Usable(s, x)
    ensures Inv(r)
  {
    hide RootList, StringTable, UpvalLists, Rooted, MarkInv, LiveClosed, SweptWhite;
    RootsStructure(s, r);
    RootsRooted(s, r);
    if !s.phase.Propagate? {
      RootsLive(s, r);
      RootsWhite(s, r);
    }
  }

  lemma RootsStructure(s: State, r: State)
    requires Structure(s) && r == s.(mt := r.mt, running := r.running)
    ensures Structure(r)
  {
    hide NoDup, IsChain, IsUpvalOf, IsOwned;
  }

  lemma RootsRooted(s: State, r: State)
    requires Rooted(s) && r == s.(mt := r.mt, running := r.running)
    requires r.running in s.heap && s.heap[r.running].kind.Thread? && Usable(s, r.running)
    requires forall x :: Ref(x) in r.mt ==> Usable(s, x)
    ensures Rooted(r)
  {
    assert forall x :: IsRoot(r, x) ==> IsRoot(s, x) || x == r.running || Ref(x) in r.mt;
    assert forall x :: Usable(s, x) <==> Usable(r, x);
  }

  lemma RootsLive(s: State, r: State)
    requires LiveClosed(s) && r == s.(mt := r.mt, running := r.running)
    ensures LiveClosed(r)
  {
    hide RefersTo;
    forall a, b | a in r.heap && a in r.marks && !IsDead(r.white1, r.marks[a]) && RefersTo(r.heap, a, b)
      ensures Usable(r, b)
    {
      assert Usable(s, b);
    }
  }

  lemma RootsWhite(s: State, r: State)
    requires SweptWhite(s) && r == s.(mt := r.mt, running := r.running)
    ensures SweptWhite(r)
  {
    hide MarkOk;
    forall a | a in r.heap && a in r.marks
      ensures MarkOk(r.heap[a], r.marks[a]) && (IsCurrentWhite(r.white1, r.marks[a]) || Unswept(r, a))
    {
      assert MarkOk(s.heap[a], s.marks[a]);
    }
  }

  lemma FixKeepsInv(s: State, x: Id, r: State)
    requires Inv(s) && x in s.heap && x in s.marks && s.heap[x].kind.String?
    requires r == s.(marks := s.marks[x := s.marks[x].(fixed := true)])
    ensures Inv(r)
  {
    hide RootList, StringTable, UpvalLists, LiveClosed, SweptWhite, Listed, Coloured, Tri, Rooted;
    RemarkedStructure(s, r);
    FixRooted(s, x, r);
    if s.phase.Propagate? {
      FixTri(s.heap, MarkingOf(s), s.white1, OpenUpvals(s.heap), x, MarkingOf(r));
    } else {
      FixLive(s, x, r);
    }
  }

  lemma FixRooted(s: State, x: Id, r: State)
    requires Rooted(s) && x in s.heap && x in s.marks && s.heap[x].kind.String?
    requires r == s.(marks := s.marks[x := s.marks[x].(fixed := true)])
    ensures Rooted(r)
  {
    assert forall y :: IsRoot(r, y) ==> IsRoot(s, y) && Usable(s, y);
  }

  lemma FixTri(h: Heap, m: Marking, w1: bool, exempt: set<Id>, x: Id, m': Marking)
    requires MarkInv(h, m, w1, exempt) && x in h && m' == m.(mk := m.mk[x := m.mk[x].(fixed := true)])
    ensures MarkInv(h, m', w1, exempt)
  {
    hide Listed, Coloured, Tri, NoDangling;
    FixColours(h, m, w1, exempt, m');
  }

  lemma FixColours(h: Heap, m: Marking, w1: bool, exempt: set<Id>, m': Marking)
    requires m.mk.Keys == h.Keys && m'.mk.Keys == h.Keys && NoDangling(h) && m' == m.(mk := m'.mk)
    requires Listed(h, m, exempt) && Coloured(h, m.mk, w1, exempt) && Tri(h, m, exempt)
    requires forall a :: a in h ==> m'.mk[a] == m.mk[a].(fixed := m'.mk[a].fixed)
    ensures Listed(h, m', exempt) && Coloured(h, m'.mk, w1, exempt) && Tri(h, m', exempt)
  {
    hide RefersTo, NoDup;
    forall a, b | a in h && RefersTo(h, a,
      b) && !IsWhite(m'.mk[a]) && a !in exempt && a !in m'.gray && a !in m'.grayagain
      ensures !IsWhite(m'.mk[b])
    {
      assert !IsWhite(m.mk[b]);
    }
  }

  lemma FixLive(s: State, x: Id, r: State)
    requires LiveClosed(s) && SweptWhite(s) && s.marks.Keys == s.heap.Keys && x in s.heap
    requires r == s.(marks := s.marks[x := s.marks[x].(fixed := true)])
    ensures LiveClosed(r) && SweptWhite(r)
  {
    hide RefersTo;
    forall a, b | a in r.heap && !IsDead(r.white1, r.marks[a]) && RefersTo(r.heap, a, b) ensures Usable(r, b) {
      assert Usable(s, b);
    }
    forall a | a in r.heap
      ensures MarkOk(r.heap[a], r.marks[a]) && (IsCurrentWhite(r.white1, r.marks[a]) || Unswept(r, a))
    {
      assert MarkOk(s.heap[a], s.marks[a]);
    }
  }

  lemma MutateKeepsInv(s: State, op: Op, r: State)
    requires Inv(s) && Legal(s, op) && IsStore(op) && r == Mutate(s, op)
    ensures Inv(r)
  {
    hide Structure, Rooted, LiveClosed, SweptWhite, Propagating, StoreUpval, StoreField, StoreThrough, Store, Reachable;
    ReachableIsUsable(s);
    match op
    case OpenUpval(slot, x, f) => StoreUpvalKeepsInv(s, slot, x, f, r);
    case WriteField(o, refs, v) => StoreFieldKeepsInv(s, o, refs, v, r);
    case WriteOpenUpval(u, v) => StoreThroughKeepsInv(s, u, v, r);
    case WriteStack(t, refs, stack) => WriteStackKeepsInv(s, t, refs, stack, r);
  }

  /** Every step of the program and of the collector keeps the invariant. */
  lemma ApplyKeepsInv(s: State, op: Op)
    requires Inv(s) && Legal(s, op)
    ensures Inv(Apply(s, op))
  {
    hide Structure, Rooted, LiveClosed, SweptWhite, Propagating, Mutate, Allocate, SingleStep, FullGc, CloseFrom,
      Reachable;
    var r := Apply(s, op);
    RootsReady(s);
    ReachableIsUsable(s);
    if op.Collect? {
      SingleStepKeepsInv(s);
    } else if IsAllocation(op) {
      AllocateKeepsInv(s, op, Allocate(s, op));
      PushKeepsInv(Allocate(s, op), op.x, r);
    } else if IsStore(op) {
      MutateKeepsInv(s, op, r);
    } else if op.SetMetatables? || op.Resume? {
      MtUsable(s);
      RootsKeepInv(s, r);
    } else if op.FixString? {
      FixKeepsInv(s, op.x, r);
    }
  }

  lemma MtUsable(s: State)
    requires Inv(s)
    ensures forall x :: Ref(x) in s.mt ==> Usable(s, x)
  {
    hide Structure, LiveClosed, SweptWhite, Propagating;
    assert forall x :: Ref(x) in s.mt ==> IsRoot(s, x);
  }

  // ----- no step frees a reachable object

  lemma SingleStepKeepsReachable(s: State, x: Id)
    requires Inv(s) && Reachable(s, x)
    ensures x in SingleStep(s).heap
  {
    hide Structure, Rooted, LiveClosed, SweptWhite, Propagating, Reachable, SweepStrings, SweepStep, SweepsTo;
    ReachableIsUsable(s);
    SingleStepKeepsInv(s);
    if s.phase.SweepString? || s.phase.Sweep? {
      StepSweeps(s);
      KeysMatch(s);
      KeysMatch(SingleStep(s));
      FixedSurvives(s, SingleStep(s));
    }
  }

  lemma {:induction false} CloseFromKeepsUsable(s: State, t: Id, level: nat, x: Id)
    requires Inv(s) && t in s.heap && s.heap[t].kind.Thread? && Usable(s, x)
    ensures x in CloseFrom(s, t, level).heap
    decreases |s.heap[t].openupval|
  {
    hide Structure, Rooted, LiveClosed, SweptWhite, Propagating;
    if s.heap[t].openupval != [] {
      CloseReady(s, t);
      var u := s.heap[t].openupval[0];
      if s.heap[u].place.slot >= level {
        var c := CloseOne(s, t);
        CloseOneKeepsInv(s, t, u, c);
        CloseOneShorter(s, t, c);
        CloseOneKeepsUsable(s, t, u, c, x);
        CloseFromKeepsUsable(c, t, level, x);
      }
    }
  }

  lemma CloseOneKeepsUsable(s: State, t: Id, u: Id, c: State, x: Id)
    requires Inv(s) && Inv(c) && t in s.heap && s.heap[t].kind.Thread? && HasOpen(s, t)
    requires s.phase.Propagate? ==> NoDangling(s.heap)
    requires u == s.heap[t].openupval[0] && u !in s.heap[t].openupval[1..] && c == CloseOne(s, t) && Usable(s, x)
    ensures Usable(c, x)
  {
    hide Structure, Rooted, LiveClosed, SweptWhite, Detach, CloseOne, Listed, Tri, NoDangling;
    if s.phase.Propagate? {
      CloseOneHeap(s, t, u, c);
      NothingDead(c);
    } else {
      CloseOneMarks(s, t, u, Detach(s, t), c);
    }
  }

  lemma CloseOneHeap(s: State, t: Id, u: Id, c: State)
    requires HasOpen(s, t) && (s.phase.Propagate? ==> NoDangling(s.heap)) && u == s.heap[t].openupval[0]
    requires c == CloseOne(s, t)
    ensures c.phase == s.phase && forall x :: x in s.heap && (x != u || !IsDead(s.white1, s.marks[u])) ==> x in c.heap
  {
  }

  lemma MutateKeeps(s: State, op: Op, x: Id)
    requires IsStore(op) && Inv(s) && Legal(s, op) && x in s.heap
    ensures x in Mutate(s, op).heap
  {
    hide Structure, Rooted, LiveClosed, SweptWhite, Propagating, Reachable, FindPos, ReallyMarkObject;
  }

  /** No step of the program or of the collector frees an object the program can reach. */
  lemma ApplyKeepsReachable(s: State, op: Op, x: Id)
    requires Inv(s) && Legal(s, op) && Reachable(s, x)
    ensures x in Apply(s, op).heap
  {
    hide Structure, Rooted, LiveClosed, SweptWhite, Propagating, Mutate, SingleStep, FullGc, CloseFrom, Reachable;
    RootsReady(s);
    ReachableIsUsable(s);
    if op.Collect? {
      SingleStepKeepsReachable(s, x);
    } else if op.CollectAll? {
      FullGcIsExact(s);
    } else if IsStore(op) {
      MutateKeeps(s, op, x);
    } else if op.CloseUpvals? {
      CloseFromKeepsUsable(s, s.running, op.level, x);
    }
  }

  /** A step of the collector changes neither what the program can reach nor what the reachable objects refer to. */
  lemma CollectorIsInvisible(s: State, x: Id)
    requires Inv(s)
    ensures Reachable(s, x) <==> Reachable(SingleStep(s), x)
    ensures Reachable(s, x) ==> x in s.heap && x in SingleStep(s).heap
    ensures Reachable(s, x) ==> forall y :: RefersTo(SingleStep(s).heap, x, y) <==> RefersTo(s.heap, x, y)
  {
    hide Structure, Rooted, LiveClosed, SweptWhite, Propagating, Reachable, SweepStrings, SweepStep, RefersTo,
      PropagateMark, Atomic, MarkRoot;
    ReachableIsUsable(s);
    SingleStepKeepsInv(s);
    if s.phase.SweepString? || s.phase.Sweep? || s.phase.Finalize? {
      StepSweeps(s);
      SweepKeepsReachable(s, SingleStep(s));
      KeysMatch(s);
    } else {
      MarkingSameGraph(s);
      SameGraphReachable(s, SingleStep(s));
    }
  }

  lemma MarkingSameGraph(s: State)
    requires Inv(s) && (s.phase.Pause? || s.phase.Propagate?)
    ensures SameGraph(s, SingleStep(s))
  {
    hide Inv;
  }

  // ----- whole runs

  /** The state lua_newstate leaves: a main thread, its table of globals and the registry, all of white 0. */
  function Initial(main: Id, globals: Id, registry: Id, chains: nat): (s: State)
    requires chains > 0
  {
    var white := Marked(true, false, false, false);
    State(
      map[main := Obj(Thread, [globals], [], [], Closed), globals := Obj(Table, [], [], [], Closed),
        registry := Obj(Table, [], [], [], Closed)],
      map[main := white.(fixed := true), globals := white, registry := white],
      Pause, false, [], [], [registry, globals, main], 0, seq(chains, _ => []), 0, [], main, main, registry, [])
  }

  lemma InitialLists(main: Id, globals: Id, registry: Id, chains: nat, s: State)
    requires chains > 0 && main != globals && main != registry && globals != registry
    requires s == Initial(main, globals, registry, chains)
    ensures Structure(s)
  {
    assert s.heap.Keys == {main, globals, registry} == s.marks.Keys;
    forall b | 0 <= b < |s.strt| ensures IsChain(s.heap, b, s.strt[b]) { assert s.strt[b] == []; }
  }

  lemma InitialInv(main: Id, globals: Id, registry: Id, chains: nat)
    requires chains > 0 && main != globals && main != registry && globals != registry
    ensures Inv(Initial(main, globals, registry, chains))
  {
    hide Structure;
    var s := Initial(main, globals, registry, chains);
    InitialLists(main, globals, registry, chains, s);
    assert forall x :: IsRoot(s, x) ==> x in s.heap;
    forall a, b | a in s.heap && RefersTo(s.heap, a, b) ensures Usable(s, b) { assert b == globals; }
  }

  /** One step of a run. Outside Inv the step is left open: no assumption about it is made. */
  ghost predicate IsStep(s: State, op: Op, r: State) {
    Legal(s, op) && (Inv(s) ==> r == Apply(s, op))
  }

  ghost predicate IsRun(run: seq<State>, ops: seq<Op>) {
    && |run| == |ops| + 1
    && (exists main, globals, registry,
         chains: nat | chains > 0 && main != globals && main != registry && globals != registry
          :: run[0] == Initial(main, globals, registry, chains))
    && forall i :: 0 <= i < |ops| ==> IsStep(run[i], ops[i], run[i + 1])
  }

  lemma {:induction false} RunKeepsInv(run: seq<State>, ops: seq<Op>, i: nat)
    requires IsRun(run, ops) && i < |run|
    ensures Inv(run[i])
    decreases i
  {
    hide Inv, Legal, Apply, Initial;
    if i == 0 {
      var main, globals, registry, chains: nat :|
        && chains > 0 && main != globals && main != registry && globals != registry
        && run[0] == Initial(main, globals, registry, chains);
      InitialInv(main, globals, registry, chains);
    } else {
      RunKeepsInv(run, ops, i - 1);
      assert IsStep(run[i - 1], ops[i - 1], run[i]);
      ApplyKeepsInv(run[i - 1], ops[i - 1]);
    }
  }

  /** In every run, at every moment, whatever the program can reach is in the heap and not dead,
      and the next step, of whatever kind, leaves it there. */
  lemma RunIsSafe(run: seq<State>, ops: seq<Op>, i: nat, x: Id)
    requires IsRun(run, ops) && i < |run| && Reachable(run[i], x)
    ensures Usable(run[i], x)
    ensures i < |ops| ==> x in run[i + 1].heap
  {
    hide Inv, Legal, Apply, Reachable;
    RunKeepsInv(run, ops, i);
    ReachableIsUsable(run[i]);
    if i < |ops| {
      assert IsStep(run[i], ops[i], run[i + 1]);
      ApplyKeepsReachable(run[i], ops[i], x);
    }
  }
}
