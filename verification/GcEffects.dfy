/** What the steps of a program change in the heap, which upvalue a closure gets, and that in every run the open
    upvalues of a thread are in the order of their slots. */
module GcEffects {
  import opened GcHeap
  import opened GcMark
  import opened GcTri
  import opened GcState
  import opened GcUpval
  import opened GcStep
  import opened GcMutator
  import opened GcOpen
  import opened GcFull
  import opened GcOrder
  import opened GcRun

  // ----- luaF_findupval

  /** u is the open upvalue of a stack slot. */
  predicate IsAt(h: Heap, u: Id, t: Id, slot: nat) { u in h && IsOpen(h[u]) && h[u].place == Open(t, slot) }

  /** The search stops at the upvalue of the slot, if there is one. */
  lemma FoundAt(s: State, t: Id, slot: nat, k: nat)
    requires UpvalLists(s) && t in s.heap && s.heap[t].kind.Thread? && Ordered(s.heap)
    requires forall u :: u in s.heap[t].openupval ==> u in s.heap && s.heap[u].place.Open?
    requires forall i :: 0 <= i < |s.heap[t].openupval| ==> s.heap[t].openupval[i] in s.heap[t].openupval
    requires k == FindPos(s.heap, s.heap[t].openupval, slot)
    ensures forall v :: IsAt(s.heap, v, t, slot) ==> k < |s.heap[t].openupval| && v == s.heap[t].openupval[k]
  {
    hide NoDup, FindPos;
    var us := s.heap[t].openupval;
    assert Descending(s.heap, us);
    forall v | IsAt(s.heap, v, t, slot) ensures k < |us| && v == us[k] {
      assert IsOwned(s.heap, v);
      var i :| 0 <= i < |us| && us[i] == v;
      assert i > k ==> Higher(s.heap, us[k], us[i]);
    }
  }

  /** Putting an upvalue of slot in front of the lower ones. */
  lemma InsertDescends(h: Heap, us: seq<Id>, x: Id, k: nat)
    requires k <= |us| && Descending(h, us) && x in h && h[x].place.Open?
    requires forall u :: u in us ==> u in h && h[u].place.Open?
    requires forall i :: 0 <= i < k ==> h[us[i]].place.slot > h[x].place.slot
    requires forall i :: k <= i < |us| ==> h[us[i]].place.slot < h[x].place.slot
    ensures Descending(h, us[..k] + [x] + us[k..])
  {
    var ys := us[..k] + [x] + us[k..];
    forall i, j | 0 <= i < j < |ys| ensures Higher(h, ys[i], ys[j]) {
      var a, b := if i <= k then i else i - 1, if j <= k then j else j - 1;
      assert i != k ==> ys[i] == us[a];
      assert j != k ==> ys[j] == us[b];
      if i != k && j != k { assert Higher(h, us[a], us[b]); }
    }
  }

  lemma NewUpvalOrdered(s: State, t: Id, slot: nat, x: Id, k: nat, h: Heap)
    requires UpvalLists(s) && t in s.heap && s.heap[t].kind.Thread? && Ordered(s.heap) && x !in s.heap
    requires k <= |s.heap[t].openupval| && h == NewUpval(s, t, slot, x, k).heap
    requires forall i :: 0 <= i < k ==>
        s.heap[t].openupval[i] in s.heap && s.heap[s.heap[t].openupval[i]].place.Open? &&
        s.heap[s.heap[t].openupval[i]].place.slot > slot
    requires k < |s.heap[t].openupval| ==>
        s.heap[t].openupval[k] in s.heap && s.heap[s.heap[t].openupval[k]].place.Open? &&
        s.heap[s.heap[t].openupval[k]].place.slot < slot
    ensures Ordered(h)
  {
    hide NoDup, Descending;
    forall y | y in h && h[y].kind.Thread? ensures Descending(h, h[y].openupval) {
      var us := s.heap[y].openupval;
      assert Descending(s.heap, us);
      forall u | u in us ensures u in h && u in s.heap && h[u].place == s.heap[u].place && h[u].place.Open? {
        assert IsUpvalOf(s.heap, y, u);
      }
      StillDescends(s.heap, h, us);
      if y == t {
        LowerAfter(h, us, k);
        InsertDescends(h, us, x, k);
      }
    }
  }

  lemma LowerAfter(h: Heap, us: seq<Id>, k: nat)
    requires Descending(h, us)
    ensures forall i :: k < i < |us| ==> Higher(h, us[k], us[i])
  {
  }

  /** From h to h' the upvalue u has joined the list of t, if it was not there before; all else is as it was. */
  ghost predicate Joined(h: Heap, h': Heap, t: Id, u: Id)
    requires t in h
  {
    && h'.Keys == h.Keys + {u} && h'[t] == h[t].(openupval := h'[t].openupval)
    && forall y :: y in h && y != t ==> h'[y] == h[y]
  }

  /** luaF_findupval(t, slot): the upvalue that is open at the slot, if there is one, and otherwise the new object x. */
  lemma FindUpvalIs(s: State, t: Id, slot: nat, x: Id, f: Found)
    requires UpvalLists(s) && s.marks.Keys == s.heap.Keys && Ordered(s.heap)
    requires t in s.heap && s.heap[t].kind.Thread? && x !in s.heap
    requires forall u :: u in s.heap[t].openupval ==> u in s.heap && s.heap[u].place.Open?
    requires f == FindUpval(s, t, slot, x)
    ensures IsAt(f.s.heap, f.u, t, slot) && Joined(s.heap, f.s.heap, t, f.u) && Ordered(f.s.heap)
    ensures forall v :: IsAt(s.heap, v, t, slot) ==> v == f.u
    ensures (forall v :: !IsAt(s.heap, v, t, slot)) ==> f.u == x
  {
    hide UpvalLists, FindPos, Ordered;
    var us := s.heap[t].openupval;
    assert forall i :: 0 <= i < |us| ==> us[i] in us;
    var k := FindPos(s.heap, us, slot);
    FoundAt(s, t, slot, k);
    if k < |us| && s.heap[us[k]].place.slot == slot {
      ListedIsAt(s, t, us[k]);
    } else {
      NewUpvalOrdered(s, t, slot, x, k, f.s.heap);
    }
  }

  lemma ListedIsAt(s: State, t: Id, u: Id)
    requires UpvalLists(s) && t in s.heap && s.heap[t].kind.Thread? && u in s.heap[t].openupval
    ensures u in s.heap && s.heap[u].place.Open? && IsAt(s.heap, u, t, s.heap[u].place.slot)
  {
    hide NoDup;
    assert IsUpvalOf(s.heap, t, u);
  }

  // ----- what a step of a program changes

  /** The closure f has got the upvalue u: the one open at the slot, or else x, which is open there now. */
  ghost predicate GetsUpval(h: Heap, h': Heap, t: Id, slot: nat, x: Id, f: Id, u: Id) {
    && t in h && f in h && f != t && IsAt(h', u, t, slot)
    && (forall v :: IsAt(h, v, t, slot) ==> v == u) && ((forall v :: !IsAt(h, v, t, slot)) ==> u == x)
    && h'.Keys == h.Keys + {u} && h'[t] == h[t].(openupval := h'[t].openupval)
    && h'[f] == h[f].(refs := h[f].refs + [u])
    && forall y :: y in h && y != t && y != f ==> h'[y] == h[y]
  }

  function PushOn(o: Obj, x: Id): Obj { o.(stack := o.stack + [Ref(x)]) }

  /** What the objects are after the step. */
  ghost predicate Effect(s: State, op: Op, h': Heap)
    requires s.running in s.heap
  {
    var h, t := s.heap, s.running;
    match op
    case Collect => Tidied(h, h')
    case CollectAll => Tidied(h, h')
    case NewObject(k, x, refs) => h' == h[x := Obj(k, refs, [], [], Closed)][t := PushOn(h[t], x)]
    case NewUserdata(x, refs) => h' == h[x := Obj(Userdata, refs, [], [], Closed)][t := PushOn(h[t], x)]
    case NewString(x, b) => h' == h[x := Obj(String, [], [], [], Bucket(b))][t := PushOn(h[t], x)]
    case InternString(x) => h' == h[t := PushOn(h[t], x)]
    case OpenUpval(slot, x, f) => exists u :: GetsUpval(h, h', t, slot, x, f, u)
    case CloseUpvals(level) => Tidied(h, h') && Untouched(h, h', t, level) && NoneOpen(h', t, level)
    case WriteField(o, refs, v) => o in h && h' == h[o := h[o].(refs := refs)]
    case WriteOpenUpval(u, v) =>
      && u in h && h[u].place.Open? && h[u].place.thread in h && h[u].place.slot < |h[h[u].place.thread].stack|
      && var w := h[u].place.thread; h' == h[w := h[w].(stack := h[w].stack[h[u].place.slot := v])]
    case WriteStack(w, refs, stack) => w in h && h' == h[w := h[w].(refs := refs, stack := stack)]
    case _ => h' == h
  }

  /** Objects that keep their place and their list, and new ones without a list, leave all lists ordered. */
  lemma OrderedKept(h: Heap, h': Heap)
    requires Ordered(h) && forall x :: x in h ==> x in h'
    requires forall x :: x in h ==> h'[x].kind == h[x].kind && h'[x].place == h[x].place
    requires forall x :: x in h ==> h'[x].openupval == h[x].openupval
    requires forall x :: x in h' && x !in h ==> h'[x].openupval == []
    ensures Ordered(h')
  {
    forall t | t in h' && h'[t].kind.Thread? ensures Descending(h', h'[t].openupval) {
      if t in h {
        var us := h[t].openupval;
        assert Descending(h, us);
        forall i, j | 0 <= i < j < |us| ensures Higher(h', us[i], us[j]) { assert Higher(h, us[i], us[j]); }
      }
    }
  }

  lemma OpenUpvalIs(s: State, slot: nat, x: Id, f: Id, r: State)
    requires Inv(s) && Legal(s, OpenUpval(slot, x, f)) && Ordered(s.heap)
    requires r == Mutate(s, OpenUpval(slot, x, f))
    ensures s.running in s.heap && Effect(s, OpenUpval(slot, x, f), r.heap) && Ordered(r.heap)
  {
    hide RootList, StringTable, UpvalLists, Rooted, LiveClosed, SweptWhite, Propagating, Ordered, FindUpval, Reachable;
    RootsReady(s);
    OpenReady(s);
    var found := FindUpval(s, s.running, slot, x);
    FunctionKept(s, slot, x, f, found);
    FindUpvalIs(s, s.running, slot, x, found);
    OrderedKept(found.s.heap, r.heap);
    assert GetsUpval(s.heap, r.heap, s.running, slot, x, f, found.u);
  }

  /** The objects with the one an allocation makes. */
  function Made(h: Heap, op: Op): Heap
    requires IsAllocation(op)
  {
    match op
    case NewObject(k, x, refs) => h[x := Obj(k, refs, [], [], Closed)]
    case NewUserdata(x, refs) => h[x := Obj(Userdata, refs, [], [], Closed)]
    case NewString(x, b) => h[x := Obj(String, [], [], [], Bucket(b))]
    case _ => h
  }

  lemma MadeIs(s: State, op: Op)
    requires IsAllocation(op) && s.mainthread in s.rootgc
    requires (op.NewString? ==> op.chain < |s.strt|) && (op.InternString? ==> op.x in s.marks)
    ensures Allocate(s, op).heap == Made(s.heap, op)
  {
  }

  lemma AllocationIs(s: State, op: Op, r: State)
    requires Inv(s) && Legal(s, op) && IsAllocation(op) && s.running in s.heap && r == Apply(s, op)
    ensures Effect(s, op, r.heap) && (Ordered(s.heap) ==> Ordered(r.heap))
  {
    hide Inv, Ordered, Reachable, Allocate, IsRoot;
    RootsReady(s);
    MadeIs(s, op);
    if Ordered(s.heap) { OrderedKept(s.heap, r.heap); }
  }

  lemma WriteHeap(s: State, o: Id, refs: seq<Id>, v: Value)
    requires s.marks.Keys == s.heap.Keys && o in s.heap && Fits(s, o, refs, s.heap[o].stack)
    requires s.phase.Propagate? ==> NoDangling(s.heap) && UpvalLists(s)
    ensures Write(s, o, refs, v).heap == s.heap[o := s.heap[o].(refs := refs)]
  {
    hide Fits, NoDangling, UpvalLists, ReallyMarkObject;
  }

  lemma FieldStoreIs(s: State, op: Op, r: State)
    requires Inv(s) && Legal(s, op) && op.WriteField? && s.running in s.heap && r == Mutate(s, op)
    ensures Effect(s, op, r.heap) && (Ordered(s.heap) ==> Ordered(r.heap))
  {
    hide Rooted, Structure, Propagating, LiveClosed, SweptWhite, Ordered, Reachable, Fits, NoDangling, UpvalLists,
      Write, IsWrite;
    RootsReady(s);
    FieldReady(s, op.o, op.refs, op.v);
    ForWrite(s);
    WriteHeap(s, op.o, op.refs, op.v);
    if Ordered(s.heap) { OrderedKept(s.heap, r.heap); }
  }

  lemma ForWrite(s: State)
    requires Inv(s)
    ensures s.phase.Propagate? ==> NoDangling(s.heap) && UpvalLists(s)
  {
    hide RootList, StringTable, NoDangling, UpvalLists, Rooted, LiveClosed, SweptWhite;
  }

  lemma UpvalStoreIs(s: State, op: Op, r: State)
    requires Inv(s) && Legal(s, op) && op.WriteOpenUpval? && s.running in s.heap && r == Mutate(s, op)
    ensures Effect(s, op, r.heap) && (Ordered(s.heap) ==> Ordered(r.heap))
  {
    hide Inv, Ordered, Reachable, ReallyMarkObject, Fits, NoDangling, UpvalLists;
    RootsReady(s);
    UpvalReady(s, op.u);
    if Ordered(s.heap) { OrderedKept(s.heap, r.heap); }
  }

  lemma StackStoreIs(s: State, op: Op, r: State)
    requires Inv(s) && Legal(s, op) && op.WriteStack? && s.running in s.heap && r == Mutate(s, op)
    ensures Effect(s, op, r.heap) && (Ordered(s.heap) ==> Ordered(r.heap))
  {
    hide Inv, Ordered, Reachable, ReallyMarkObject, Fits, NoDangling, UpvalLists;
    RootsReady(s);
    if Ordered(s.heap) { OrderedKept(s.heap, r.heap); }
  }

  /** Every step changes exactly what it is said to change, and keeps the lists of open upvalues ordered. */
  lemma ApplyIs(s: State, op: Op)
    requires Inv(s) && Legal(s, op) && Ordered(s.heap)
    ensures s.running in s.heap && Effect(s, op, Apply(s, op).heap) && Ordered(Apply(s, op).heap)
  {
    hide Structure, Rooted, Propagating, LiveClosed, SweptWhite, Ordered, Tidied, Untouched, NoneOpen, Mutate,
      SingleStep, FullGc, CloseFrom, Reachable;
    RootsReady(s);
    if op.Collect? { StepTidies(s); TidiedOrdered(s.heap, SingleStep(s).heap); }
    else if op.CollectAll? { FullGcTidies(s); TidiedOrdered(s.heap, FullGc(s).heap); }
    else if op.CloseUpvals? { CloseIs(s, op.level); }
    else if IsAllocation(op) { AllocationIs(s, op, Apply(s, op)); }
    else if op.OpenUpval? { OpenUpvalIs(s, op.slot, op.x, op.f, Apply(s, op)); }
    else if op.WriteField? { FieldStoreIs(s, op, Apply(s, op)); }
    else if op.WriteOpenUpval? { UpvalStoreIs(s, op, Apply(s, op)); }
    else if op.WriteStack? { StackStoreIs(s, op, Apply(s, op)); }
  }

  lemma CloseIs(s: State, level: nat)
    requires Inv(s) && s.running in s.heap && s.heap[s.running].kind.Thread? && Ordered(s.heap)
    ensures Ordered(CloseFrom(s, s.running, level).heap)
    ensures Effect(s, CloseUpvals(level), CloseFrom(s, s.running, level).heap)
  {
    hide Inv, Ordered, Tidied, Untouched, NoneOpen, CloseFrom;
    CloseFromIs(s, s.running, level);
    TidiedOrdered(s.heap, CloseFrom(s, s.running, level).heap);
  }

  // ----- whole runs

  lemma {:induction false} RunIsOrdered(run: seq<State>, ops: seq<Op>, i: nat)
    requires IsRun(run, ops) && i < |run|
    ensures Ordered(run[i].heap)
    decreases i
  {
    hide Inv, Legal, Apply, Ordered;
    if i == 0 {
      InitialOrdered(run, ops);
    } else {
      RunIsOrdered(run, ops, i - 1);
      RunKeepsInv(run, ops, i - 1);
      assert IsStep(run[i - 1], ops[i - 1], run[i]);
      ApplyIs(run[i - 1], ops[i - 1]);
    }
  }

  lemma InitialOrdered(run: seq<State>, ops: seq<Op>)
    requires IsRun(run, ops)
    ensures Ordered(run[0].heap)
  {
    hide Legal, Apply, Inv;
  }

  /** In every run, whatever the collector does in between: each step changes in the heap exactly what it is said to
      change. */
  lemma RunIsExact(run: seq<State>, ops: seq<Op>, i: nat)
    requires IsRun(run, ops) && i < |ops|
    ensures run[i].running in run[i].heap && Effect(run[i], ops[i], run[i + 1].heap)
  {
    hide Inv, Legal, Apply, Ordered, Effect;
    RunIsOrdered(run, ops, i);
    RunKeepsInv(run, ops, i);
    assert IsStep(run[i], ops[i], run[i + 1]);
    ApplyIs(run[i], ops[i]);
  }

  /** In every run, at every moment, the slots along the list of open upvalues of a thread strictly decrease, and so no
      slot has two open upvalues. */
  lemma RunSlotsDescend(run: seq<State>, ops: seq<Op>, k: nat, t: Id, i: nat, j: nat)
    requires IsRun(run, ops) && k < |run| && t in run[k].heap && run[k].heap[t].kind.Thread?
    requires i < j < |run[k].heap[t].openupval|
    ensures var h, us := run[k].heap, run[k].heap[t].openupval;
      && IsUpvalOf(h, t, us[i]) && IsUpvalOf(h, t, us[j]) && h[us[i]].place.slot > h[us[j]].place.slot
  {
    hide IsRun, Rooted, Propagating, LiveClosed, SweptWhite;
    RunIsOrdered(run, ops, k);
    RunKeepsInv(run, ops, k);
    var h, us := run[k].heap, run[k].heap[t].openupval;
    assert Descending(h, us) && Higher(h, us[i], us[j]);
    assert us[i] in us && us[j] in us;
  }

  lemma OnePerSlot(run: seq<State>, ops: seq<Op>, k: nat, u: Id, v: Id)
    requires IsRun(run, ops) && k < |run| && u in run[k].heap && v in run[k].heap && IsOpen(run[k].heap[u])
    requires IsOpen(run[k].heap[v]) && run[k].heap[u].place == run[k].heap[v].place
    ensures u == v
  {
    hide IsRun, Rooted, Propagating, LiveClosed, SweptWhite, NoDup;
    RunKeepsInv(run, ops, k);
    var h, t := run[k].heap, run[k].heap[u].place.thread;
    assert IsOwned(h, u) && IsOwned(h, v);
    var us := h[t].openupval;
    var i :| 0 <= i < |us| && us[i] == u;
    var j :| 0 <= j < |us| && us[j] == v;
    if i < j { RunSlotsDescend(run, ops, k, t, i, j); } else if j < i { RunSlotsDescend(run, ops, k, t, j, i); }
  }
}
