/** global_State as the collector sees it, reachability, and the invariant of every collector state. */
module GcState {
  import opened GcHeap
  import opened GcMark
  import opened GcTri

  datatype GcPhase = Pause | Propagate | SweepString | Sweep | Finalize

  /** `sweepgc` is the number of objects of `rootgc` in front of the sweep pointer; `strt` is the string table;
      `uvhead` lists all open upvalues; `running` is the thread that runs the collector; `mt` holds the basic
      metatables. */
  datatype State = State(
    heap: Heap,
    marks: Marks,
    phase: GcPhase,
    white1: bool,
    gray: seq<Id>,
    grayagain: seq<Id>,
    rootgc: seq<Id>,
    sweepgc: nat,
    strt: seq<seq<Id>>,
    sweepstrgc: nat,
    uvhead: seq<Id>,
    mainthread: Id,
    running: Id,
    registry: Id,
    mt: seq<Value>)

  // ----- reachability

  predicate IsRoot(s: State, x: Id) {
    x == s.mainthread || x == s.running || x == s.registry || Ref(x) in s.mt
  }

  /** A chain of references from a root. The last object need not be in the heap: then it dangles. */
  ghost predicate IsPath(s: State, p: seq<Id>) {
    && p != [] && IsRoot(s, p[0])
    && forall i :: 0 <= i < |p| - 1 ==> p[i] in s.heap && RefersTo(s.heap, p[i], p[i + 1])
  }

  ghost predicate Reachable(s: State, x: Id) {
    exists p :: IsPath(s, p) && p[|p| - 1] == x
  }

  /** S holds the roots and is closed under references. */
  ghost predicate IsClosed(s: State, S: set<Id>) {
    && (forall x :: IsRoot(s, x) ==> x in S)
    && (forall x, y :: x in s.heap && RefersTo(s.heap, x, y) && x in S ==> y in S)
  }

  lemma {:induction false} PathWithin(s: State, S: set<Id>, p: seq<Id>)
    requires IsClosed(s, S) && IsPath(s, p)
    ensures p[|p| - 1] in S
    decreases |p|
  {
    if |p| > 1 {
      var q := p[..|p| - 1];
      assert IsPath(s, q);
      PathWithin(s, S, q);
      assert RefersTo(s.heap, p[|p| - 2], p[|p| - 1]);
    }
  }

  lemma ReachableWithin(s: State, S: set<Id>)
    requires IsClosed(s, S)
    ensures forall x :: Reachable(s, x) ==> x in S
  {
    forall x | Reachable(s, x) ensures x in S {
      var p :| IsPath(s, p) && p[|p| - 1] == x;
      PathWithin(s, S, p);
    }
  }

  lemma ReachableStep(s: State, x: Id, y: Id)
    requires x in s.heap && Reachable(s, x) && RefersTo(s.heap, x, y)
    ensures Reachable(s, y)
  {
    var p :| IsPath(s, p) && p[|p| - 1] == x;
    var q := p + [y];
    assert IsPath(s, q) && q[|q| - 1] == y;
  }

  lemma RootIsReachable(s: State, x: Id)
    requires IsRoot(s, x)
    ensures Reachable(s, x)
  {
    assert IsPath(s, [x]) && [x][|[x]| - 1] == x;
  }

  // ----- the lists every object is on

  ghost predicate RootList(s: State) {
    && NoDup(s.rootgc) && s.sweepgc <= |s.rootgc| && (s.phase.SweepString? ==> s.sweepgc == 0)
    && (forall x :: x in s.rootgc ==> x in s.heap && !s.heap[x].kind.String? && !IsOpen(s.heap[x]))
    && (forall x :: x in s.heap && !s.heap[x].kind.String? && !IsOpen(s.heap[x]) ==> x in s.rootgc)
  }

  /** xs is a chain of distinct strings that hash to b. */
  ghost predicate IsChain(h: Heap, b: nat, xs: seq<Id>) {
    NoDup(xs) && forall x :: x in xs ==> x in h && h[x].kind.String? && h[x].place == Bucket(b)
  }

  ghost predicate StringTable(s: State) {
    && s.sweepstrgc <= |s.strt| && |s.strt| > 0 && (s.phase.SweepString? ==> s.sweepstrgc < |s.strt|)
    && (forall b :: 0 <= b < |s.strt| ==> IsChain(s.heap, b, s.strt[b]))
    && (forall x :: x in s.heap && s.heap[x].kind.String? ==>
          s.heap[x].place.Bucket? && s.heap[x].place.chain < |s.strt| && x in s.strt[s.heap[x].place.chain])
  }

  /** u is a well-placed open upvalue of thread t. */
  predicate IsUpvalOf(h: Heap, t: Id, u: Id)
    requires t in h
  {
    u in h && IsOpen(h[u]) && h[u].place.thread == t && h[u].place.slot < |h[t].stack|
  }

  ghost predicate UpvalLists(s: State) {
    && (forall t, u :: t in s.heap && s.heap[t].kind.Thread? && u in s.heap[t].openupval ==> IsUpvalOf(s.heap, t, u))
    && (forall t :: t in s.heap && s.heap[t].kind.Thread? ==> NoDup(s.heap[t].openupval))
    && (forall u :: u in s.uvhead ==> u in s.heap && IsOpen(s.heap[u]))
    && (forall u :: u in s.heap && IsOpen(s.heap[u]) ==> u in s.uvhead && IsOwned(s.heap, u))
  }

  /** The thread of the open upvalue u lists it. */
  predicate IsOwned(h: Heap, u: Id)
    requires u in h && IsOpen(h[u])
  {
    var t := h[u].place.thread;
    t in h && h[t].kind.Thread? && u in h[t].openupval
  }

  ghost predicate Structure(s: State) {
    && s.marks.Keys == s.heap.Keys
    && RootList(s) && StringTable(s) && UpvalLists(s)
  }

  /** Every object is on the list the sweep will find it by. */
  predicate IsPlaced(s: State, x: Id)
    requires x in s.heap
  {
    var o := s.heap[x];
    if o.kind.String? then o.place.Bucket? && o.place.chain < |s.strt| && x in s.strt[o.place.chain]
    else if IsOpen(o) then o.place.thread in s.rootgc
    else x in s.rootgc
  }

  lemma Placed(s: State, x: Id)
    requires Structure(s) && x in s.heap
    ensures IsPlaced(s, x)
  {
    hide NoDup, IsChain;
    if IsOpen(s.heap[x]) { assert IsOwned(s.heap, x); }
  }

  // ----- the invariant

  predicate Usable(s: State, x: Id) {
    x in s.heap && x in s.marks && !IsDead(s.white1, s.marks[x])
  }

  ghost predicate Rooted(s: State) {
    && (forall x :: IsRoot(s, x) ==> Usable(s, x))
    && s.mainthread in s.heap && s.running in s.heap
    && s.heap[s.mainthread].kind.Thread? && s.heap[s.running].kind.Thread?
    && (forall x :: x in s.heap && x in s.marks && s.marks[x].fixed ==> s.heap[x].kind.String? || x == s.mainthread)
  }

  function MarkingOf(s: State): Marking { Marking(s.marks, s.gray, s.grayagain) }

  /** The propagate state: the tri-colour invariant, with the roots of markroot marked. */
  ghost predicate Propagating(s: State) {
    && MarkInv(s.heap, MarkingOf(s), s.white1, OpenUpvals(s.heap))
    && s.mainthread in s.marks && !IsWhite(s.marks[s.mainthread])
    && s.registry in s.marks && !IsWhite(s.marks[s.registry])
  }

  /** Objects the sweep has not visited yet. */
  predicate Unswept(s: State, x: Id)
    requires x in s.heap
  {
    match s.phase
    case SweepString => s.heap[x].kind.String? ==> s.heap[x].place.Bucket? && s.sweepstrgc <= s.heap[x].place.chain
    case Sweep =>
      s.sweepgc <= |s.rootgc| &&
      (x in s.rootgc[s.sweepgc..] || (IsOpen(s.heap[x]) && s.heap[x].place.thread in s.rootgc[s.sweepgc..]))
    case _ => false
  }

  lemma UnsweptKept(s: State, r: State, x: Id)
    requires x in s.heap && x in r.heap && r.heap[x].kind == s.heap[x].kind && r.heap[x].place == s.heap[x].place
    requires Unswept(s, x) && r.phase == s.phase && r.sweepstrgc == s.sweepstrgc
    requires s.sweepgc <= |s.rootgc| && r.sweepgc <= |r.rootgc|
    requires forall y ::
        y in s.rootgc[s.sweepgc..] && (y == x || !IsOpen(s.heap[x]) || y == s.heap[x].place.thread) ==>
          y in r.rootgc[r.sweepgc..]
    ensures Unswept(r, x)
  {
  }

  /** Every other state: live objects refer to live objects only, and what has been swept is white. */
  ghost predicate LiveClosed(s: State) {
    forall x, y | x in s.heap && x in s.marks && !IsDead(s.white1, s.marks[x]) && RefersTo(s.heap, x, y) :: Usable(s, y)
  }

  predicate MarkOk(o: Obj, m: Marked) {
    && !(m.white0 && m.white1) && (IsWhite(m) ==> !m.black)
    && (m.black ==> !o.kind.String? && !o.kind.Thread? && !IsOpen(o))
  }

  ghost predicate SweptWhite(s: State) {
    && (forall x :: x in s.heap && x in s.marks ==> MarkOk(s.heap[x], s.marks[x]))
    && (forall x :: x in s.heap && x in s.marks ==> IsCurrentWhite(s.white1, s.marks[x]) || Unswept(s, x))
  }

  ghost predicate Inv(s: State) {
    && Structure(s) && Rooted(s)
    && if s.phase.Propagate? then Propagating(s) else LiveClosed(s) && SweptWhite(s)
  }

  /** In every state of the invariant the program can only reach objects that are in the heap and not dead. */
  lemma ReachableIsUsable(s: State)
    requires Inv(s)
    ensures forall x :: Reachable(s, x) ==> Usable(s, x)
  {
    var live := set x | x in s.heap && Usable(s, x);
    if s.phase.Propagate? {
      NothingDead(s);
    }
    assert IsClosed(s, live);
    ReachableWithin(s, live);
  }

  lemma NothingDead(s: State)
    requires Propagating(s)
    ensures forall x :: x in s.heap ==> Usable(s, x)
  {
    hide Listed, Tri, NoDangling;
  }
}
