/** sweeplist over the string chains, the open upvalues and the root list, with the closing of upvalues it causes. */
module GcSweep {
  import opened GcHeap
  import opened GcMark
  import opened GcTri
  import opened GcState

  // ----- list helpers

  function Remove(xs: seq<Id>, x: Id): (r: seq<Id>)
    ensures forall y :: y in r <==> y in xs && y != x
    ensures NoDup(xs) ==> NoDup(r)
    ensures |r| <= |xs|
  {
    if xs == [] then []
    else
      assert forall y :: y in xs <==> y == xs[0] || y in xs[1..];
      assert NoDup(xs) ==> NoDup(xs[1..]) && xs[0] !in xs[1..];
      if xs[0] == x then Remove(xs[1..], x) else [xs[0]] + Remove(xs[1..], x)
  }

  function Keep(xs: seq<Id>, mk: Marks): (r: seq<Id>)
    ensures forall y :: y in r <==> y in xs && y in mk
  {
    if xs == [] then []
    else
      assert forall y :: y in xs <==> y == xs[0] || y in xs[1..];
      if xs[0] in mk then [xs[0]] + Keep(xs[1..], mk) else Keep(xs[1..], mk)
  }

  // ----- sweeping a chain of strings or of open upvalues

  datatype Swept = Swept(list: seq<Id>, mk: Marks)

  /** sweepwholelist on objects that are not threads: free the dead, whiten the others. */
  function SweepChain(mk: Marks, w1: bool, xs: seq<Id>): (r: Swept)
    requires NoDup(xs) && forall x :: x in xs ==> x in mk
  {
    if xs == [] then Swept([], mk)
    else
      var x := xs[0];
      assert forall y :: y in xs[1..] ==> y in xs;
      if Survives(w1, mk[x]) then
        var r := SweepChain(mk[x := White(w1, mk[x])], w1, xs[1..]);
        r.(list := [x] + r.list)
      else SweepChain(mk - {x}, w1, xs[1..])
  }

  lemma {:induction false} SweepChainFacts(mk: Marks, w1: bool, xs: seq<Id>)
    requires NoDup(xs) && forall x :: x in xs ==> x in mk
    ensures SweepChain(mk, w1, xs).mk.Keys <= mk.Keys
    ensures forall y :: y in mk && y !in xs ==> y in SweepChain(mk, w1, xs).mk && SweepChain(mk, w1, xs).mk[y] == mk[y]
    ensures forall x :: x in xs ==> (x in SweepChain(mk, w1, xs).mk <==> Survives(w1, mk[x]))
    ensures forall x :: x in xs && x in SweepChain(mk, w1, xs).mk ==> SweepChain(mk, w1, xs).mk[x] == White(w1, mk[x])
    ensures forall x :: x in SweepChain(mk, w1, xs).list <==> x in xs && x in SweepChain(mk, w1, xs).mk
    ensures NoDup(SweepChain(mk, w1, xs).list)
    decreases |xs|
  {
    if xs != [] {
      var x := xs[0];
      assert forall y :: y in xs <==> y == x || y in xs[1..];
      SweepChainFacts(if Survives(w1, mk[x]) then mk[x := White(w1, mk[x])] else mk - {x}, w1, xs[1..]);
    }
  }

  /** The heap without the objects that lost their marks. */
  function Restrict(h: Heap, mk: Marks): (r: Heap)
    ensures r.Keys == h.Keys * mk.Keys
    ensures forall x :: x in r ==> r[x] == h[x]
  {
    map x | x in h && x in mk :: h[x]
  }

  /** GCSsweepstring: sweep one chain of the string table. */
  function SweepStrings(s: State): (r: State)
    requires s.marks.Keys == s.heap.Keys && s.sweepstrgc < |s.strt|
    requires NoDup(s.strt[s.sweepstrgc]) && forall x :: x in s.strt[s.sweepstrgc] ==> x in s.heap
  {
    var c := SweepChain(s.marks, s.white1, s.strt[s.sweepstrgc]);
    s.(marks := c.mk, heap := Restrict(s.heap, c.mk), strt := s.strt[s.sweepstrgc := c.list],
       sweepstrgc := s.sweepstrgc + 1, phase := if s.sweepstrgc + 1 >= |s.strt| then Sweep else SweepString)
  }

  /** Sweep the open upvalues of thread t; freed ones also leave uvhead. */
  function SweepUpvals(s: State, t: Id): (r: State)
    requires s.marks.Keys == s.heap.Keys && t in s.heap
    requires NoDup(s.heap[t].openupval) && forall u :: u in s.heap[t].openupval ==> u in s.heap && u != t
  {
    var c := SweepChain(s.marks, s.white1, s.heap[t].openupval);
    s.(marks := c.mk, heap := Restrict(s.heap, c.mk)[t := s.heap[t].(openupval := c.list)],
      uvhead := Keep(s.uvhead, c.mk))
  }

  // ----- what removing dead objects keeps

  /** h' has lost objects and open-upvalue list entries, and nothing else. */
  ghost predicate SubHeap(h: Heap, h': Heap) {
    forall x :: x in h' ==> x in h && h'[x].(openupval := h[x].openupval) == h[x]
  }

  /** Objects without survival bits may go; the others stay and may turn white. */
  ghost predicate Culled(w1: bool, mk: Marks, mk': Marks) {
    && (forall x :: x in mk' ==> x in mk && (mk'[x] == mk[x] || (Survives(w1, mk[x]) && mk'[x] == White(w1, mk[x]))))
    && (forall x :: x in mk && Survives(w1, mk[x]) ==> x in mk')
  }

  ghost predicate SameRoots(s: State, r: State) {
    && r.mainthread == s.mainthread && r.running == s.running && r.registry == s.registry && r.mt == s.mt
    && r.white1 == s.white1
  }

  /** The roots stay the same objects, usable and of the same kinds; only objects fixed before are fixed. */
  lemma RootedKept(s: State, r: State)
    requires Rooted(s) && SameRoots(s, r)
    requires forall x :: IsRoot(s, x) && Usable(s, x) ==> Usable(r, x)
    requires forall x :: x in s.heap && x in r.heap ==> r.heap[x].kind == s.heap[x].kind
    requires
      forall x :: x in r.heap && x in r.marks && r.marks[x].fixed ==> x in s.heap && x in s.marks && s.marks[x].fixed
    ensures Rooted(r)
  {
    assert forall x :: IsRoot(r, x) ==> IsRoot(s, x);
    assert IsRoot(s, s.mainthread) && IsRoot(s, s.running);
  }

  lemma CullKeepsRooted(s: State, r: State)
    requires Rooted(s) && SubHeap(s.heap, r.heap) && Culled(s.white1, s.marks, r.marks)
    requires SameRoots(s, r) && r.marks.Keys == r.heap.Keys && s.marks.Keys == s.heap.Keys
    ensures Rooted(r)
  {
    hide Rooted;
    RootedKept(s, r);
  }

  lemma CullKeepsLive(s: State, r: State)
    requires Rooted(s) && LiveClosed(s) && SubHeap(s.heap, r.heap) && Culled(s.white1, s.marks, r.marks)
    requires SameRoots(s, r) && r.marks.Keys == r.heap.Keys && s.marks.Keys == s.heap.Keys
    ensures LiveClosed(r)
  {
    assert IsRoot(s, s.mainthread);
    forall x, y | x in r.heap && !IsDead(r.white1, r.marks[x]) && RefersTo(r.heap, x, y) ensures Usable(r, y) {
      assert RefersTo(s.heap, x, y);
      assert Usable(s, y);
    }
  }

  lemma SweepChainCulls(mk: Marks, w1: bool, xs: seq<Id>)
    requires NoDup(xs) && forall x :: x in xs ==> x in mk
    ensures Culled(w1, mk, SweepChain(mk, w1, xs).mk)
  {
    SweepChainFacts(mk, w1, xs);
  }

  // ----- the sweep of one string chain keeps the invariant

  lemma SweepStringsFacts(s: State, r: State)
    requires s.marks.Keys == s.heap.Keys && s.sweepstrgc < |s.strt|
    requires NoDup(s.strt[s.sweepstrgc]) && forall x :: x in s.strt[s.sweepstrgc] ==> x in s.heap
    requires r == SweepStrings(s)
    ensures r.marks.Keys == r.heap.Keys && SubHeap(s.heap, r.heap) && Culled(s.white1, s.marks, r.marks)
    ensures forall x :: x in s.heap && x !in s.strt[s.sweepstrgc] ==> x in r.heap && r.marks[x] == s.marks[x]
    ensures forall x :: x in r.heap && x in s.strt[s.sweepstrgc] ==> IsCurrentWhite(s.white1, r.marks[x])
    ensures forall x :: x in r.heap ==> x in s.heap && r.heap[x] == s.heap[x]
    ensures forall x :: x in r.strt[s.sweepstrgc] <==> x in s.strt[s.sweepstrgc] && x in r.heap
    ensures NoDup(r.strt[s.sweepstrgc]) && r.white1 == s.white1
  {
    hide NoDup, Culled;
    SweepChainCulls(s.marks, s.white1, s.strt[s.sweepstrgc]);
    SweepChainFacts(s.marks, s.white1, s.strt[s.sweepstrgc]);
  }

  lemma SweepStringsStructure(s: State)
    requires Structure(s) && s.phase.SweepString?
    requires s.sweepstrgc < |s.strt| && IsChain(s.heap, s.sweepstrgc, s.strt[s.sweepstrgc])
    ensures RootList(SweepStrings(s)) && UpvalLists(SweepStrings(s))
  {
    hide UpvalLists, NoDup, StringTable;
    SweepStringsFacts(s, SweepStrings(s));
    NonStringsKept(s, SweepStrings(s));
  }

  lemma NonStringsKept(s: State, r: State)
    requires RootList(s) && UpvalLists(s)
    requires forall x :: x in r.heap ==> x in s.heap && r.heap[x] == s.heap[x]
    requires forall x :: x in s.heap && !s.heap[x].kind.String? ==> x in r.heap
    requires r.rootgc == s.rootgc && r.sweepgc == s.sweepgc && r.uvhead == s.uvhead
    requires r.phase.SweepString? ==> r.sweepgc == 0
    ensures RootList(r) && UpvalLists(r)
  {
    forall t, u | t in r.heap && r.heap[t].kind.Thread? && u in r.heap[t].openupval ensures IsUpvalOf(r.heap, t, u) {
      assert IsUpvalOf(s.heap, t, u);
    }
    forall u | u in r.heap && IsOpen(r.heap[u]) ensures IsOwned(r.heap, u) {
      assert IsOwned(s.heap, u);
    }
  }

  lemma SweepStringsTable(s: State, r: State)
    requires Structure(s) && s.phase.SweepString? && IsChain(s.heap, s.sweepstrgc, s.strt[s.sweepstrgc])
    requires r == SweepStrings(s)
    ensures StringTable(r)
  {
    hide UpvalLists, RootList, SubHeap, Culled, NoDup, SweepChain;
    SweepStringsFacts(s, r);
    forall b | 0 <= b < |r.strt| ensures IsChain(r.heap, b, r.strt[b]) {
      assert IsChain(s.heap, b, s.strt[b]);
      if b != s.sweepstrgc { assert r.strt[b] == s.strt[b]; }
    }
  }

  lemma StillUnswept(s: State, r: State, x: Id)
    requires s.phase.SweepString? && s.sweepstrgc < |s.strt| && s.sweepgc == 0
    requires x in s.heap && x !in s.strt[s.sweepstrgc] && Unswept(s, x) && IsPlaced(s, x)
    requires x in r.heap && r.heap[x] == s.heap[x] && r.rootgc == s.rootgc && r.sweepgc == 0
    requires r.sweepstrgc == s.sweepstrgc + 1 && r.phase == if r.sweepstrgc >= |s.strt| then Sweep else SweepString
    ensures Unswept(r, x)
  {
    assert s.rootgc[0..] == s.rootgc;
  }

  lemma SweepStringsWhite(s: State, r: State)
    requires Structure(s) && s.phase.SweepString? && SweptWhite(s)
    requires s.sweepstrgc < |s.strt| && IsChain(s.heap, s.sweepstrgc, s.strt[s.sweepstrgc])
    requires r == SweepStrings(s)
    ensures SweptWhite(r)
  {
    hide SubHeap, Culled, NoDup, SweepChain, UpvalLists, StringTable, Unswept, IsPlaced;
    SweepStringsFacts(s, r);
    forall x | x in r.heap && !IsCurrentWhite(r.white1, r.marks[x]) ensures Unswept(r, x) {
      Placed(s, x);
      StillUnswept(s, r, x);
    }
  }

  lemma SweepStringsKeepsInv(s: State)
    requires Inv(s) && s.phase.SweepString?
    ensures Inv(SweepStrings(s))
  {
    var r := SweepStrings(s);
    SweepStringsFacts(s, r);
    hide RootList, StringTable, UpvalLists, SweptWhite, LiveClosed, SubHeap, Culled;
    CullKeepsRooted(s, r);
    CullKeepsLive(s, r);
    SweepStringsStructure(s);
    SweepStringsTable(s, r);
    SweepStringsWhite(s, r);
  }

  // ----- the sweep of the open upvalues of one thread

  lemma UpvalsOf(s: State, t: Id)
    requires UpvalLists(s) && t in s.heap && s.heap[t].kind.Thread?
    ensures NoDup(s.heap[t].openupval)
    ensures forall u :: u in s.heap[t].openupval ==> u in s.heap && u != t && IsOpen(s.heap[u])
  {
    assert forall u :: u in s.heap[t].openupval ==> IsUpvalOf(s.heap, t, u);
  }

  lemma SweepUpvalsFacts(s: State, t: Id, r: State)
    requires s.marks.Keys == s.heap.Keys && t in s.heap
    requires NoDup(s.heap[t].openupval) && forall u :: u in s.heap[t].openupval ==> u in s.heap && u != t
    requires r == SweepUpvals(s, t)
    ensures r.marks.Keys == r.heap.Keys && Culled(s.white1, s.marks, r.marks)
    ensures t in r.heap && r.marks[t] == s.marks[t] && r.heap[t] == s.heap[t].(openupval := r.heap[t].openupval)
    ensures NoDup(r.heap[t].openupval)
    ensures forall x :: x in s.heap && x !in s.heap[t].openupval ==> x in r.heap && r.marks[x] == s.marks[x]
    ensures forall x :: x in r.heap && x in s.heap[t].openupval ==> IsCurrentWhite(s.white1, r.marks[x])
    ensures forall x :: x in r.heap && x != t ==> x in s.heap && r.heap[x] == s.heap[x]
    ensures forall x :: x in r.heap[t].openupval <==> x in s.heap[t].openupval && x in r.heap
  {
    hide NoDup, Culled;
    SweepChainCulls(s.marks, s.white1, s.heap[t].openupval);
    SweepChainFacts(s.marks, s.white1, s.heap[t].openupval);
  }

  lemma SweepUpvalsLists(s: State, t: Id, r: State)
    requires Structure(s) && t in s.heap && s.heap[t].kind.Thread?
    requires NoDup(s.heap[t].openupval)
    requires forall u :: u in s.heap[t].openupval ==> u in s.heap && u != t && IsOpen(s.heap[u])
    requires r == SweepUpvals(s, t)
    ensures RootList(r) && StringTable(r)
  {
    hide NoDup, SweepChain, Culled, UpvalLists, RootList, StringTable;
    SweepUpvalsFacts(s, t, r);
    NonUpvalsKept(s, r);
  }

  lemma NonUpvalsKept(s: State, r: State)
    requires RootList(s) && StringTable(s)
    requires forall x :: x in r.heap ==> x in s.heap && r.heap[x] == s.heap[x].(openupval := r.heap[x].openupval)
    requires forall x :: x in s.heap && !IsOpen(s.heap[x]) ==> x in r.heap
    requires r.rootgc == s.rootgc && r.sweepgc == s.sweepgc && r.strt == s.strt && r.sweepstrgc == s.sweepstrgc
    requires r.phase == s.phase
    ensures RootList(r) && StringTable(r)
  {
    hide NoDup;
  }

  lemma SweepUpvalsUpvals(s: State, t: Id)
    requires Structure(s) && t in s.heap && s.heap[t].kind.Thread?
    requires NoDup(s.heap[t].openupval)
    requires forall u :: u in s.heap[t].openupval ==> u in s.heap && u != t && IsOpen(s.heap[u])
    ensures UpvalLists(SweepUpvals(s, t))
  {
    hide NoDup, SweepChain, Culled, RootList, StringTable;
    var r := SweepUpvals(s, t);
    SweepUpvalsFacts(s, t, r);
    forall t', u | t' in r.heap && r.heap[t'].kind.Thread? && u in r.heap[t'].openupval
      ensures IsUpvalOf(r.heap, t', u)
    {
      assert IsUpvalOf(s.heap, t', u);
      assert t' != t ==> u !in s.heap[t].openupval;
    }
    forall u | u in r.heap && IsOpen(r.heap[u]) ensures u in r.uvhead && IsOwned(r.heap, u) {
      assert IsOwned(s.heap, u);
    }
  }
}
