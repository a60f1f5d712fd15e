/** The collector as the imperative program of lua/lgc.c: global_State is updated in place.
    Every method is specified by the function of the same name on snapshots of the state. */
module GcCollector {
  import opened GcHeap
  import Mark = GcMark
  import opened GcTri
  import opened GcState
  import Cycle = GcCycle
  import Sweep = GcSweep
  import Upval = GcUpval
  import UpvalList = GcOpen
  import Root = GcRoot
  import Step = GcStep
  import Full = GcFull
  import Mutator = GcMutator
  import Exact = GcExact
  import Run = GcRun

  class Collector {
    var heap: Heap
    var marks: Marks
    var phase: GcPhase
    var white1: bool
    var gray: seq<Id>
    var grayagain: seq<Id>
    var rootgc: seq<Id>
    var sweepgc: nat
    var strt: seq<seq<Id>>
    var sweepstrgc: nat
    var uvhead: seq<Id>
    var mainthread: Id
    var running: Id
    var registry: Id
    var mt: seq<Value>

    function St(): State
      reads this
    {
      State(heap, marks, phase, white1, gray, grayagain, rootgc, sweepgc, strt, sweepstrgc, uvhead, mainthread,
        running, registry, mt)
    }

    ghost function Now(): Mark.Marking
      reads this
    {
      Mark.Marking(marks, gray, grayagain)
    }

    constructor (main: Id, globals: Id, registryTable: Id, chains: nat)
      requires chains > 0 && main != globals && main != registryTable && globals != registryTable
      ensures St() == Run.Initial(main, globals, registryTable, chains) && Inv(St())
    {
      var white := Marked(true, false, false, false);
      heap := map[main := Obj(Thread, [globals], [], [], Closed), globals := Obj(Table, [], [], [], Closed),
                  registryTable := Obj(Table, [], [], [], Closed)];
      marks := map[main := white.(fixed := true), globals := white, registryTable := white];
      phase, white1, gray, grayagain := Pause, false, [], [];
      rootgc, sweepgc, strt, sweepstrgc, uvhead := [registryTable, globals, main], 0, seq(chains, _ => []), 0, [];
      mainthread, running, registry, mt := main, main, registryTable, [];
      new;
      Run.InitialInv(main, globals, registryTable, chains);
    }

    // ----- marking

    method MarkObject(x: Id)
      requires NoDangling(heap) && marks.Keys == heap.Keys && x in heap
      modifies this`marks, this`gray
      ensures Now() == Mark.MarkObject(heap, old(Now()), x)
      decreases |Mark.Whites(marks)|, 0, 2
    {
      if IsWhite(marks[x]) {
        ReallyMarkObject(x);
      }
    }

    method ReallyMarkObject(x: Id)
      requires NoDangling(heap) && marks.Keys == heap.Keys && x in heap && IsWhite(marks[x])
      modifies this`marks, this`gray
      ensures Now() == Mark.ReallyMarkObject(heap, old(Now()), x)
      decreases |Mark.Whites(marks)|, 0, 1
    {
      hide Mark.MarkAll;
      if heap[x].kind.UpVal? {
        MarkUpval(x);
      } else if heap[x].kind.Userdata? {
        ghost var b := Mark.Recolour(marks, x, GrayToBlack(WhiteToGray(marks[x])));
        marks := marks[x := WhiteToGray(marks[x])];
        marks := marks[x := GrayToBlack(marks[x])];
        assert marks == b;
        MarkAll(RefSeq(heap, x));
      } else {
        marks := marks[x := WhiteToGray(marks[x])];
        if !heap[x].kind.String? {
          gray := [x] + gray;
        }
      }
    }

    method MarkUpval(x: Id)
      requires NoDangling(heap) && marks.Keys == heap.Keys && x in heap && IsWhite(marks[x]) && heap[x].kind.UpVal?
      modifies this`marks, this`gray
      ensures Now() == Mark.ReallyMarkObject(heap, old(Now()), x)
      decreases |Mark.Whites(marks)|, 0, 0
    {
      hide Mark.MarkAll;
      ghost var g := Mark.Recolour(marks, x, WhiteToGray(marks[x]));
      marks := marks[x := WhiteToGray(marks[x])];
      assert marks == g;
      MarkAll(RefSeq(heap, x));
      if !IsOpen(heap[x]) {
        marks := marks[x := GrayToBlack(marks[x])];
      }
    }

    /** The mark loops of the traversals. */
    method MarkAll(xs: seq<Id>)
      requires NoDangling(heap) && marks.Keys == heap.Keys && forall x :: x in xs ==> x in heap
      modifies this`marks, this`gray
      ensures Now() == Mark.MarkAll(heap, old(Now()), xs)
      decreases |Mark.Whites(marks)|, |xs|, 0
    {
      var i := 0;
      while i < |xs|
        invariant 0 <= i <= |xs| && marks.Keys == heap.Keys
        invariant grayagain == old(grayagain) && |Mark.Whites(marks)| <= old(|Mark.Whites(marks)|)
        invariant Mark.MarkAll(heap, Now(), xs[i..]) == Mark.MarkAll(heap, old(Now()), xs)
      {
        assert xs[i..][0] == xs[i] && xs[i..][1..] == xs[i + 1..];
        ghost var m := Now();
        MarkObject(xs[i]);
        Mark.FewerWhites(m.mk, marks);
        i := i + 1;
      }
      assert xs[i..] == [];
    }

    method PropagateMark()
      requires NoDangling(heap) && marks.Keys == heap.Keys && gray != [] && gray[0] in heap && IsGray(marks[gray[0]])
      modifies this`marks, this`gray, this`grayagain
      ensures Now() == Mark.PropagateMark(heap, old(Now()))
    {
      var o := gray[0];
      gray := gray[1..];
      if heap[o].kind.Thread? {
        grayagain := [o] + grayagain;
      } else {
        marks := marks[o := GrayToBlack(marks[o])];
      }
      MarkAll(RefSeq(heap, o));
    }

    method PropagateAll(ghost exempt: set<Id>)
      requires MarkInv(heap, Now(), white1, exempt)
      modifies this`marks, this`gray, this`grayagain
      ensures Now() == GcTri.PropagateAll(heap, old(Now()), white1, exempt)
    {
      while gray != []
        invariant MarkInv(heap, Now(), white1, exempt)
        invariant
          GcTri.PropagateAll(heap, Now(), white1, exempt) == GcTri.PropagateAll(heap, old(Now()), white1, exempt)
        decreases |Mark.Whites(marks)|, |gray|
      {
        PropagateMarkKeepsTri(heap, Now(), white1, exempt);
        PropagateMark();
      }
    }

    method RemarkUpvals()
      requires NoDangling(heap) && marks.Keys == heap.Keys && forall u :: u in uvhead ==> u in heap
      modifies this`marks, this`gray
      ensures Now() == GcTri.RemarkUpvals(heap, old(Now()), uvhead)
    {
      hide GcTri.RemarkUpvals, GcTri.RemarkOne, NoDangling;
      var i := 0;
      assert uvhead[0..] == uvhead;
      while i < |uvhead|
        invariant 0 <= i <= |uvhead| && marks.Keys == heap.Keys && grayagain == old(grayagain)
        invariant forall u :: u in uvhead[i..] ==> u in heap
        invariant GcTri.RemarkUpvals(heap, Now(), uvhead[i..]) == GcTri.RemarkUpvals(heap, old(Now()), uvhead)
      {
        RemarkHead(heap, Now(), uvhead, i);
        RemarkOne(uvhead[i]);
        i := i + 1;
      }
      RemarkNil(heap, Now(), uvhead[i..]);
    }

    method RemarkOne(u: Id)
      requires NoDangling(heap) && marks.Keys == heap.Keys && u in heap
      modifies this`marks, this`gray
      ensures Now() == GcTri.RemarkOne(heap, old(Now()), u) && marks.Keys == heap.Keys
    {
      if IsGray(marks[u]) {
        MarkAll(RefSeq(heap, u));
      }
    }

    static lemma RemarkHead(h: Heap, m: Mark.Marking, uvs: seq<Id>, i: nat)
      requires NoDangling(h) && m.mk.Keys == h.Keys && i < |uvs| && forall u :: u in uvs[i..] ==> u in h
      ensures uvs[i] in h && (forall u :: u in uvs[i + 1..] ==> u in h)
      ensures GcTri.RemarkUpvals(h, m, uvs[i..]) == GcTri.RemarkUpvals(h, GcTri.RemarkOne(h, m, uvs[i]), uvs[i + 1..])
    {
      hide NoDangling;
      assert uvs[i..][0] == uvs[i] && uvs[i..][1..] == uvs[i + 1..];
    }

    static lemma RemarkNil(h: Heap, m: Mark.Marking, uvs: seq<Id>)
      requires NoDangling(h) && m.mk.Keys == h.Keys && uvs == []
      ensures GcTri.RemarkUpvals(h, m, uvs) == m
    {
    }

    method MarkRoot()
      requires Inv(St()) && (phase.Pause? || phase.Finalize?)
      modifies this`marks, this`gray, this`grayagain, this`phase
      ensures St() == Cycle.MarkRoot(old(St()))
    {
      hide Inv, Propagating, Cycle.SameGraph, Usable, Mark.Kept, Mark.Advanced, Mark.MarkAll, Cycle.MarkRoot,
        Cycle.RootSeq, NoDangling;
      RootsInHeap(St());
      var roots := Cycle.RootSeq(St());
      gray, grayagain := [], [];
      MarkAll(roots);
      phase := Propagate;
    }

    static lemma RootsInHeap(s: State)
      requires Inv(s) && (s.phase.Pause? || s.phase.Finalize?)
      ensures NoDangling(s.heap) && s.marks.Keys == s.heap.Keys && forall x :: x in Cycle.RootSeq(s) ==> x in s.heap
      ensures var m := Mark.MarkAll(s.heap, Mark.Marking(s.marks, [], []), Cycle.RootSeq(s));
              Cycle.MarkRoot(s) == s.(marks := m.mk, gray := m.gray, grayagain := m.grayagain, phase := Propagate)
    {
      hide RootList, StringTable, UpvalLists, LiveClosed, SweptWhite, Listed, Coloured, Tri, Cycle.RootSeq, NoDangling;
      Cycle.AllWhite(s);
      Cycle.RootSeqInHeap(s);
    }

    method Atomic()
      requires Inv(St()) && phase.Propagate?
      modifies this`marks, this`gray, this`grayagain, this`phase, this`white1, this`sweepgc, this`sweepstrgc
      ensures St() == Cycle.Atomic(old(St()))
    {
      hide RootList, StringTable, UpvalLists, Rooted, Propagating, Cycle.AtomicMarking;
      AtomicMarking();
      white1 := !white1;
      sweepstrgc, sweepgc, phase := 0, 0, SweepString;
    }

    method AtomicMarking()
      requires Propagating(St()) && Rooted(St()) && UpvalLists(St())
      modifies this`marks, this`gray, this`grayagain
      ensures Now() == Cycle.AtomicMarking(old(St()))
    {
      hide Listed, Coloured, Tri, NoDangling, NoDup, Cycle.AtomicMarks, RefersTo;
      var late := [running] + Collectable(mt);
      ghost var open := set x | x in uvhead;
      Cycle.MoreExempt(heap, Now(), white1, OpenUpvals(heap), open);
      assert forall x :: Ref(x) in mt ==> IsRoot(St(), x);
      assert (forall x :: x in uvhead ==> x in heap && IsOpen(heap[x])) && (forall x :: x in late ==> x in heap);
      RemarkThenTraverse(late);
    }

    method RemarkThenTraverse(late: seq<Id>)
      requires MarkInv(heap, Now(), white1, set x | x in uvhead)
      requires (forall x :: x in uvhead ==> x in heap && IsOpen(heap[x])) && (forall x :: x in late ==> x in heap)
      modifies this`marks, this`gray, this`grayagain
      ensures Now() == Cycle.AtomicMarks(heap, old(Now()), white1, uvhead, late)
    {
      hide Listed, Coloured, Tri, NoDangling, GcTri.RemarkUpvals, GcTri.PropagateAll, Cycle.MarkLate;
      RemarkUpvalsEndsExemption(heap, Now(), white1, uvhead);
      RemarkUpvals();
      PropagateAll({});
      MarkLate(late);
    }

    method MarkLate(late: seq<Id>)
      requires MarkInv(heap, Now(), white1, {}) && forall x :: x in late ==> x in heap
      modifies this`marks, this`gray, this`grayagain
      ensures Now() == Cycle.MarkLate(heap, old(Now()), white1, late)
    {
      hide Listed, Coloured, Tri, NoDangling, GcTri.PropagateAll, Mark.MarkAll, Cycle.TraverseAgain;
      MarkAllKeepsTri(heap, Now(), white1, {}, late);
      MarkAll(late);
      PropagateAll({});
      TraverseAgain();
    }

    method TraverseAgain()
      requires MarkInv(heap, Now(), white1, {}) && gray == []
      modifies this`marks, this`gray, this`grayagain
      ensures MarkInv(heap, Mark.Marking(old(marks), old(grayagain), []), white1, {})
      ensures Now() == Cycle.TraverseAgain(heap, Mark.Marking(old(marks), old(grayagain), []), white1)
    {
      hide Listed, Coloured, Tri, NoDangling, GcTri.PropagateAll;
      Cycle.Swap(heap, Now(), white1);
      gray, grayagain := grayagain, [];
      PropagateAll({});
    }

    // ----- sweeping

    /** sweepwholelist over a chain of strings or of open upvalues; freed objects leave the heap. */
    method SweepWholeList(xs: seq<Id>) returns (list: seq<Id>)
      requires marks.Keys == heap.Keys && NoDup(xs) && forall x :: x in xs ==> x in heap
      modifies this`marks, this`heap
      ensures Sweep.Swept(list, marks) == Sweep.SweepChain(old(marks), white1, xs)
      ensures heap == Sweep.Restrict(old(heap), marks) && marks.Keys == heap.Keys
    {
      hide Sweep.SweepChain, NoDup, Sweep.Restrict;
      var i := 0;
      list := [];
      assert heap == Sweep.Restrict(heap, marks) by { RestrictAll(heap, marks); }
      ghost var all := Sweep.SweepChain(marks, white1, xs);
      assert xs[0..] == xs;
      while i < |xs|
        invariant 0 <= i <= |xs| && marks.Keys == heap.Keys && heap == Sweep.Restrict(old(heap), marks)
        invariant NoDup(xs[i..]) && forall x :: x in xs[i..] ==> x in heap
        invariant all.mk == Sweep.SweepChain(marks, white1, xs[i..]).mk
        invariant all.list == list + Sweep.SweepChain(marks, white1, xs[i..]).list
      {
        var curr := xs[i];
        SweepHead(marks, white1, xs, i);
        RestrictStep(old(heap), marks, curr, White(white1, marks[curr]));
        if Survives(white1, marks[curr]) {
          marks := marks[curr := White(white1, marks[curr])];
          list := list + [curr];
        } else {
          heap, marks := heap - {curr}, marks - {curr};
        }
        i := i + 1;
      }
      assert xs[i..] == [];
      SweepNil(marks, white1);
    }

    static lemma RestrictAll(h: Heap, mk: Marks)
      requires mk.Keys == h.Keys
      ensures Sweep.Restrict(h, mk) == h
    {
    }

    static lemma RestrictStep(h: Heap, mk: Marks, x: Id, b: Marked)
      requires x in mk
      ensures Sweep.Restrict(h, mk - {x}) == Sweep.Restrict(h, mk) - {x}
      ensures Sweep.Restrict(h, mk[x := b]) == Sweep.Restrict(h, mk)
    {
    }

    static lemma SweepNil(mk: Marks, w1: bool)
      ensures Sweep.SweepChain(mk, w1, []) == Sweep.Swept([], mk)
    {
    }

    static lemma SweepHead(mk: Marks, w1: bool, xs: seq<Id>, i: nat)
      requires i < |xs| && NoDup(xs[i..]) && forall x :: x in xs[i..] ==> x in mk
      ensures xs[i] in mk && NoDup(xs[i + 1..]) && xs[i] !in xs[i + 1..]
      ensures forall x :: x in xs[i + 1..] ==> x in xs[i..]
      ensures var all := Sweep.SweepChain(mk, w1, xs[i..]);
              if Survives(w1, mk[xs[i]])
              then var rest := Sweep.SweepChain(mk[xs[i] := White(w1, mk[xs[i]])], w1, xs[i + 1..]);
                   all == Sweep.Swept([xs[i]] + rest.list, rest.mk)
              else all == Sweep.SweepChain(mk - {xs[i]}, w1, xs[i + 1..])
    {
      assert xs[i..] == [xs[i]] + xs[i + 1..] && xs[i..][1..] == xs[i + 1..];
      Root.NoDupParts([xs[i]], xs[i + 1..]);
      assert xs[i] in [xs[i]];
    }

    method SweepStrings()
      requires Inv(St()) && phase.SweepString?
      modifies this`marks, this`heap, this`strt, this`sweepstrgc, this`phase
      ensures St() == Sweep.SweepStrings(old(St()))
    {
      hide RootList, UpvalLists, Rooted, LiveClosed, SweptWhite, Sweep.SweepChain, Sweep.Restrict, NoDup;
      assert IsChain(heap, sweepstrgc, strt[sweepstrgc]);
      var list := SweepWholeList(strt[sweepstrgc]);
      strt := strt[sweepstrgc := list];
      sweepstrgc := sweepstrgc + 1;
      if sweepstrgc >= |strt| {
        phase := Sweep;
      }
    }
  
    method SweepUpvals(t: Id)
      requires marks.Keys == heap.Keys && t in heap
      requires NoDup(heap[t].openupval) && forall u :: u in heap[t].openupval ==> u in heap && u != t
      modifies this`marks, this`heap, this`uvhead
      ensures St() == Sweep.SweepUpvals(old(St()), t)
    {
      hide Sweep.SweepChain, NoDup;
      var o := heap[t];
      var list := SweepWholeList(o.openupval);
      heap := heap[t := o.(openupval := list)];
      uvhead := Sweep.Keep(uvhead, marks);
    }

    /** A closed upvalue turns black, and the barrier marks what it refers to. */
    method BlackenUpval(u: Id)
      requires NoDangling(heap) && marks.Keys == heap.Keys && u in heap
      modifies this`marks, this`gray
      ensures
        Now() ==
          Mark.MarkAll(heap, Mark.Marking(old(marks)[u := GrayToBlack(old(marks)[u])], old(gray), grayagain),
            RefSeq(heap, u))
    {
      hide Mark.MarkAll;
      marks := marks[u := GrayToBlack(marks[u])];
      MarkAll(RefSeq(heap, u));
    }

    /** luaC_linkupval on the upvalue u, which has just been closed. */
    method LinkUpval(u: Id)
      requires marks.Keys == heap.Keys && u in heap && (phase.Propagate? ==> NoDangling(heap))
      modifies this`marks, this`gray, this`rootgc, this`sweepgc
      ensures
        St() == Upval.LinkColour(old(St()).(rootgc := [u] + old(rootgc), sweepgc := Upval.Shifted(old(sweepgc))), u)
    {
      hide Mark.MarkAll, NoDangling;
      rootgc, sweepgc := [u] + rootgc, Upval.Shifted(sweepgc);
      if IsGray(marks[u]) {
        if phase.Propagate? {
          BlackenUpval(u);
        } else {
          marks := marks[u := White(white1, marks[u])];
        }
      }
    }

    /** One round of luaF_close. */
    method CloseOne(t: Id)
      requires Upval.HasOpen(St(), t) && (phase.Propagate? ==> NoDangling(heap))
      modifies this`marks, this`heap, this`gray, this`rootgc, this`sweepgc, this`uvhead
      ensures St() == Upval.CloseOne(old(St()), t)
    {
      hide Collectable, RefSeq, Upval.LinkColour, NoDangling, Sweep.Remove;
      ghost var s := St();
      var u := heap[t].openupval[0];
      var v := heap[t].stack[heap[u].place.slot];
      heap := heap[t := heap[t].(openupval := heap[t].openupval[1..])];
      uvhead := Sweep.Remove(uvhead, u);
      if IsDead(white1, marks[u]) {
        heap, marks := heap - {u}, marks - {u};
      } else {
        heap := heap[u := heap[u].(place := Closed, refs := Collectable([v]))];
        Upval.DetachRefs(s, t);
        LinkUpval(u);
      }
    }

    method CloseUpvals(t: Id, level: nat)
      requires Inv(St()) && t in heap && heap[t].kind.Thread?
      modifies this`marks, this`heap, this`gray, this`rootgc, this`sweepgc, this`uvhead
      ensures St() == Upval.CloseFrom(old(St()), t, level)
    {
      hide Structure, Rooted, LiveClosed, SweptWhite, Propagating, Upval.CloseOne;
      while heap[t].openupval != []
        invariant Inv(St()) && t in heap && heap[t].kind.Thread?
        invariant Upval.CloseFrom(St(), t, level) == Upval.CloseFrom(old(St()), t, level)
        decreases |heap[t].openupval|
      {
        ghost var s := St();
        Upval.CloseReady(s, t);
        var u := heap[t].openupval[0];
        if heap[u].place.slot < level {
          break;
        }
        CloseOne(t);
        Upval.CloseOneKeepsInv(s, t, u, St());
        Upval.CloseOneShorter(s, t, St());
      }
    }
  
    /** luaF_findupval: walk down the list of open upvalues to the level; x is the object made when none is there. */
    method FindUpval(t: Id, level: nat, x: Id) returns (u: Id)
      requires marks.Keys == heap.Keys && t in heap
      requires forall v :: v in heap[t].openupval ==> v in heap && heap[v].place.Open?
      modifies this`marks, this`heap, this`uvhead
      ensures UpvalList.Found(St(), u) == UpvalList.FindUpval(old(St()), t, level, x)
    {
      hide UpvalList.NewUpval, UpvalList.FindPos;
      var us := heap[t].openupval;
      var k := 0;
      while k < |us| && heap[us[k]].place.slot >= level
        invariant 0 <= k <= |us| && St() == old(St()) && forall i :: 0 <= i < k ==> heap[us[i]].place.slot > level
      {
        u := us[k];
        if heap[u].place.slot == level {
          if IsDead(white1, marks[u]) {
            marks := marks[u := ChangeWhite(marks[u])];
          }
          return;
        }
        k := k + 1;
      }
      u := x;
      NewUpval(t, level, x, k);
    }

    /** The new upvalue is chained in front of the k-th one, and in uvhead. */
    method NewUpval(t: Id, level: nat, x: Id, k: nat)
      requires t in heap && k <= |heap[t].openupval|
      modifies this`marks, this`heap, this`uvhead
      ensures St() == UpvalList.NewUpval(old(St()), t, level, x, k)
    {
      var us := heap[t].openupval;
      heap := heap[t := heap[t].(openupval := us[..k] + [x] + us[k..])];
      heap := heap[x := Obj(UpVal, [], [], [], Open(t, level))];
      marks := marks[x := White(white1, Marked(false, false, false, false))];
      uvhead := [x] + uvhead;
    }

    /** The object at the sweep pointer is freed: it leaves rootgc and the heap. */
    method FreeRoot(x: Id)
      requires sweepgc <= |rootgc|
      modifies this`marks, this`heap, this`rootgc
      ensures St() == Root.FreeRoot(old(St()), x)
    {
      rootgc := rootgc[..sweepgc] + Sweep.Remove(rootgc[sweepgc..], x);
      heap, marks := heap - {x}, marks - {x};
    }

    /** The object at the sweep pointer survives: it turns white and the pointer moves on. */
    method PassRoot()
      requires sweepgc < |rootgc| && rootgc[sweepgc] in marks
      modifies this`marks, this`sweepgc
      ensures St() == Root.PassRoot(old(St()))
    {
      var x := rootgc[sweepgc];
      marks := marks[x := White(white1, marks[x])];
      sweepgc := sweepgc + 1;
    }

    method SweepThread(x: Id)
      requires Inv(St()) && phase.Sweep? && sweepgc < |rootgc| && x == rootgc[sweepgc] && x in heap && x in marks
      requires heap[x].kind.Thread?
      modifies this`marks, this`heap, this`gray, this`rootgc, this`sweepgc, this`uvhead
      ensures St() == Step.SweepThread(old(St()), x)
    {
      hide RootList, StringTable, Rooted, LiveClosed, SweptWhite, Sweep.SweepUpvals, Upval.CloseFrom, Root.PassRoot,
        Root.FreeRoot;
      ghost var s := St();
      Sweep.UpvalsOf(s, x);
      Root.SweepUpvalsKeepsInv(s, x, Sweep.SweepUpvals(s, x));
      SweepUpvals(x);
      if Survives(white1, marks[x]) {
        PassRoot();
      } else {
        CloseUpvals(x, 0);
        Upval.SweepBound(St());
        FreeRoot(x);
      }
    }

    /** One round of sweeplist on rootgc. */
    method SweepRoot()
      requires Inv(St()) && phase.Sweep? && sweepgc < |rootgc|
      modifies this`marks, this`heap, this`gray, this`rootgc, this`sweepgc, this`uvhead
      ensures St() == Step.SweepRoot(old(St()))
    {
      hide RootList, StringTable, UpvalLists, Rooted, LiveClosed, SweptWhite, Step.SweepThread, Root.PassRoot,
        Root.FreeRoot;
      Step.Visited(St());
      var curr := rootgc[sweepgc];
      if heap[curr].kind.Thread? {
        SweepThread(curr);
      } else if Survives(white1, marks[curr]) {
        PassRoot();
      } else {
        FreeRoot(curr);
      }
    }

    method SweepList(count: nat)
      requires Inv(St()) && phase.Sweep?
      modifies this`marks, this`heap, this`gray, this`rootgc, this`sweepgc, this`uvhead
      ensures St() == Step.SweepList(old(St()), count)
    {
      hide Inv, Step.SweepRoot;
      var n := count;
      while n > 0 && sweepgc < |rootgc|
        invariant Inv(St()) && phase.Sweep?
        invariant Step.SweepList(St(), n) == Step.SweepList(old(St()), count)
        decreases n
      {
        SweepRoot();
        n := n - 1;
      }
    }

    method SweepStep()
      requires Inv(St()) && phase.Sweep?
      modifies this`marks, this`heap, this`gray, this`rootgc, this`sweepgc, this`uvhead, this`phase
      ensures St() == Step.SweepStep(old(St()))
    {
      hide Inv, Step.SweepList;
      SweepList(Step.GCSWEEPMAX);
      if sweepgc >= |rootgc| {
        phase := Finalize;
      }
    }

    // ----- the state machine

    method SingleStep()
      requires Inv(St())
      modifies this
      ensures St() == Step.SingleStep(old(St())) && Inv(St())
    {
      hide Structure, Rooted, LiveClosed, SweptWhite, Cycle.MarkRoot, Cycle.Atomic, Sweep.SweepStrings,
        Step.SweepStep, Mark.PropagateMark, Listed, Coloured, Tri;
      Step.SingleStepKeepsInv(St());
      match phase {
        case Pause => MarkRoot();
        case Propagate =>
          if gray != [] {
            PropagateStep();
          } else {
            Atomic();
          }
        case SweepString => SweepStrings();
        case Sweep => SweepStep();
        case Finalize => phase := Pause;
      }
    }

    method PropagateStep()
      requires Inv(St()) && phase.Propagate? && gray != []
      modifies this`marks, this`gray, this`grayagain
      ensures St() == Step.SingleStep(old(St()))
    {
      hide Structure, Rooted, Listed, Coloured, Tri, Mark.PropagateMark, NoDangling;
      GrayHead(St());
      PropagateMark();
    }

    static lemma GrayHead(s: State)
      requires Propagating(s) && s.gray != []
      ensures NoDangling(s.heap) && s.marks.Keys == s.heap.Keys && s.gray[0] in s.heap && IsGray(s.marks[s.gray[0]])
    {
      assert s.gray[0] in s.gray;
    }

    method FullGc()
      requires Inv(St())
      modifies this
      ensures St() == Full.FullGc(old(St()))
      ensures
        forall x :: x in heap <==> x in old(heap) && (old(Reachable(St(), x)) || old(x in marks && marks[x].fixed))
    {
      hide Inv, Step.SingleStep, Cycle.MarkRoot;
      ghost var s := St();
      if phase.Pause? || phase.Propagate? {
        sweepstrgc, sweepgc := 0, 0;
        gray, grayagain := [], [];
        phase := SweepString;
      }
      Full.RestartKeepsInv(s, St());
      RunToFinalize();
      Cycle.MarkRootKeepsInv(St());
      MarkRoot();
      RunToPause();
      Exact.FullGcIsExact(s);
    }

    method RunToFinalize()
      requires Inv(St()) && !phase.Pause? && !phase.Propagate?
      modifies this
      ensures St() == Full.RunToFinalize(old(St()))
    {
      hide Inv, Step.SingleStep;
      while !phase.Finalize?
        invariant Inv(St()) && !phase.Pause? && !phase.Propagate?
        invariant Full.RunToFinalize(St()) == Full.RunToFinalize(old(St()))
        decreases Full.Rank0(St()), Full.Rank1(St()), Full.Rank2(St())
      {
        Full.StepsEnd(St()); Full.SweepStays(St());
        SingleStep();
      }
    }

    method RunToPause()
      requires Inv(St())
      modifies this
      ensures St() == Full.RunToPause(old(St()))
    {
      hide Inv, Step.SingleStep;
      while !phase.Pause?
        invariant Inv(St()) && Full.RunToPause(St()) == Full.RunToPause(old(St()))
        decreases Full.Rank0(St()), Full.Rank1(St()), Full.Rank2(St())
      {
        Full.StepsEnd(St());
        SingleStep();
      }
    }

    // ----- barriers and allocation

    method BarrierBack(t: Id)
      requires t in marks
      modifies this`marks, this`grayagain
      ensures St() == Mutator.BarrierBack(old(St()), t)
    {
      marks := marks[t := BlackToGray(marks[t])];
      grayagain := [t] + grayagain;
    }

    method BarrierForward(o: Id, v: Id)
      requires marks.Keys == heap.Keys && o in heap && v in heap && IsWhite(marks[v])
      requires phase.Propagate? ==> NoDangling(heap)
      modifies this`marks, this`gray
      ensures St() == Mutator.BarrierForward(old(St()), o, v)
    {
      hide Mark.ReallyMarkObject;
      if phase.Propagate? {
        ReallyMarkObject(v);
      } else {
        marks := marks[o := White(white1, marks[o])];
      }
    }

    /** A store of the references refs in o, of which v alone may be new, followed by luaC_barrier or luaC_barriert:
        whatever the state of the collector, the invariant is kept. */
    method WriteField(o: Id, refs: seq<Id>, v: Value)
      requires Inv(St()) && Run.Legal(St(), Run.WriteField(o, refs, v))
      modifies this`heap, this`marks, this`gray, this`grayagain
      ensures St() == Run.StoreField(old(St()), o, refs, v) && Inv(St())
    {
      hide Structure, Rooted, LiveClosed, SweptWhite, Propagating, Run.Legal, Mutator.IsWrite, Mutator.Fits,
        NoDangling, Mark.ReallyMarkObject;
      ghost var s := St();
      Run.RootsReady(s);
      Run.FieldReady(s, o, refs, v);
      Run.StoreFieldKeepsInv(s, o, refs, v, Run.StoreField(s, o, refs, v));
      NothingDangles(s, o, refs);
      heap := heap[o := heap[o].(refs := refs)];
      if v.Ref? && v.o in marks && IsWhite(marks[v.o]) && IsBlack(marks[o]) {
        if heap[o].kind.Table? {
          BarrierBack(o);
        } else {
          BarrierForward(o, v.o);
        }
      }
    }

    static lemma NothingDangles(s: State, o: Id, refs: seq<Id>)
      requires Inv(s) && o in s.heap && Mutator.Fits(s, o, refs, s.heap[o].stack)
      ensures s.phase.Propagate? ==>
          NoDangling(s.heap) && UpvalLists(s) && NoDangling(Mutator.Store(s, o, refs, s.heap[o].stack).heap)
    {
      hide RootList, StringTable, UpvalLists, Rooted, LiveClosed, SweptWhite, Listed, Coloured, Tri, Mutator.Fits;
      if s.phase.Propagate? {
        Mutator.StoreNoDangling(s, o, refs, s.heap[o].stack, Mutator.Store(s, o, refs, s.heap[o].stack).heap);
      }
    }

    /** luaC_link, for a new object that refers to usable objects only. */
    method Link(x: Id, o: Obj)
      requires Inv(St()) && Mutator.IsNew(St(), x, o) && !o.kind.String?
      modifies this`marks, this`heap, this`rootgc, this`sweepgc
      ensures St() == Mutator.Link(old(St()), x, o) && Inv(St())
    {
      hide Structure, Rooted, LiveClosed, SweptWhite, Propagating;
      Mutator.LinkKeepsInv(St(), x, o, Mutator.Link(St(), x, o));
      heap, rootgc := heap[x := o], [x] + rootgc;
      sweepgc := Upval.Shifted(sweepgc);
      marks := marks[x := White(white1, Marked(false, false, false, false))];
    }
  }
}
