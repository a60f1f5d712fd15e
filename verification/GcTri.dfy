/** The tri-colour invariant of lua/lgc.c and its preservation by marking. */
module GcTri {
  import opened GcHeap
  import opened GcMark

  /** Objects on a gray list are gray containers, listed once; every gray container is listed. */
  ghost predicate Listed(h: Heap, m: Marking, exempt: set<Id>)
    requires m.mk.Keys == h.Keys
  {
    && (forall x :: x in m.gray || x in m.grayagain ==> x in h && IsGray(m.mk[x]) && IsContainer(h[x].kind))
    && NoDup(m.gray) && NoDup(m.grayagain)
    && (forall x :: x in m.gray ==> x !in m.grayagain)
    && (forall x ::
          x in h && x !in exempt && IsGray(m.mk[x]) && IsContainer(h[x].kind) ==> x in m.gray || x in m.grayagain)
  }

  /** Every white is the current white; only strings, open upvalues and listed containers stay gray;
      strings, threads and open upvalues are never black. */
  ghost predicate Coloured(h: Heap, mk: Marks, w1: bool, exempt: set<Id>)
    requires mk.Keys == h.Keys
  {
    && (forall x :: x in h && IsWhite(mk[x]) ==> IsCurrentWhite(w1, mk[x]))
    && (forall x :: x in h && IsBlack(mk[x]) ==> !h[x].kind.String? && !h[x].kind.Thread? && !IsOpen(h[x]))
    && (forall x ::
          x in h && IsGray(mk[x]) && x !in exempt ==> IsContainer(h[x].kind) || h[x].kind.String? || IsOpen(h[x]))
  }

  /** A marked object that waits on no list, and is not exempt, refers to marked objects only. */
  ghost predicate Tri(h: Heap, m: Marking, exempt: set<Id>)
    requires m.mk.Keys == h.Keys && NoDangling(h)
  {
    forall x, y | x in h && RefersTo(h, x, y) && !IsWhite(m.mk[x]) && x !in exempt && x !in m.gray && x !in m.grayagain
      :: !IsWhite(m.mk[y])
  }

  ghost predicate MarkInv(h: Heap, m: Marking, w1: bool, exempt: set<Id>) {
    && NoDangling(h) && m.mk.Keys == h.Keys
    && Listed(h, m, exempt) && Coloured(h, m.mk, w1, exempt) && Tri(h, m, exempt)
  }

  /** Between atomic steps the values of open upvalues may change unseen, so these are exempt. */
  ghost function OpenUpvals(h: Heap): set<Id> { set x | x in h && IsOpen(h[x]) }

  /** What the propagate state keeps, in the words of lua/lgc.c: no black object refers to a white one,
      and every gray table, closure, prototype or thread is on a gray list. */
  lemma NoBlackToWhite(h: Heap, m: Marking, w1: bool, x: Id, y: Id)
    requires MarkInv(h, m, w1, OpenUpvals(h)) && x in h
    ensures IsBlack(m.mk[x]) && RefersTo(h, x, y) ==> !IsWhite(m.mk[y])
    ensures IsGray(m.mk[x]) && IsContainer(h[x].kind) ==> x in m.gray || x in m.grayagain
  {
  }

  // ----- the four moves that marking is made of

  lemma Uncover(h: Heap, m: Marking, w1: bool, exempt: set<Id>, x: Id, b: Marked)
    requires MarkInv(h, m, w1, exempt) && x in h && IsWhite(m.mk[x])
    requires !IsWhite(b) && b.fixed == m.mk[x].fixed
    requires IsBlack(b) ==> h[x].kind.Userdata?
    ensures MarkInv(h, m.(mk := Recolour(m.mk, x, b)), w1, exempt + {x})
  {
  }

  lemma Push(h: Heap, m: Marking, w1: bool, exempt: set<Id>, x: Id)
    requires MarkInv(h, m, w1, exempt) && x in h && IsWhite(m.mk[x]) && IsContainer(h[x].kind)
    ensures MarkInv(h, m.(mk := Recolour(m.mk, x, WhiteToGray(m.mk[x])), gray := [x] + m.gray), w1, exempt)
  {
  }

  lemma Blacken(h: Heap, m: Marking, w1: bool, exempt: set<Id>, x: Id)
    requires MarkInv(h, m, w1, exempt + {x}) && x in h && IsGray(m.mk[x]) && h[x].kind.UpVal? && !IsOpen(h[x])
    requires forall y :: RefersTo(h, x, y) ==> !IsWhite(m.mk[y])
    ensures MarkInv(h, m.(mk := Recolour(m.mk, x, GrayToBlack(m.mk[x]))), w1, exempt)
  {
  }

  lemma Take(h: Heap, m: Marking, w1: bool, exempt: set<Id>)
    requires MarkInv(h, m, w1, exempt) && m.gray != []
    ensures MarkInv(h, TakeGray(h, m), w1, exempt + {m.gray[0]})
  {
    hide Listed, Coloured, Tri, NoDangling;
    TakeListed(h, m, exempt);
    TakeColoured(h, m, w1, exempt);
    TakeTri(h, m, exempt);
  }

  lemma TakeListed(h: Heap, m: Marking, exempt: set<Id>)
    requires m.mk.Keys == h.Keys && Listed(h, m, exempt) && m.gray != []
    ensures m.gray[0] in h && IsGray(m.mk[m.gray[0]]) && IsContainer(h[m.gray[0]].kind)
    ensures Listed(h, TakeGray(h, m), exempt + {m.gray[0]})
  {
    hide NoDup;
    assert m.gray[0] in m.gray;
    NoDupTail(m.gray);
    if h[m.gray[0]].kind.Thread? { NoDupCons(m.gray[0], m.grayagain); }
  }

  lemma NoDupTail(xs: seq<Id>)
    requires NoDup(xs) && xs != []
    ensures NoDup(xs[1..]) && xs[0] !in xs[1..] && forall x :: x in xs <==> x == xs[0] || x in xs[1..]
  {
  }

  lemma NoDupCons(x: Id, xs: seq<Id>)
    requires NoDup(xs) && x !in xs
    ensures NoDup([x] + xs)
  {
  }

  lemma TakeColoured(h: Heap, m: Marking, w1: bool, exempt: set<Id>)
    requires m.mk.Keys == h.Keys && Coloured(h, m.mk, w1, exempt) && m.gray != []
    requires m.gray[0] in h && IsGray(m.mk[m.gray[0]]) && IsContainer(h[m.gray[0]].kind)
    ensures Coloured(h, TakeGray(h, m).mk, w1, exempt + {m.gray[0]})
  {
  }

  lemma TakeTri(h: Heap, m: Marking, exempt: set<Id>)
    requires m.mk.Keys == h.Keys && NoDangling(h) && Tri(h, m, exempt) && m.gray != [] && m.gray[0] in h
    requires IsGray(m.mk[m.gray[0]])
    ensures Tri(h, TakeGray(h, m), exempt + {m.gray[0]})
  {
    hide RefersTo;
  }

  lemma Discharge(h: Heap, m: Marking, w1: bool, exempt: set<Id>, x: Id)
    requires MarkInv(h, m, w1, exempt + {x}) && x in h && !IsWhite(m.mk[x])
    requires forall y :: RefersTo(h, x, y) ==> !IsWhite(m.mk[y])
    requires IsGray(m.mk[x]) ==> h[x].kind.String? || IsOpen(h[x]) || x in m.gray || x in m.grayagain
    ensures MarkInv(h, m, w1, exempt)
  {
  }

  // ----- marking keeps the invariant

  lemma {:induction false} ReallyMarkObjectKeepsTri(h: Heap, m: Marking, w1: bool, exempt: set<Id>, x: Id)
    requires MarkInv(h, m, w1, exempt) && x in h && IsWhite(m.mk[x])
    ensures MarkInv(h, ReallyMarkObject(h, m, x), w1, exempt)
    decreases |Whites(m.mk)|, 0, 1
  {
    match h[x].kind
    case String =>
      Uncover(h, m, w1, exempt, x, WhiteToGray(m.mk[x]));
      Discharge(h, ReallyMarkObject(h, m, x), w1, exempt, x);
    case Userdata => MarkUserdataKeepsTri(h, m, w1, exempt, x);
    case UpVal => MarkUpValKeepsTri(h, m, w1, exempt, x);
    case _ => Push(h, m, w1, exempt, x);
  }

  lemma {:induction false} MarkUserdataKeepsTri(h: Heap, m: Marking, w1: bool, exempt: set<Id>, x: Id)
    requires MarkInv(h, m, w1, exempt) && x in h && IsWhite(m.mk[x]) && h[x].kind.Userdata?
    ensures MarkInv(h, ReallyMarkObject(h, m, x), w1, exempt)
    decreases |Whites(m.mk)|, 0, 0
  {
    var b := m.(mk := Recolour(m.mk, x, GrayToBlack(WhiteToGray(m.mk[x]))));
    Uncover(h, m, w1, exempt, x, b.mk[x]);
    MarkAllKeepsTri(h, b, w1, exempt + {x}, RefSeq(h, x));
    Discharge(h, MarkAll(h, b, RefSeq(h, x)), w1, exempt, x);
  }

  lemma {:induction false} MarkUpValKeepsTri(h: Heap, m: Marking, w1: bool, exempt: set<Id>, x: Id)
    requires MarkInv(h, m, w1, exempt) && x in h && IsWhite(m.mk[x]) && h[x].kind.UpVal?
    ensures MarkInv(h, ReallyMarkObject(h, m, x), w1, exempt)
    decreases |Whites(m.mk)|, 0, 0
  {
    var g := m.(mk := Recolour(m.mk, x, WhiteToGray(m.mk[x])));
    Uncover(h, m, w1, exempt, x, g.mk[x]);
    MarkAllKeepsTri(h, g, w1, exempt + {x}, RefSeq(h, x));
    var r := MarkAll(h, g, RefSeq(h, x));
    if IsOpen(h[x]) {
      Discharge(h, r, w1, exempt, x);
    } else {
      Blacken(h, r, w1, exempt, x);
    }
  }

  lemma {:induction false} MarkAllKeepsTri(h: Heap, m: Marking, w1: bool, exempt: set<Id>, xs: seq<Id>)
    requires MarkInv(h, m, w1, exempt) && forall x :: x in xs ==> x in h
    ensures MarkInv(h, MarkAll(h, m, xs), w1, exempt)
    decreases |Whites(m.mk)|, |xs|, 0
  {
    if xs != [] {
      if IsWhite(m.mk[xs[0]]) {
        ReallyMarkObjectKeepsTri(h, m, w1, exempt, xs[0]);
      }
      var m' := MarkObject(h, m, xs[0]);
      FewerWhites(m.mk, m'.mk);
      MarkAllKeepsTri(h, m', w1, exempt, xs[1..]);
    }
  }

  lemma PropagateMarkKeepsTri(h: Heap, m: Marking, w1: bool, exempt: set<Id>)
    requires MarkInv(h, m, w1, exempt) && m.gray != []
    ensures MarkInv(h, PropagateMark(h, m), w1, exempt)
  {
    var x := m.gray[0];
    var m1 := TakeGray(h, m);
    Take(h, m, w1, exempt);
    MarkAllKeepsTri(h, m1, w1, exempt + {x}, RefSeq(h, x));
    Discharge(h, MarkAll(h, m1, RefSeq(h, x)), w1, exempt, x);
  }

  /** propagateall: the loop ends because each round turns a white object or shortens the gray list. */
  function PropagateAll(h: Heap, m: Marking, ghost w1: bool, ghost exempt: set<Id>): (r: Marking)
    requires MarkInv(h, m, w1, exempt)
    ensures MarkInv(h, r, w1, exempt) && r.gray == [] && Kept(m.mk, r.mk)
    decreases |Whites(m.mk)|, |m.gray|
  {
    if m.gray == [] then m
    else
      PropagateMarkKeepsTri(h, m, w1, exempt);
      PropagateAll(h, PropagateMark(h, m), w1, exempt)
  }

  // ----- remarkupvals

  /** Mark the values of the gray open upvalues of the list. */
  function RemarkUpvals(h: Heap, m: Marking, uvs: seq<Id>): (r: Marking)
    requires NoDangling(h) && m.mk.Keys == h.Keys && forall x :: x in uvs ==> x in h
    ensures Kept(m.mk, r.mk)
    decreases |uvs|
  {
    if uvs == [] then m
    else RemarkUpvals(h, RemarkOne(h, m, uvs[0]), uvs[1..])
  }

  function RemarkOne(h: Heap, m: Marking, u: Id): (r: Marking)
    requires NoDangling(h) && m.mk.Keys == h.Keys && u in h
    ensures Kept(m.mk, r.mk) && r.grayagain == m.grayagain
  {
    if IsGray(m.mk[u]) then MarkAll(h, m, RefSeq(h, u)) else m
  }

  /** After remarkupvals no open upvalue is exempt any more. */
  lemma {:induction false} RemarkUpvalsEndsExemption(h: Heap, m: Marking, w1: bool, uvs: seq<Id>)
    requires MarkInv(h, m, w1, set x | x in uvs)
    requires forall x :: x in uvs ==> x in h && IsOpen(h[x])
    ensures MarkInv(h, RemarkUpvals(h, m, uvs), w1, {})
    decreases |uvs|
  {
    if uvs != [] {
      var x, rest := uvs[0], set x | x in uvs[1..];
      assert (set x | x in uvs) == rest + {x};
      if IsGray(m.mk[x]) {
        var m' := MarkAll(h, m, RefSeq(h, x));
        MarkAllKeepsTri(h, m, w1, rest + {x}, RefSeq(h, x));
        Discharge(h, m', w1, rest, x);
        RemarkUpvalsEndsExemption(h, m', w1, uvs[1..]);
      } else {
        Dismiss(h, m, w1, rest, x);
        RemarkUpvalsEndsExemption(h, m, w1, uvs[1..]);
      }
    }
  }

  lemma Dismiss(h: Heap, m: Marking, w1: bool, exempt: set<Id>, x: Id)
    requires MarkInv(h, m, w1, exempt + {x}) && x in h && IsWhite(m.mk[x])
    ensures MarkInv(h, m, w1, exempt)
  {
  }

  // ----- the last propagateall of atomic, which traverses the threads once more

  /** Everything on grayagain has been traversed since the program last ran. */
  ghost predicate AgainDone(h: Heap, m: Marking)
    requires m.mk.Keys == h.Keys && NoDangling(h)
  {
    forall x, y | x in h && x in m.grayagain && RefersTo(h, x, y) :: !IsWhite(m.mk[y])
  }

  lemma PropagateMarkKeepsDone(h: Heap, m: Marking, w1: bool, exempt: set<Id>)
    requires MarkInv(h, m, w1, exempt) && m.gray != [] && AgainDone(h, m)
    ensures AgainDone(h, PropagateMark(h, m))
  {
    var r := PropagateMark(h, m);
    forall x, y | x in h && x in r.grayagain && RefersTo(h, x, y) ensures !IsWhite(r.mk[y]) {
      assert r.grayagain == TakeGray(h, m).grayagain;
    }
  }

  lemma {:induction false} PropagateAllKeepsDone(h: Heap, m: Marking, w1: bool, exempt: set<Id>)
    requires MarkInv(h, m, w1, exempt) && AgainDone(h, m)
    ensures AgainDone(h, PropagateAll(h, m, w1, exempt))
    decreases |Whites(m.mk)|, |m.gray|
  {
    if m.gray != [] {
      PropagateMarkKeepsTri(h, m, w1, exempt);
      PropagateMarkKeepsDone(h, m, w1, exempt);
      PropagateAllKeepsDone(h, PropagateMark(h, m), w1, exempt);
    }
  }

  /** With both lists worked off, the marked objects refer to marked objects only. */
  lemma MarkedIsClosed(h: Heap, m: Marking, w1: bool, x: Id, y: Id)
    requires MarkInv(h, m, w1, {}) && m.gray == [] && AgainDone(h, m)
    requires x in h && !IsWhite(m.mk[x]) && RefersTo(h, x, y)
    ensures !IsWhite(m.mk[y])
  {
  }
}
