/** Marking: reallymarkobject, the traversals and propagatemark of lua/lgc.c, as functions on the marks and the gray
    lists. */
module GcMark {
  import opened GcHeap

  /** The part of global_State that marking changes. */
  datatype Marking = Marking(mk: Marks, gray: seq<Id>, grayagain: seq<Id>)

  ghost function Whites(mk: Marks): set<Id> { set x | x in mk && IsWhite(mk[x]) }

  /** Marks are only ever set: a marked object keeps its mark byte, and no object becomes white. */
  ghost predicate Advanced(mk: Marks, mk': Marks) {
    && mk'.Keys == mk.Keys
    && forall x :: x in mk ==> mk'[x].fixed == mk[x].fixed && (!IsWhite(mk[x]) ==> mk'[x] == mk[x])
  }

  /** Across whole traversals a gray object may turn black, but none turns white. */
  ghost predicate Kept(mk: Marks, mk': Marks) {
    && mk'.Keys == mk.Keys
    && forall x :: x in mk ==> mk'[x].fixed == mk[x].fixed && (!IsWhite(mk[x]) ==> !IsWhite(mk'[x]))
  }

  lemma FewerWhites(mk: Marks, mk': Marks)
    requires mk'.Keys == mk.Keys
    requires forall x :: x in mk && IsWhite(mk'[x]) ==> IsWhite(mk[x])
    ensures Whites(mk') <= Whites(mk) && |Whites(mk')| <= |Whites(mk)|
    ensures |Whites(mk')| == |Whites(mk)| ==> Whites(mk') == Whites(mk)
  {
    assert Whites(mk) == Whites(mk') + (Whites(mk) - Whites(mk'));
  }

  /** Give x the colour bits b, none of them white. */
  function Recolour(mk: Marks, x: Id, b: Marked): (r: Marks)
    requires x in mk && !IsWhite(b) && b.fixed == mk[x].fixed
    ensures r.Keys == mk.Keys && r[x] == b
    ensures IsWhite(mk[x]) ==> Advanced(mk, r) && |Whites(r)| < |Whites(mk)|
  {
    var r := mk[x := b];
    FewerWhites(mk, r);
    assert x !in Whites(r);
    r
  }

  /** The markobject and markvalue macros. */
  function MarkObject(h: Heap, m: Marking, x: Id): (r: Marking)
    requires NoDangling(h) && m.mk.Keys == h.Keys && x in h
    ensures Advanced(m.mk, r.mk) && r.grayagain == m.grayagain && !IsWhite(r.mk[x])
    decreases |Whites(m.mk)|, 0, 1
  {
    if IsWhite(m.mk[x]) then ReallyMarkObject(h, m, x) else m
  }

  function ReallyMarkObject(h: Heap, m: Marking, x: Id): (r: Marking)
    requires NoDangling(h) && m.mk.Keys == h.Keys && x in h && IsWhite(m.mk[x])
    ensures Advanced(m.mk, r.mk) && r.grayagain == m.grayagain && !IsWhite(r.mk[x])
    decreases |Whites(m.mk)|, 0, 0
  {
    var gray := WhiteToGray(m.mk[x]);
    var g := m.(mk := Recolour(m.mk, x, gray));
    match h[x].kind
    case String => g
    case Userdata => MarkAll(h, m.(mk := Recolour(m.mk, x, GrayToBlack(gray))), RefSeq(h, x))
    case UpVal =>
      var r := MarkAll(h, g, RefSeq(h, x));
      if IsOpen(h[x]) then r else r.(mk := Recolour(r.mk, x, GrayToBlack(gray)))
    case _ => g.(gray := [x] + m.gray)
  }

  function MarkAll(h: Heap, m: Marking, xs: seq<Id>): (r: Marking)
    requires NoDangling(h) && m.mk.Keys == h.Keys && forall x :: x in xs ==> x in h
    ensures Advanced(m.mk, r.mk) && r.grayagain == m.grayagain && forall x :: x in xs ==> !IsWhite(r.mk[x])
    decreases |Whites(m.mk)|, |xs|, 0
  {
    if xs == [] then m
    else
      var m' := MarkObject(h, m, xs[0]);
      FewerWhites(m.mk, m'.mk);
      MarkAll(h, m', xs[1..])
  }

  /** Take the first gray object off its list: it turns black, but a thread stays gray and moves to grayagain. */
  function TakeGray(h: Heap, m: Marking): (r: Marking)
    requires m.mk.Keys == h.Keys && m.gray != [] && m.gray[0] in h && IsGray(m.mk[m.gray[0]])
    ensures Kept(m.mk, r.mk) && r.gray == m.gray[1..] && Whites(r.mk) == Whites(m.mk)
  {
    var x := m.gray[0];
    if h[x].kind.Thread?
    then m.(gray := m.gray[1..], grayagain := [x] + m.grayagain)
    else m.(gray := m.gray[1..], mk := m.mk[x := GrayToBlack(m.mk[x])])
  }

  /** Traverse one gray object. */
  function PropagateMark(h: Heap, m: Marking): (r: Marking)
    requires NoDangling(h) && m.mk.Keys == h.Keys && m.gray != [] && m.gray[0] in h && IsGray(m.mk[m.gray[0]])
    ensures Kept(m.mk, r.mk)
    ensures |Whites(r.mk)| < |Whites(m.mk)| || (|Whites(r.mk)| == |Whites(m.mk)| && |r.gray| < |m.gray|)
  {
    var m1 := TakeGray(h, m);
    var xs := RefSeq(h, m.gray[0]);
    NoNewWhites(h, m1, xs);
    MarkAll(h, m1, xs)
  }

  lemma NoNewWhites(h: Heap, m: Marking, xs: seq<Id>)
    requires NoDangling(h) && m.mk.Keys == h.Keys && forall x :: x in xs ==> x in h
    ensures |Whites(MarkAll(h, m, xs).mk)| <= |Whites(m.mk)|
    ensures |Whites(MarkAll(h, m, xs).mk)| == |Whites(m.mk)| ==> MarkAll(h, m, xs) == m
    decreases |xs|
  {
    if xs != [] {
      var m' := MarkObject(h, m, xs[0]);
      FewerWhites(m.mk, m'.mk);
      NoNewWhites(h, m', xs[1..]);
      if IsWhite(m.mk[xs[0]]) {
        assert xs[0] in Whites(m.mk) && xs[0] !in Whites(m'.mk);
      }
    }
  }
}
