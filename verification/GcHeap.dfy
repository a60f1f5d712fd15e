/** The collected heap of lua/lgc.c: objects, their mark bits, and who refers to whom. */
module GcHeap {

  /** An object address. Addresses are reused: a fresh object may take any address not in the heap. */
  type Id = nat

  datatype Kind = String | Userdata | UpVal | Function | Table | Thread | Proto

  /** The bits of `marked` that decide colour and survival (lua/lgc.h). */
  datatype Marked = Marked(white0: bool, white1: bool, black: bool, fixed: bool)

  /** A Lua value: `Nil` stands for every value that is not collectable. */
  datatype Value = Nil | Ref(o: Id)

  /** Where the value of an upvalue lives: inside the upvalue, or in a stack slot of a thread.
      For a string, `Bucket` is the chain of the string table its hash selects. */
  datatype Place = Closed | Open(thread: Id, slot: nat) | Bucket(chain: nat)

  /** An object without its mark bits, which are kept in a map of their own. `refs` are the references an object
      stores itself; `stack` and `openupval` are used by threads only, `place` by upvalues and strings only. A
      table's `refs` are its metatable and the keys and values of its non-nil entries. */
  datatype Obj = Obj(
    kind: Kind,
    refs: seq<Id>,
    stack: seq<Value>,
    openupval: seq<Id>,
    place: Place)

  type Heap = map<Id, Obj>

  /** The `marked` byte of every object of the heap. */
  type Marks = map<Id, Marked>

  // ----- colour predicates (lua/lgc.h:65-72); w1 says that currentwhite holds WHITE1BIT instead of WHITE0BIT

  predicate IsWhite(m: Marked) { m.white0 || m.white1 }

  predicate IsBlack(m: Marked) { m.black }

  predicate IsGray(m: Marked) { !IsBlack(m) && !IsWhite(m) }

  predicate IsDead(w1: bool, m: Marked) { if w1 then m.white0 else m.white1 }

  /** `(marked ^ WHITEBITS) & deadmask` as sweeplist tests it; deadmask also holds FIXEDBIT. */
  predicate Survives(w1: bool, m: Marked) {
    m.fixed || (if w1 then !m.white0 else !m.white1)
  }

  function White(w1: bool, m: Marked): Marked { Marked(!w1, w1, false, m.fixed) }

  function WhiteToGray(m: Marked): Marked { m.(white0 := false, white1 := false) }

  function GrayToBlack(m: Marked): Marked { m.(black := true) }

  function BlackToGray(m: Marked): Marked { m.(black := false) }

  function ChangeWhite(m: Marked): Marked { m.(white0 := !m.white0, white1 := !m.white1) }

  predicate IsCurrentWhite(w1: bool, m: Marked) { m == White(w1, m) }

  // ----- references

  /** Objects that wait on a gray list while gray. */
  predicate IsContainer(k: Kind) { k.Function? || k.Table? || k.Thread? || k.Proto? }

  predicate IsOpen(o: Obj) { o.kind.UpVal? && o.place.Open? }

  predicate RefersTo(h: Heap, x: Id, y: Id)
    requires x in h
  {
    var o := h[x];
    if IsOpen(o) then
      o.place.thread in h && o.place.slot < |h[o.place.thread].stack| && h[o.place.thread].stack[o.place.slot] == Ref(y)
    else
      !o.kind.String? && (y in o.refs || (o.kind.Thread? && Ref(y) in o.stack))
  }

  function Collectable(vs: seq<Value>): (ids: seq<Id>)
    ensures forall y :: y in ids <==> Ref(y) in vs
  {
    if vs == [] then []
    else if vs[0].Nil? then Collectable(vs[1..])
    else [vs[0].o] + Collectable(vs[1..])
  }

  /** The references of x in the order a traversal marks them. */
  function RefSeq(h: Heap, x: Id): (ids: seq<Id>)
    requires x in h
    ensures forall y :: y in ids <==> RefersTo(h, x, y)
  {
    var o := h[x];
    if IsOpen(o) then
      if o.place.thread in h && o.place.slot < |h[o.place.thread].stack|
      then Collectable([h[o.place.thread].stack[o.place.slot]]) else []
    else if o.kind.String? then []
    else if o.kind.Thread? then o.refs + Collectable(o.stack)
    else o.refs
  }

  ghost predicate NoDangling(h: Heap) {
    forall x, y :: x in h && RefersTo(h, x, y) ==> y in h
  }

  predicate NoDup(s: seq<Id>) { forall i, j :: 0 <= i < j < |s| ==> s[i] != s[j] }
}
