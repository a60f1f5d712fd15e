/** The ring is a FIFO queue over every interleaving: the invariant, its preservation, and the run theorem. */
module ShmRingProof {
  import opened ShmRing

  /** A block with payload d at p. */
  predicate Block(mem: seq<Byte>, p: nat, d: seq<Byte>) {
    p + LEN + |d| <= |mem| && Word(mem, p) == |d| + LEN && mem[p + LEN..p + LEN + |d|] == d
  }

  /** The blocks ds lie back to back from p to q. */
  predicate Laid(mem: seq<Byte>, p: nat, ds: seq<seq<Byte>>, q: nat)
    decreases |ds|
  {
    if ds == [] then p == q
    else p + LEN + |ds[0]| <= q && Block(mem, p, ds[0]) && Laid(mem, p + LEN + |ds[0]|, ds[1..], q)
  }

  datatype Hold = NoHold | Held(start: nat, data: seq<Byte>)

  /** What the bytes mean. Not wrapped: `upper` lies from head to tail. Wrapped at `w`: `upper` lies from head to w
      and `lower` from the base to tail. `hold` is the block the last pop handed out. */
  datatype Layout = Layout(wrapped: bool, w: nat, upper: seq<seq<Byte>>, lower: seq<seq<Byte>>, hold: Hold)

  predicate Padded(mem: seq<Byte>, w: nat) { w + LEN <= |mem| ==> Word(mem, w) == PAD }

  predicate AllPayloads(c: Config, ds: seq<seq<Byte>>) { forall d :: d in ds ==> IsPayload(c, d) }

  predicate Bounds(s: State) {
    IsConfig(s.c) && |s.mem| == s.c.size && !s.fault && HEADER <= s.head <= s.c.size && HEADER <= s.tail <= s.c.size
  }

  predicate Queue(s: State, l: Layout)
    requires Bounds(s)
  {
    && AllPayloads(s.c, l.upper) && AllPayloads(s.c, l.lower)
    && if !l.wrapped then s.head <= s.tail && Laid(s.mem, s.head, l.upper, s.tail) && l.lower == []
       else
         && s.tail < s.head <= l.w <= s.c.size && (s.tail == HEADER || s.tail + s.c.emax <= s.head)
         && Padded(s.mem, l.w)
         && Laid(s.mem, s.head, l.upper, l.w) && Laid(s.mem, HEADER, l.lower, s.tail)
  }

  /** The block handed out by the last pop ends where head is, and its bytes are intact. */
  predicate HoldOk(s: State, l: Layout) {
    && (l.hold.Held? ==>
         HEADER <= l.hold.start && l.hold.start + LEN + |l.hold.data| == s.head
         && Block(s.mem, l.hold.start, l.hold.data) && IsPayload(s.c, l.hold.data))
    && (l.hold.Held? ==> s.cons.Resting? || s.cons.ReturnLen?)
    && (s.cons.ReturnLen? ==> l.hold.Held? && l.hold.start == s.cons.start)
    && (s.cons.Resting? && l.hold.Held? ==>
          s.popped != [] && s.popped[|s.popped| - 1] == l.hold.data && s.out == l.hold.start + LEN)
    && (s.cons.Resting? && s.popped != [] && !s.popEmpty ==> l.hold.Held?)
  }

  function Pending(s: State, l: Layout): seq<seq<Byte>> {
    if s.cons.ReturnLen? && l.hold.Held? then [l.hold.data] else []
  }

  predicate Fifo(s: State, l: Layout) { s.pushed == s.popped + Pending(s, l) + l.upper + l.lower }

  /** The bytes the producer is about to write are free, and stay clear of a block handed out. */
  predicate Room(s: State, l: Layout, d: seq<Byte>) {
    s.tail + |d| + LEN <= s.c.size && (l.wrapped ==> s.tail + |d| + LEN + s.c.emax <= s.head)
  }

  predicate ProducerOk(s: State, l: Layout)
    requires Bounds(s)
  {
    && (!s.prod.Ready? ==> IsPayload(s.c, s.prod.data))
    && match s.prod
       case WritePad(d) => !l.wrapped && s.head > HEADER && s.tail + LEN <= s.c.size
       case WrapTail(d) => !l.wrapped && s.head > HEADER && Padded(s.mem, s.tail)
       case AwaitAlign(d, cnt) => cnt <= 10
       case AwaitRoom(d, cnt) => s.tail + |d| + LEN <= s.c.size && cnt <= 10
       case WriteLen(d) => Room(s, l, d)
       case WriteData(d, i) =>
         && Room(s, l, d) && i <= |d| && Word(s.mem, s.tail) == |d| + LEN
         && s.mem[s.tail + LEN..s.tail + LEN + i] == d[..i]
       case Publish(d) => Room(s, l, d) && Block(s.mem, s.tail, d)
       case _ => true
  }

  predicate ConsumerOk(s: State, l: Layout) {
    match s.cons
    case AlignHead => !l.wrapped ==> s.head < s.tail
    case CheckPad => l.wrapped
    case WrapHead => l.wrapped && l.upper == []
    case CheckAgain => if l.wrapped then l.upper != [] else l.upper == [] ==> s.head == HEADER
    case AssertLen => l.upper != []
    case ReadLen => l.upper != []
    case AdvanceHead(len) => l.upper != [] && len == |l.upper[0]| + LEN
    case _ => true
  }

  predicate Inv(s: State, l: Layout) {
    Bounds(s) && Queue(s, l) && HoldOk(s, l) && Fifo(s, l) && ProducerOk(s, l) && ConsumerOk(s, l)
  }

  // ----- blocks under writes elsewhere

  predicate Agree(mem: seq<Byte>, mem': seq<Byte>, p: nat, q: nat) {
    |mem'| == |mem| && p <= q <= |mem| && mem'[p..q] == mem[p..q]
  }

  lemma WordFrame(mem: seq<Byte>, mem': seq<Byte>, p: nat)
    requires Agree(mem, mem', p, p + LEN)
    ensures Word(mem', p) == Word(mem, p)
  {
    var a, b := mem[p..p + LEN], mem'[p..p + LEN];
    assert mem[p] == a[0] && mem[p + 1] == a[1] && mem[p + 2] == a[2] && mem[p + 3] == a[3];
    assert mem'[p] == b[0] && mem'[p + 1] == b[1] && mem'[p + 2] == b[2] && mem'[p + 3] == b[3];
  }

  lemma BlockFrame(mem: seq<Byte>, mem': seq<Byte>, p: nat, d: seq<Byte>)
    requires Block(mem, p, d) && Agree(mem, mem', p, p + LEN + |d|)
    ensures Block(mem', p, d)
  {
    hide Word;
    var q := p + LEN + |d|;
    assert mem'[p..p + LEN] == mem'[p..q][..LEN] == mem[p..q][..LEN] == mem[p..p + LEN];
    WordFrame(mem, mem', p);
    assert mem'[p + LEN..q] == mem'[p..q][LEN..] == mem[p..q][LEN..] == mem[p + LEN..q];
  }

  lemma {:induction false} LaidFrame(mem: seq<Byte>, mem': seq<Byte>, p: nat, ds: seq<seq<Byte>>, q: nat)
    requires Laid(mem, p, ds, q) && Agree(mem, mem', p, q)
    ensures Laid(mem', p, ds, q)
    decreases |ds|
  {
    if ds != [] {
      var m := p + LEN + |ds[0]|;
      LaidBound(mem, m, ds[1..], q);
      assert mem'[p..m] == mem'[p..q][..m - p] == mem[p..m];
      assert mem'[m..q] == mem'[p..q][m - p..] == mem[m..q];
      BlockFrame(mem, mem', p, ds[0]);
      LaidFrame(mem, mem', m, ds[1..], q);
    }
  }

  lemma {:induction false} LaidBound(mem: seq<Byte>, p: nat, ds: seq<seq<Byte>>, q: nat)
    requires Laid(mem, p, ds, q)
    ensures p <= q && (ds != [] ==> p + LEN <= q)
    decreases |ds|
  {
    if ds != [] { LaidBound(mem, p + LEN + |ds[0]|, ds[1..], q); }
  }

  lemma {:induction false} LaidSnoc(mem: seq<Byte>, p: nat, ds: seq<seq<Byte>>, q: nat, d: seq<Byte>)
    requires Laid(mem, p, ds, q) && Block(mem, q, d)
    ensures Laid(mem, p, ds + [d], q + LEN + |d|)
    decreases |ds|
  {
    if ds == [] {
      assert [d][1..] == [];
    } else {
      LaidBound(mem, p + LEN + |ds[0]|, ds[1..], q);
      LaidSnoc(mem, p + LEN + |ds[0]|, ds[1..], q, d);
      assert (ds + [d])[1..] == ds[1..] + [d];
    }
  }

  // ----- how the layout moves

  function ProduceLayout(s: State, l: Layout): Layout {
    match s.prod
    case WrapTail(d) => l.(wrapped := true, w := s.tail, lower := [])
    case Publish(d) => if l.wrapped then l.(lower := l.lower + [d]) else l.(upper := l.upper + [d])
    case _ => l
  }

  function ConsumeLayout(s: State, l: Layout): Layout {
    match s.cons
    case Resting => l.(hold := NoHold)
    case WrapHead => Layout(false, 0, l.lower, [], NoHold)
    case AdvanceHead(len) => if l.upper != [] then l.(upper := l.upper[1..], hold := Held(s.head, l.upper[0])) else l
    case _ => l
  }

  // ----- the producer keeps the invariant

  /** A store of the producer leaves every block, the pad and the block handed out as they are. */
  lemma StoreKeeps(s: State, l: Layout, p: nat, b: seq<Byte>)
    requires Bounds(s) && Queue(s, l) && HoldOk(s, l) && s.tail <= p && p + |b| <= s.c.size
    requires l.wrapped ==> p + |b| + s.c.emax <= s.head
    ensures var r := s.(mem := Put(s.mem, p, b)); Bounds(r) && Queue(r, l) && HoldOk(r, l)
  {
    hide Laid, Block, Word, Put;
    var mem' := Put(s.mem, p, b);
    Outside(s.mem, p, b, s.head, if l.wrapped then l.w else s.tail);
    LaidFrame(s.mem, mem', s.head, l.upper, if l.wrapped then l.w else s.tail);
    if l.wrapped {
      Outside(s.mem, p, b, HEADER, s.tail);
      LaidFrame(s.mem, mem', HEADER, l.lower, s.tail);
      if l.w + LEN <= |s.mem| {
        Outside(s.mem, p, b, l.w, l.w + LEN);
        WordFrame(s.mem, mem', l.w);
      }
    }
    if l.hold.Held? {
      assert l.hold.start + LEN + |l.hold.data| <= |s.mem|;
      Outside(s.mem, p, b, l.hold.start, s.head);
      BlockFrame(s.mem, mem', l.hold.start, l.hold.data);
    }
  }

  lemma Outside(mem: seq<Byte>, p: nat, b: seq<Byte>, x: nat, y: nat)
    requires p + |b| <= |mem| && x <= y <= |mem| && (y <= p || p + |b| <= x)
    ensures Agree(mem, Put(mem, p, b), x, y)
  {
  }

  lemma PadKeeps(s: State, l: Layout, r: State)
    requires Inv(s, l) && s.prod.WritePad? && r == Produce(s, [])
    ensures Inv(r, l)
  {
    hide Laid, Word, WordBytes, Block;
    StoreKeeps(s, l, s.tail, WordBytes(PAD));
    PutWord(s.mem, s.tail, PAD);
  }

  lemma LenKeeps(s: State, l: Layout, r: State)
    requires Inv(s, l) && s.prod.WriteLen? && r == Produce(s, [])
    ensures Inv(r, l)
  {
    hide Laid, Word, WordBytes, Block;
    StoreKeeps(s, l, s.tail, WordBytes(|s.prod.data| + LEN));
    PutWord(s.mem, s.tail, |s.prod.data| + LEN);
  }

  /** A step that changes memory and the producer's position only. */
  lemma Reassemble(s: State, l: Layout, r: State)
    requires Inv(s, l) && r == s.(mem := r.mem, prod := r.prod) && Bounds(r) && Queue(r, l) && HoldOk(r, l)
    requires ProducerOk(r, l)
    ensures Inv(r, l)
  {
    hide Queue, HoldOk, ProducerOk;
  }

  lemma DataKeeps(s: State, l: Layout, r: State)
    requires Inv(s, l) && s.prod.WriteData? && r == Produce(s, [])
    ensures Inv(r, l)
  {
    hide Queue, HoldOk, Put, Word, Block, ConsumerOk, Fifo;
    var d, i := s.prod.data, s.prod.i;
    if i < |d| {
      ByteKeeps(s, l, d, i, s.tail + LEN + i, r);
    } else {
      SameProducer(s, l, r.prod);
      BlockDone(s.mem, s.tail, d);
      Reassemble(s, l, r);
    }
  }

  lemma ByteKeeps(s: State, l: Layout, d: seq<Byte>, i: nat, at: nat, r: State)
    requires Inv(s, l) && s.prod == WriteData(d, i) && i < |d| && at == s.tail + LEN + i && at < |s.mem|
    requires r == s.(mem := Put(s.mem, at, [d[i]]), prod := WriteData(d, i + 1))
    ensures Inv(r, l)
  {
    hide Queue, HoldOk, Put, Word, ConsumerOk, Fifo;
    StoreKeeps(s, l, at, [d[i]]);
    SameProducer(s.(mem := Put(s.mem, at, [d[i]])), l, r.prod);
    ByteWritten(s.mem, s.tail, d, i, r.mem);
    Reassemble(s, l, r);
  }

  lemma SameProducer(s: State, l: Layout, p: Producer)
    requires Bounds(s) && Queue(s, l) && HoldOk(s, l)
    ensures Bounds(s.(prod := p)) && Queue(s.(prod := p), l) && HoldOk(s.(prod := p), l)
  {
    hide Laid, Block, Word;
  }

  lemma BlockDone(mem: seq<Byte>, tail: nat, d: seq<Byte>)
    requires tail + LEN + |d| <= |mem| && Word(mem, tail) == |d| + LEN && mem[tail + LEN..tail + LEN + |d|] == d[..|d|]
    ensures Block(mem, tail, d)
  {
    assert d[..|d|] == d;
  }

  lemma ByteWritten(mem: seq<Byte>, tail: nat, d: seq<Byte>, i: nat, mem': seq<Byte>)
    requires i < |d| && tail + LEN + |d| <= |mem| && mem' == Put(mem, tail + LEN + i, [d[i]])
    requires Word(mem, tail) == |d| + LEN && mem[tail + LEN..tail + LEN + i] == d[..i]
    ensures Word(mem', tail) == |d| + LEN && mem'[tail + LEN..tail + LEN + i + 1] == d[..i + 1]
  {
    var p := tail + LEN;
    assert mem'[p + i..p + i + 1] == [d[i]];
    assert mem'[p + i] == mem'[p + i..p + i + 1][0] == d[i];
    assert mem'[p..p + i] == mem[p..p + i];
    assert mem'[p..p + i + 1] == mem'[p..p + i] + [mem'[p + i]];
    assert d[..i + 1] == d[..i] + [d[i]];
  }

  lemma PublishKeeps(s: State, l: Layout, r: State)
    requires Inv(s, l) && s.prod.Publish? && r == Produce(s, [])
    ensures Inv(r, ProduceLayout(s, l))
  {
    hide Laid, Word, Block;
    var d := s.prod.data;
    if l.wrapped {
      LaidSnoc(s.mem, HEADER, l.lower, s.tail, d);
    } else {
      LaidSnoc(s.mem, s.head, l.upper, s.tail, d);
      assert l.lower == [];
    }
  }

  lemma WrapKeeps(s: State, l: Layout, r: State)
    requires Inv(s, l) && s.prod.WrapTail? && r == Produce(s, [])
    ensures Inv(r, ProduceLayout(s, l))
  {
    hide Word, Block;
  }

  /** Steps of the producer that only read. */
  lemma PollKeeps(s: State, l: Layout, data: seq<Byte>, r: State)
    requires Inv(s, l) && IsPayload(s.c, data) && r == Produce(s, data)
    requires s.prod.Ready? || s.prod.Decide? || s.prod.AwaitAlign? || s.prod.AwaitRoom?
    ensures Inv(r, l)
  {
    hide Laid, Word, Block, Put;
    assert r == s.(prod := r.prod, pushFailed := r.pushFailed);
  }

  lemma ProduceKeepsInv(s: State, l: Layout, data: seq<Byte>)
    requires Inv(s, l) && IsPayload(s.c, data)
    ensures Inv(Produce(s, data), ProduceLayout(s, l))
  {
    hide Inv;
    var r := Produce(s, data);
    match s.prod
    case WritePad(_) => PadKeeps(s, l, r);
    case WriteLen(_) => LenKeeps(s, l, r);
    case WriteData(_, _) => DataKeeps(s, l, r);
    case Publish(_) => PublishKeeps(s, l, r);
    case WrapTail(_) => WrapKeeps(s, l, r);
    case _ => PollKeeps(s, l, data, r);
  }

  // ----- the consumer keeps the invariant

  /** In front of head lies the first block of upper, or, when that is empty, the end of the upper part. */
  lemma AtHead(s: State, l: Layout)
    requires Bounds(s) && Queue(s, l)
    ensures l.upper != [] ==>
        Block(s.mem, s.head, l.upper[0]) && IsPayload(s.c, l.upper[0]) && s.head < (if l.wrapped then l.w else s.tail)
    ensures l.upper == [] ==> s.head == if l.wrapped then l.w else s.tail
  {
    if l.upper != [] { assert l.upper[0] in l.upper; }
  }

  lemma AdvanceKeeps(s: State, l: Layout, r: State)
    requires Inv(s, l) && s.cons.AdvanceHead? && r == Consume(s)
    ensures Inv(r, ConsumeLayout(s, l))
  {
    hide Word, Block;
    var end := if l.wrapped then l.w else s.tail;
    AtHead(s, l);
    BlockFits(s.mem, s.head, l.upper[0]);
    assert Laid(s.mem, s.head + LEN + |l.upper[0]|, l.upper[1..], end);
    LaidBound(s.mem, s.head + LEN + |l.upper[0]|, l.upper[1..], end);
    AdvanceRest(s, l, r);
  }

  lemma BlockFits(mem: seq<Byte>, p: nat, d: seq<Byte>)
    requires Block(mem, p, d)
    ensures p + LEN + |d| <= |mem| && Word(mem, p) == |d| + LEN
  {
  }

  lemma AdvanceRest(s: State, l: Layout, r: State)
    requires Inv(s, l) && s.cons.AdvanceHead? && r == Consume(s) && l.upper != []
    requires Block(s.mem, s.head, l.upper[0]) && IsPayload(s.c, l.upper[0])
    requires s.head + LEN + |l.upper[0]| <= (if l.wrapped then l.w else s.tail)
    requires Laid(s.mem, s.head + LEN + |l.upper[0]|, l.upper[1..], if l.wrapped then l.w else s.tail)
    ensures Inv(r, ConsumeLayout(s, l))
  {
    hide Word, Block, Laid, Padded;
    assert l.upper == [l.upper[0]] + l.upper[1..];
    assert forall d :: d in l.upper[1..] ==> d in l.upper;
    assert r.mem == s.mem && r.head == s.head + LEN + |l.upper[0]|;
  }

  lemma ReturnKeeps(s: State, l: Layout, r: State)
    requires Inv(s, l) && s.cons.ReturnLen? && r == Consume(s)
    ensures Inv(r, ConsumeLayout(s, l))
  {
    hide Laid, Word;
  }

  lemma WrapHeadKeeps(s: State, l: Layout, r: State)
    requires Inv(s, l) && s.cons.WrapHead? && r == Consume(s)
    ensures Inv(r, ConsumeLayout(s, l))
  {
    hide Word, Block;
  }

  /** A step that changes the consumer's position only, and hands nothing out. */
  lemma Moved(s: State, l: Layout, r: State, l': Layout)
    requires Inv(s, l) && r == s.(cons := r.cons, popEmpty := r.popEmpty) && ConsumerOk(r, l)
    requires r.cons.Resting? ==> r.popEmpty
    requires !s.cons.ReturnLen? && !r.cons.ReturnLen? && l' == l.(hold := l'.hold)
    requires l'.hold == if s.cons.Resting? then NoHold else l.hold
    ensures Inv(r, l')
  {
    hide Laid, Block, Word;
  }

  /** Steps of the consumer that only read. */
  lemma PeekKeeps(s: State, l: Layout, r: State)
    requires Inv(s, l) && r == Consume(s) && !s.cons.AdvanceHead? && !s.cons.ReturnLen? && !s.cons.WrapHead?
    ensures Inv(r, ConsumeLayout(s, l))
  {
    hide Laid, Word, Block, HoldOk, Fifo, ProducerOk;
    AtHead(s, l);
    if l.upper != [] { BlockFits(s.mem, s.head, l.upper[0]); }
    Moved(s, l, r, ConsumeLayout(s, l));
  }

  lemma ConsumeKeepsInv(s: State, l: Layout)
    requires Inv(s, l)
    ensures Inv(Consume(s), ConsumeLayout(s, l))
  {
    hide Inv;
    match s.cons
    case AdvanceHead(_) => AdvanceKeeps(s, l, Consume(s));
    case ReturnLen(_) => ReturnKeeps(s, l, Consume(s));
    case WrapHead => WrapHeadKeeps(s, l, Consume(s));
    case _ => PeekKeeps(s, l, Consume(s));
  }
}
