/** What holds in every run of the ring, and that the ring never wedges. */
module ShmRingRuns {
  import opened ShmRing
  import opened ShmRingProof

  ghost predicate IsRun(run: seq<State>) {
    && run != []
    && (exists c, mem | IsConfig(c) && |mem| == c.size :: run[0] == Initial(c, mem))
    && forall i :: 0 <= i < |run| - 1 ==> Next(run[i], run[i + 1])
  }

  lemma {:induction false} RunKeepsInv(run: seq<State>, i: nat) returns (l: Layout)
    requires IsRun(run) && i < |run|
    ensures Inv(run[i], l)
    decreases i
  {
    if i == 0 {
      l := Layout(false, 0, [], [], NoHold);
      var c, mem :| IsConfig(c) && |mem| == c.size && run[0] == Initial(c, mem);
    } else {
      var k := RunKeepsInv(run, i - 1);
      assert Next(run[i - 1], run[i]);
      l := StepKeepsInv(run[i - 1], k, run[i]);
    }
  }

  lemma StepKeepsInv(s: State, l: Layout, r: State) returns (l': Layout)
    requires Inv(s, l) && Next(s, r)
    ensures Inv(r, l')
  {
    hide Inv, Produce, Consume, IsPayload;
    if data :| IsPayload(s.c, data) && r == Produce(s, data) {
      ProduceKeepsInv(s, l, data);
      l' := ProduceLayout(s, l);
    } else {
      ConsumeKeepsInv(s, l);
      l' := ConsumeLayout(s, l);
    }
  }

  /** Over every interleaving the popped payloads are, byte for byte and in order, a prefix of the pushed ones;
      no access leaves the mapping, no assertion fails and no 32-bit computation overflows. */
  lemma RingIsFifo(run: seq<State>, i: nat)
    requires IsRun(run) && i < |run|
    ensures run[i].popped <= run[i].pushed && !run[i].fault
  {
    hide Queue, HoldOk, ProducerOk, ConsumerOk;
    var l := RunKeepsInv(run, i);
  }

  /** Until the next pop begins, the block the last pop handed out keeps its bytes. */
  lemma HandedOutBlockIsIntact(run: seq<State>, i: nat)
    requires IsRun(run) && i < |run| && run[i].cons.Resting? && run[i].popped != [] && !run[i].popEmpty
    ensures var d := run[i].popped[|run[i].popped| - 1];
            run[i].out + |d| <= |run[i].mem| && run[i].mem[run[i].out..run[i].out + |d|] == d
  {
    var l := RunKeepsInv(run, i);
  }

  /** A pop that returns 0 found the ring empty: everything pushed had been popped. */
  lemma EmptyPopIsRight(run: seq<State>, i: nat)
    requires IsRun(run) && i < |run| && (run[i].cons.CheckEmpty? || run[i].cons.CheckAgain?)
    requires run[i].head == run[i].tail
    ensures run[i].popped == run[i].pushed
  {
    var l := RunKeepsInv(run, i);
    AtHead(run[i], l);
  }

  // ----- one process at a time

  /** Steps left in a push when the consumer stands still. */
  function PushRank(p: Producer): nat {
    match p
    case Ready => 0
    case Publish(_) => 1
    case WriteData(d, i) => if i <= |d| then 2 + |d| - i else 0
    case WriteLen(d) => 3 + |d|
    case AwaitRoom(d, cnt) => if cnt <= 10 then 14 + |d| - cnt else 0
    case WrapTail(d) => 15 + |d|
    case WritePad(d) => 16 + |d|
    case AwaitAlign(d, cnt) => if cnt <= 10 then 27 + |d| - cnt else 0
    case Decide(d) => 28 + |d|
  }

  /** Let the producer finish the push it is in. (A step that does not get closer to the end can only be a fault.) */
  function FinishPush(s: State): (r: State)
    decreases PushRank(s.prod)
  {
    if s.prod.Ready? then s
    else
      var r := Produce(s, s.prod.data);
      if PushRank(r.prod) < PushRank(s.prod) then FinishPush(r) else r
  }

  lemma PushProgress(s: State, l: Layout, r: State)
    requires Inv(s, l) && !s.prod.Ready? && r == Produce(s, s.prod.data)
    ensures PushRank(r.prod) < PushRank(s.prod) && Inv(r, ProduceLayout(s, l))
    ensures r.head == s.head && r.cons == s.cons && r.popped == s.popped && r.c == s.c
  {
    hide Queue, HoldOk, Fifo, ConsumerOk, Room, Block, Padded, ProduceLayout, Produce;
    ProduceKeepsInv(s, l, s.prod.data);
    RankDrops(s, r);
  }

  lemma RankDrops(s: State, r: State)
    requires !s.prod.Ready? && r == Produce(s, s.prod.data) && !r.fault
    requires s.prod.AwaitAlign? || s.prod.AwaitRoom? ==> s.prod.cnt <= 10
    requires s.prod.WriteData? ==> s.prod.i <= |s.prod.data|
    ensures PushRank(r.prod) < PushRank(s.prod)
    ensures r.head == s.head && r.cons == s.cons && r.popped == s.popped && r.c == s.c
  {
    hide Produce, PushRank;
    if s.prod.Decide? || s.prod.AwaitAlign? || s.prod.AwaitRoom? { WaitRankDrops(s, r); } else { WriteRankDrops(s, r); }
  }

  lemma WaitRankDrops(s: State, r: State)
    requires (s.prod.Decide? || s.prod.AwaitAlign? || s.prod.AwaitRoom?) && r == Produce(s, s.prod.data) && !r.fault
    requires s.prod.AwaitAlign? || s.prod.AwaitRoom? ==> s.prod.cnt <= 10
    ensures PushRank(r.prod) < PushRank(s.prod)
  {
  }

  lemma WriteRankDrops(s: State, r: State)
    requires (s.prod.WritePad? || s.prod.WrapTail? || s.prod.WriteLen? || s.prod.WriteData? || s.prod.Publish?)
    requires r == Produce(s, s.prod.data) && !r.fault && (s.prod.WriteData? ==> s.prod.i <= |s.prod.data|)
    ensures PushRank(r.prod) < PushRank(s.prod)
  {
    hide Put, WordBytes;
  }

  lemma {:induction false} FinishPushKeepsInv(s: State, l: Layout) returns (l': Layout)
    requires Inv(s, l)
    ensures Inv(FinishPush(s), l') && FinishPush(s).prod.Ready?
    ensures var r := FinishPush(s); r.head == s.head && r.cons == s.cons && r.popped == s.popped && r.c == s.c
    decreases PushRank(s.prod)
  {
    hide Inv, Produce;
    if s.prod.Ready? {
      l' := l;
    } else {
      PushProgress(s, l, Produce(s, s.prod.data));
      l' := FinishPushKeepsInv(Produce(s, s.prod.data), ProduceLayout(s, l));
    }
  }

  /** Steps left in a pop when the producer stands still. */
  function PopRank(c: Consumer): nat {
    match c
    case Resting => 0 case ReturnLen(_) => 1 case AdvanceHead(_) => 2 case ReadLen => 3 case AssertLen => 4
    case CheckAgain => 5 case WrapHead => 6 case CheckPad => 7 case AlignHead => 8 case CheckEmpty => 9
  }

  /** Let the consumer finish the pop it is in. */
  function FinishPop(s: State): (r: State)
    decreases PopRank(s.cons)
  {
    if s.cons.Resting? then s
    else
      var r := Consume(s);
      if PopRank(r.cons) < PopRank(s.cons) then FinishPop(r) else r
  }

  lemma PopProgress(s: State, l: Layout, r: State)
    requires Inv(s, l) && !s.cons.Resting? && r == Consume(s)
    ensures PopRank(r.cons) < PopRank(s.cons) && Inv(r, ConsumeLayout(s, l))
    ensures r.tail == s.tail && r.prod == s.prod && r.pushed == s.pushed && r.c == s.c
  {
    hide Queue, HoldOk, Fifo, ProducerOk, ConsumerOk, Word, ConsumeLayout;
    ConsumeKeepsInv(s, l);
  }

  lemma {:induction false} FinishPopKeepsInv(s: State, l: Layout) returns (l': Layout)
    requires Inv(s, l)
    ensures Inv(FinishPop(s), l') && FinishPop(s).cons.Resting?
    ensures var r := FinishPop(s); r.tail == s.tail && r.prod == s.prod && r.pushed == s.pushed && r.c == s.c
    decreases PopRank(s.cons)
  {
    hide Inv, Consume;
    if s.cons.Resting? {
      l' := l;
    } else {
      PopProgress(s, l, Consume(s));
      l' := FinishPopKeepsInv(Consume(s), ConsumeLayout(s, l));
    }
  }

  /** shm_cq_push(data) and shm_cq_pop() without concurrent activity. */
  function Push(s: State, data: seq<Byte>): State { FinishPush(Produce(s, data)) }

  function Pop(s: State): State { FinishPop(Consume(s)) }

  // ----- what a pop returns

  datatype Answer = Nothing | Payload(d: seq<Byte>)

  /** What the pop in progress is going to return if the producer stands still. */
  function Target(s: State, l: Layout): Answer {
    match s.cons
    case ReturnLen(_) => if l.hold.Held? then Payload(l.hold.data) else Nothing
    case _ => if l.upper + l.lower == [] then Nothing else Payload((l.upper + l.lower)[0])
  }

  ghost predicate Answers(s: State, a: Answer, r: State) {
    match a
    case Nothing => r.popEmpty && r.popped == s.popped && r.head == r.tail
    case Payload(d) => !r.popEmpty && r.popped == s.popped + [d]
  }

  lemma TargetStep(s: State, l: Layout, r: State)
    requires Inv(s, l) && !s.cons.Resting? && r == Consume(s) && !r.fault
    ensures if r.cons.Resting? then Answers(s, Target(s, l), r)
            else Target(r, ConsumeLayout(s, l)) == Target(s, l) && r.popped == s.popped
  {
    hide Queue, HoldOk, ProducerOk, Fifo;
    if s.cons.ReturnLen? { ReturnAnswers(s, l, r); }
    else if s.cons.WrapHead? { assert l.upper + l.lower == l.lower + [] == l.lower; }
    else if s.cons.AdvanceHead? { }
    else { EmptyAnswers(s, l, r); }
  }

  /** The reading steps of a pop: only an empty ring makes it return 0. */
  lemma EmptyAnswers(s: State, l: Layout, r: State)
    requires Bounds(s) && Queue(s, l) && ConsumerOk(s, l) && r == Consume(s) && !r.fault
    requires !s.cons.Resting? && !s.cons.ReturnLen? && !s.cons.WrapHead? && !s.cons.AdvanceHead?
    ensures r.cons.Resting? ==> l.upper + l.lower == [] && r.popEmpty && r.popped == s.popped && r.head == r.tail
    ensures !r.cons.Resting? ==> !r.cons.ReturnLen? && r.popped == s.popped
  {
    hide Laid, Word, Padded;
    AtHead(s, l);
  }

  lemma ReturnAnswers(s: State, l: Layout, r: State)
    requires HoldOk(s, l) && s.cons.ReturnLen? && r == Consume(s) && !r.fault
    ensures l.hold.Held? && r.cons.Resting? && Answers(s, Payload(l.hold.data), r)
  {
    BlockFits(s.mem, l.hold.start, l.hold.data);
    HeldBytes(s.mem, l.hold.start, l.hold.data);
  }

  lemma HeldBytes(mem: seq<Byte>, p: nat, d: seq<Byte>)
    requires Block(mem, p, d)
    ensures mem[p + LEN..p + LEN + |d|] == d
  {
  }

  lemma {:induction false} FinishPopAnswers(s: State, l: Layout)
    requires Inv(s, l) && !s.cons.Resting?
    ensures Answers(s, Target(s, l), FinishPop(s))
    decreases PopRank(s.cons)
  {
    hide Queue, HoldOk, Fifo, ProducerOk, ConsumerOk, Consume, Target, ConsumeLayout;
    var r := Consume(s);
    PopProgress(s, l, r);
    TargetStep(s, l, r);
    if !r.cons.Resting? { FinishPopAnswers(r, ConsumeLayout(s, l)); }
  }

  /** Without concurrent activity a pop returns the oldest payload not yet popped, or 0 exactly when there is none. */
  lemma PopReturnsOldest(s: State, l: Layout)
    requires Inv(s, l) && s.cons.Resting?
    ensures if s.popped == s.pushed then Pop(s).popEmpty && Pop(s).popped == s.popped && Pop(s).head == Pop(s).tail
            else |s.popped| < |s.pushed| && !Pop(s).popEmpty && Pop(s).popped == s.popped + [s.pushed[|s.popped|]]
  {
    hide Queue, HoldOk, ProducerOk, ConsumerOk, FinishPop;
    var r := Consume(s);
    ConsumeKeepsInv(s, l);
    FinishPopAnswers(r, ConsumeLayout(s, l));
    assert s.pushed == s.popped + (l.upper + l.lower);
  }

  // ----- whether a push succeeds

  ghost predicate Pushed(s: State, d: seq<Byte>, r: State) { !r.pushFailed && r.pushed == s.pushed + [d] }

  lemma {:induction false} WritingSucceeds(s: State, l: Layout)
    requires Inv(s, l) && (s.prod.WriteLen? || s.prod.WriteData? || s.prod.Publish?)
    ensures Pushed(s, s.prod.data, FinishPush(s))
    decreases PushRank(s.prod)
  {
    hide Queue, HoldOk, Fifo, ProducerOk, ConsumerOk, Put, WordBytes, ProduceLayout;
    var r := Produce(s, s.prod.data);
    PushProgress(s, l, r);
    if !s.prod.Publish? { WritingSucceeds(r, ProduceLayout(s, l)); }
  }

  predicate HasRoom(s: State, d: seq<Byte>) { s.head <= s.tail || s.head >= s.tail + |d| + LEN + s.c.emax }

  lemma {:induction false} AwaitRoomDecides(s: State, l: Layout)
    requires Inv(s, l) && s.prod.AwaitRoom? && (HasRoom(s, s.prod.data) ==> s.prod.cnt < 10)
    ensures if HasRoom(s, s.prod.data) then Pushed(s, s.prod.data, FinishPush(s))
            else FinishPush(s).pushFailed && FinishPush(s).pushed == s.pushed && FinishPush(s).tail == s.tail
    decreases PushRank(s.prod)
  {
    hide Queue, HoldOk, Fifo, ConsumerOk, ProduceLayout;
    var r := Produce(s, s.prod.data);
    PushProgress(s, l, r);
    if r.prod.WriteLen? { WritingSucceeds(r, ProduceLayout(s, l)); }
    else if r.prod.AwaitRoom? { AwaitRoomDecides(r, ProduceLayout(s, l)); }
  }

  ghost predicate Refused(s: State, r: State, tail: nat) { r.pushFailed && r.pushed == s.pushed && r.tail == tail }

  /** There is room at the base, once the tail has gone there. */
  predicate RoomAtBase(s: State, d: seq<Byte>) { s.head >= HEADER + |d| + LEN + s.c.emax }

  /** From the wrap on: the tail goes to the base, and the push waits for room there. */
  lemma {:induction false} WrapDecides(s: State, l: Layout)
    requires Inv(s, l) && (s.prod.WritePad? || s.prod.WrapTail?)
    ensures if RoomAtBase(s, s.prod.data) then Pushed(s, s.prod.data, FinishPush(s))
            else Refused(s, FinishPush(s), HEADER)
    decreases PushRank(s.prod)
  {
    hide Queue, HoldOk, Fifo, ConsumerOk, ProduceLayout, Put, WordBytes, Padded;
    var r := Produce(s, s.prod.data);
    PushProgress(s, l, r);
    if r.prod.WrapTail? { WrapDecides(r, ProduceLayout(s, l)); } else { AwaitRoomDecides(r, ProduceLayout(s, l)); }
  }

  /** The consumer has left the base, and the producer is not behind it. */
  predicate BaseLeft(s: State) { HEADER < s.head <= s.tail }

  lemma {:induction false} AwaitAlignDecides(s: State, l: Layout)
    requires Inv(s, l) && s.prod.AwaitAlign? && (BaseLeft(s) ==> s.prod.cnt < 10)
    ensures if BaseLeft(s) && RoomAtBase(s, s.prod.data) then Pushed(s, s.prod.data, FinishPush(s))
            else Refused(s, FinishPush(s), if BaseLeft(s) then HEADER else s.tail)
    decreases PushRank(s.prod)
  {
    hide Queue, HoldOk, Fifo, ConsumerOk, ProduceLayout;
    var r := Produce(s, s.prod.data);
    PushProgress(s, l, r);
    if r.prod.AwaitAlign? { AwaitAlignDecides(r, ProduceLayout(s, l)); }
    else if !r.prod.Ready? { WrapDecides(r, ProduceLayout(s, l)); }
  }

  /** The block of d fits between the tail and the end of the ring. */
  predicate FitsAtEnd(s: State, d: seq<Byte>) { s.tail + |d| + LEN <= s.c.size }

  /** The ring as it is takes d. */
  predicate Takes(s: State, d: seq<Byte>) {
    if FitsAtEnd(s, d) then s.head <= s.tail || s.head >= s.tail + |d| + LEN + s.c.emax
    else HEADER < s.head <= s.tail && s.head >= HEADER + |d| + LEN + s.c.emax
  }

  /** Wherever the consumer stands: if it stands still, a push succeeds if and only if the ring takes the payload. One
      that is refused leaves the tail where it was, or at the base. */
  lemma PushDecides(s: State, l: Layout, data: seq<Byte>)
    requires Inv(s, l) && s.prod.Ready? && IsPayload(s.c, data)
    ensures if Takes(s, data) then Pushed(s, data, Push(s, data))
            else Refused(s, Push(s, data), if !FitsAtEnd(s, data) && BaseLeft(s) then HEADER else s.tail)
  {
    hide Queue, HoldOk, Fifo, ConsumerOk, FinishPush, Put;
    var s1 := Produce(s, data);
    ProduceKeepsInv(s, l, data);
    var s2 := Produce(s1, data);
    PushProgress(s1, l, s2);
    OneStep(s1);
    if s2.prod.AwaitRoom? { AwaitRoomDecides(s2, l); } else { AwaitAlignDecides(s2, l); }
  }

  /** In every run, whenever the producer is not in a push: an undisturbed push of a legal payload succeeds if and only
      if the ring takes it. Otherwise nothing is pushed. */
  lemma PushIsDecided(run: seq<State>, i: nat, d: seq<Byte>)
    requires IsRun(run) && i < |run| && run[i].prod.Ready? && IsPayload(run[i].c, d)
    ensures var s := run[i]; var r := Push(s, d);
            && (Pushed(s, d, r) <==>
                 if s.c.size - s.tail >= |d| + LEN then s.head <= s.tail || s.head >= s.tail + |d| + LEN + s.c.emax
                 else HEADER < s.head <= s.tail && s.head >= HEADER + |d| + LEN + s.c.emax)
            && (!Pushed(s, d, r) ==> r.pushFailed && r.pushed == s.pushed)
  {
    hide Inv, Push;
    var l := RunKeepsInv(run, i);
    PushDecides(run[i], l, d);
  }

  // ----- whether a push may give up while the consumer runs

  /** The producer waits for something, and it is not there. */
  predicate InVain(s: State) {
    match s.prod
    case AwaitAlign(_, _) => !BaseLeft(s)
    case AwaitRoom(d, _) => !HasRoom(s, d)
    case _ => false
  }

  predicate IsWaiting(p: Producer) { p.AwaitAlign? || p.AwaitRoom? }

  function CountedTo(p: Producer, k: nat): Producer
    requires IsWaiting(p)
  {
    p.(cnt := k)
  }

  /** Moments before the i-th, in order, at which a producer that waits as in p looked in vain. */
  ghost predicate Looks(run: seq<State>, i: nat, p: Producer, ks: seq<nat>)
    requires i <= |run| && IsWaiting(p)
  {
    && (forall k :: 0 <= k < |ks| ==> ks[k] < i && run[ks[k]].prod == CountedTo(p, k) && InVain(run[ks[k]]))
    && forall j, k :: 0 <= j < k < |ks| ==> ks[j] < ks[k]
  }

  /** A wait that has counted to n has looked n times. */
  lemma {:induction false} CountIsLooks(run: seq<State>, i: nat) returns (ks: seq<nat>)
    requires IsRun(run) && i < |run| && IsWaiting(run[i].prod)
    ensures |ks| == run[i].prod.cnt && Looks(run, i, run[i].prod, ks)
    decreases i
  {
    hide IsRun, InVain;
    if run[i].prod.cnt == 0 {
      ks := [];
    } else {
      WaitStep(run, i);
      ks := CountIsLooks(run, i - 1);
      if run[i - 1].prod != run[i].prod { ks := ks + [i - 1]; }
    }
  }

  lemma WaitStep(run: seq<State>, i: nat)
    requires IsRun(run) && i < |run| && IsWaiting(run[i].prod) && run[i].prod.cnt > 0
    ensures i > 0
    ensures var s, p := run[i - 1], run[i].prod;
      s.prod == p || (s.prod == CountedTo(p, p.cnt - 1) && InVain(s))
  {
    hide Produce, Consume;
    assert i > 0 && Next(run[i - 1], run[i]);
    Counted(run[i - 1], run[i]);
  }

  lemma Counted(s: State, r: State)
    requires Next(s, r) && IsWaiting(r.prod) && r.prod.cnt > 0
    ensures s.prod == r.prod || (s.prod == CountedTo(r.prod, r.prod.cnt - 1) && InVain(s))
  {
    hide Produce, Consume, IsPayload;
    if data :| IsPayload(s.c, data) && r == Produce(s, data) { ProduceCounts(s, data); }
  }

  lemma ProduceCounts(s: State, data: seq<Byte>)
    ensures var p := Produce(s, data).prod;
      IsWaiting(p) && p.cnt > 0 ==> s.prod == p || (s.prod == CountedTo(p, p.cnt - 1) && InVain(s))
  {
    hide Put, WordBytes;
  }

  /** In every run, whatever the consumer does meanwhile: a push gives up only after ten looks in vain, for the base to
      be left or for room, one after the other. */
  lemma GivesUpAfterTen(run: seq<State>, i: nat) returns (ks: seq<nat>)
    requires IsRun(run) && i + 1 < |run| && IsWaiting(run[i].prod) && run[i + 1].prod.Ready?
    ensures |ks| == 10 && Looks(run, i, run[i].prod, ks)
    ensures run[i + 1].pushFailed && run[i + 1].pushed == run[i].pushed
  {
    hide IsRun, Looks, Consume;
    assert Next(run[i], run[i + 1]) by { RunSteps(run, i); }
    ks := CountIsLooks(run, i);
  }

  lemma RunSteps(run: seq<State>, i: nat)
    requires IsRun(run) && i + 1 < |run|
    ensures Next(run[i], run[i + 1])
  {
  }

  /** A push on an empty ring succeeds, or fails with the tail at the base. */
  lemma EmptyPush(s: State, l: Layout, data: seq<Byte>)
    requires Inv(s, l) && s.prod.Ready? && s.pushed == s.popped && s.cons.Resting? && IsPayload(s.c, data)
    ensures Pushed(s, data, Push(s, data)) || Refused(s, Push(s, data), HEADER)
    ensures s.head == s.tail == HEADER ==> Pushed(s, data, Push(s, data))
  {
    hide HoldOk, ConsumerOk, Laid, Push;
    assert l.upper == [] && l.lower == [] by { assert s.pushed == s.popped + l.upper + l.lower; }
    EmptyEnds(s, l);
    PushDecides(s, l, data);
  }

  lemma EmptyEnds(s: State, l: Layout)
    requires Bounds(s) && Queue(s, l) && l.upper == [] && l.lower == []
    ensures if l.wrapped then s.tail == HEADER else s.head == s.tail
  {
  }

  lemma OneStep(s: State)
    requires !s.prod.Ready? && PushRank(Produce(s, s.prod.data).prod) < PushRank(s.prod)
    ensures FinishPush(s) == FinishPush(Produce(s, s.prod.data))
  {
  }

  /** In every run: an idle ring that holds nothing takes a legal payload at once, or after one pop that returns 0. */
  lemma RingNeverWedges(run: seq<State>, i: nat, data: seq<Byte>)
    requires IsRun(run) && i < |run| && run[i].prod.Ready? && run[i].cons.Resting? && run[i].pushed == run[i].popped
    requires IsPayload(run[i].c, data)
    ensures var s := run[i];
            || Pushed(s, data, Push(s, data))
            || (Pop(Push(s, data)).popEmpty && Pushed(s, data, Push(Pop(Push(s, data)), data)))
  {
    hide Inv, Pop, Push;
    var l := RunKeepsInv(run, i);
    NeverWedges(run[i], l, data);
  }

  /** In every run: an undisturbed pop returns the oldest payload not yet popped, or 0 exactly when there is none. */
  lemma IdlePopReturnsOldest(run: seq<State>, i: nat)
    requires IsRun(run) && i < |run| && run[i].cons.Resting?
    ensures var s := run[i];
            if s.popped == s.pushed then Pop(s).popEmpty && Pop(s).popped == s.popped
            else |s.popped| < |s.pushed| && !Pop(s).popEmpty && Pop(s).popped == s.popped + [s.pushed[|s.popped|]]
  {
    hide Inv, Pop;
    var l := RunKeepsInv(run, i);
    PopReturnsOldest(run[i], l);
  }

  /** The ring never wedges: an empty ring takes a legal payload at once, or after one pop that returns 0. */
  lemma NeverWedges(s: State, l: Layout, data: seq<Byte>)
    requires Inv(s, l) && s.prod.Ready? && s.cons.Resting? && s.pushed == s.popped && IsPayload(s.c, data)
    ensures
      || Pushed(s, data, Push(s, data))
      || (Pop(Push(s, data)).popEmpty && Pushed(s, data, Push(Pop(Push(s, data)), data)))
  {
    hide Queue, HoldOk, ProducerOk, ConsumerOk, Pop, Push, Fifo;
    var a := Push(s, data);
    EmptyPush(s, l, data);
    if !Pushed(s, data, a) {
      var la := PushKeepsInv(s, l, data);
      PopReturnsOldest(a, la);
      var lb := PopKeepsInv(a, la);
      EmptyPush(Pop(a), lb, data);
    }
  }

  lemma PushKeepsInv(s: State, l: Layout, data: seq<Byte>) returns (l': Layout)
    requires Inv(s, l) && s.prod.Ready? && IsPayload(s.c, data)
    ensures Inv(Push(s, data), l') && Push(s, data).prod.Ready? && Push(s, data).cons == s.cons
    ensures Push(s, data).popped == s.popped && Push(s, data).c == s.c
  {
    hide Inv, FinishPush;
    ProduceKeepsInv(s, l, data);
    l' := FinishPushKeepsInv(Produce(s, data), ProduceLayout(s, l));
  }

  lemma PopKeepsInv(s: State, l: Layout) returns (l': Layout)
    requires Inv(s, l) && s.cons.Resting?
    ensures Inv(Pop(s), l') && Pop(s).cons.Resting? && Pop(s).prod == s.prod && Pop(s).pushed == s.pushed
    ensures Pop(s).c == s.c && Pop(s).tail == s.tail
  {
    hide Inv, FinishPop;
    ConsumeKeepsInv(s, l);
    l' := FinishPopKeepsInv(Consume(s), ConsumeLayout(s, l));
  }
}
