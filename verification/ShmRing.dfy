/** The shared-memory ring of interprocess/shmq.c: one process pushes, one pops, and their memory accesses
    interleave. */
module ShmRing {

  type Byte = x: int | 0 <= x < 256

  const HEADER: nat := 80            // sizeof(shm_cq_t): four 32-bit fields and a 64-byte name
  const LEN: nat := 4                // sizeof(shm_block_t)
  const PAD: nat := 0xFFFF_FFFF
  const MAX_SZ: nat := 2_000_000_000 // shm_cq_max_sz
  const TWO32: nat := 0x1_0000_0000

  /** What shm_cq_create fixes: shm_size and elem_max_sz. */
  datatype Config = Config(size: nat, emax: nat)

  /** The assertion of shm_cq_create on its arguments. */
  predicate Creatable(cqSize: nat, dataMax: nat) { cqSize < MAX_SZ && cqSize > dataMax && cqSize >= dataMax + LEN }

  predicate IsConfig(c: Config) { c.emax >= LEN && c.size >= HEADER && Creatable(c.size - HEADER, c.emax - LEN) }

  // ----- memory

  /** The little-endian 32-bit word at p. */
  function Word(mem: seq<Byte>, p: nat): (w: nat)
    requires p + LEN <= |mem|
  {
    (mem[p] as int) + 0x100 * (mem[p + 1] as int) + 0x1_0000 * (mem[p + 2] as int) + 0x100_0000 * (mem[p + 3] as int)
  }

  function WordBytes(w: nat): (b: seq<Byte>)
    requires w < TWO32
    ensures |b| == LEN
  {
    [w % 0x100, w / 0x100 % 0x100, w / 0x1_0000 % 0x100, w / 0x100_0000]
  }

  function Put(mem: seq<Byte>, p: nat, b: seq<Byte>): (r: seq<Byte>)
    requires p + |b| <= |mem|
    ensures |r| == |mem|
    ensures r[p..p + |b|] == b
    ensures forall i :: 0 <= i < |mem| && !(p <= i < p + |b|) ==> r[i] == mem[i]
  {
    mem[..p] + b + mem[p + |b|..]
  }

  lemma Digits(w: nat)
    requires w < TWO32
    ensures
      w % 0x100 + 0x100 * (w / 0x100 % 0x100) + 0x1_0000 * (w / 0x1_0000 % 0x100) + 0x100_0000 * (w / 0x100_0000) == w
  {
    assert w / 0x1_0000 == w / 0x100 / 0x100 && w / 0x100_0000 == w / 0x1_0000 / 0x100;
  }

  lemma PutWord(mem: seq<Byte>, p: nat, w: nat)
    requires p + LEN <= |mem| && w < TWO32
    ensures Word(Put(mem, p, WordBytes(w)), p) == w
  {
    var r, b := Put(mem, p, WordBytes(w)), WordBytes(w);
    assert forall k :: 0 <= k < LEN ==> r[p + k] == r[p..p + LEN][k] == b[k];
    assert r[p + 0] == b[0] && r[p + 1] == b[1] && r[p + 2] == b[2] && r[p + 3] == b[3];
    Digits(w);
  }

  // ----- the two processes

  /** Where the producer is in shm_cq_push(data). */
  datatype Producer =
    | Ready
    | Decide(data: seq<Byte>)                    // shm_cq_align_tail: is there room up to the end?
    | AwaitAlign(data: seq<Byte>, cnt: nat)      // shm_cq_tail_align_wait
    | WritePad(data: seq<Byte>)
    | WrapTail(data: seq<Byte>)
    | AwaitRoom(data: seq<Byte>, cnt: nat)       // shm_cq_push_wait
    | WriteLen(data: seq<Byte>)
    | WriteData(data: seq<Byte>, i: nat)         // memcpy, byte by byte
    | Publish(data: seq<Byte>)

  /** Where the consumer is in shm_cq_pop. */
  datatype Consumer =
    | Resting
    | CheckEmpty
    | AlignHead                                  // shm_cq_align_head: compare with tail
    | CheckPad                                   // shm_cq_align_head: end of memory or pad marker?
    | WrapHead
    | CheckAgain
    | AssertLen
    | ReadLen
    | AdvanceHead(len: nat)
    | ReturnLen(start: nat)

  /** The shared words and bytes, both processes, and what they have exchanged.
      `fault` records an access outside the mapping, a failed assertion, or arithmetic that leaves its C type. */
  datatype State = State(
    c: Config,
    mem: seq<Byte>,
    head: nat,
    tail: nat,
    prod: Producer,
    cons: Consumer,
    pushed: seq<seq<Byte>>,      // payloads of the successful pushes, in order
    popped: seq<seq<Byte>>,      // payloads returned by pop, in order
    pushFailed: bool,            // the last push returned -1
    popEmpty: bool,              // the last pop returned 0
    out: nat,                    // where the data of the last successful pop lies
    fault: bool)

  function Fault(s: State): State { s.(fault := true) }

  predicate IsPayload(c: Config, data: seq<Byte>) { 0 < |data| && c.emax >= LEN && |data| <= c.emax - LEN }

  function Initial(c: Config, mem: seq<Byte>): State {
    State(c, mem, HEADER, HEADER, Ready, Resting, [], [], false, false, 0, false)
  }

  /** A store of b at p, which faults outside the mapping. */
  function Store(s: State, p: nat, b: seq<Byte>): State {
    if p + |b| <= |s.mem| then s.(mem := Put(s.mem, p, b)) else Fault(s)
  }

  /** One memory access of the producer; `data` is the argument of a push that starts now. */
  function Produce(s: State, data: seq<Byte>): (r: State)
    ensures r.head == s.head && r.cons == s.cons && r.popped == s.popped && r.c == s.c
  {
    match s.prod
    case Ready => if IsPayload(s.c, data) then s.(prod := Decide(data)) else Fault(s)
    case Decide(d) =>
      if s.tail > s.c.size || s.c.size - s.tail >= 0x8000_0000 then Fault(s)
      else if s.c.size - s.tail >= |d| + LEN then s.(prod := AwaitRoom(d, 0))
      else s.(prod := AwaitAlign(d, 0))
    case AwaitAlign(d, cnt) =>
      if cnt == 10 then s.(prod := Ready, pushFailed := true)
      else if s.head > HEADER && s.head <= s.tail then
        s.(prod := if s.c.size >= s.tail + LEN then WritePad(d) else WrapTail(d))
      else s.(prod := AwaitAlign(d, cnt + 1))
    case WritePad(d) => Store(s, s.tail, WordBytes(PAD)).(prod := WrapTail(d))
    case WrapTail(d) => s.(tail := HEADER, prod := AwaitRoom(d, 0))
    case AwaitRoom(d, cnt) =>
      if cnt == 10 then s.(prod := Ready, pushFailed := true)
      else if s.tail + |d| + LEN + s.c.emax >= TWO32 then Fault(s)
      else if s.head <= s.tail || s.head >= s.tail + |d| + LEN + s.c.emax then s.(prod := WriteLen(d))
      else s.(prod := AwaitRoom(d, cnt + 1))
    case WriteLen(d) =>
      if |d| + LEN < TWO32 then Store(s, s.tail, WordBytes(|d| + LEN)).(prod := WriteData(d, 0)) else Fault(s)
    case WriteData(d, i) =>
      if i < |d| then Store(s, s.tail + LEN + i, [d[i]]).(prod := WriteData(d, i + 1)) else s.(prod := Publish(d))
    case Publish(d) =>
      s.(tail := s.tail + |d| + LEN, pushed := s.pushed + [d], prod := Ready, pushFailed := false)
  }

  /** One memory access of the consumer; resting, it starts a pop. */
  function Consume(s: State): (r: State)
    ensures r.tail == s.tail && r.prod == s.prod && r.pushed == s.pushed && r.c == s.c && r.mem == s.mem
  {
    match s.cons
    case Resting => s.(cons := CheckEmpty)
    case CheckEmpty => if s.head == s.tail then s.(cons := Resting, popEmpty := true) else s.(cons := AlignHead)
    case AlignHead => s.(cons := if s.head < s.tail then CheckAgain else CheckPad)
    case CheckPad =>
      if s.c.size < s.head + LEN then s.(cons := WrapHead)
      else if s.head + LEN > |s.mem| then Fault(s)
      else s.(cons := if Word(s.mem, s.head) == PAD then WrapHead else CheckAgain)
    case WrapHead => s.(head := HEADER, cons := CheckAgain)
    case CheckAgain => if s.head == s.tail then s.(cons := Resting, popEmpty := true) else s.(cons := AssertLen)
    case AssertLen =>
      if s.head + LEN > |s.mem| || Word(s.mem, s.head) > s.c.emax then Fault(s) else s.(cons := ReadLen)
    case ReadLen => if s.head + LEN > |s.mem| then Fault(s) else s.(cons := AdvanceHead(Word(s.mem, s.head)))
    case AdvanceHead(len) => s.(head := s.head + len, cons := ReturnLen(s.head))
    case ReturnLen(start) =>
      if start + LEN > |s.mem| || Word(s.mem, start) < LEN || start + Word(s.mem, start) > |s.mem| then Fault(s)
      else s.(popped := s.popped + [s.mem[start + LEN..start + Word(s.mem, start)]], 
              popEmpty := false, out := start + LEN, cons := Resting)
  }

  /** Either process moves. The producer starts pushes with legal payloads only, as its assertion demands. */
  ghost predicate Next(s: State, r: State) {
    || (exists data :: IsPayload(s.c, data) && r == Produce(s, data))
    || r == Consume(s)
  }
}
