/** What becomes of the timers that a scan of the wheel calls, adds and removes (timer.c: scan_seconds_timer). */
module TimerLedger {
  import opened TimerLists
  import opened TimerCalls

  /** The n-th function called does what world[n] says, and nothing once the world is exhausted. */
  function ReactionOf(world: seq<Reaction>, n: nat): Reaction {
    if n < |world| then world[n] else Reaction([], [], false)
  }

  /** One of the first n functions called removes x. */
  ghost predicate RemovedIn(world: seq<Reaction>, n: nat, x: int) {
    exists m :: 0 <= m < n && m < |world| && x in world[m].removes
  }

  /** The number of timers the first n functions called add. */
  function AddedBy(world: seq<Reaction>, n: nat): nat {
    if n == 0 then 0 else AddedBy(world, n - 1) + |ReactionOf(world, n - 1).adds|
  }

  /** A timer whose function has returned non-zero is still there, with the expiry it was called for, unless a function
      called in this scan removes it; one whose function has returned zero has been freed. */
  ghost predicate Fate(t: map<int, Timer>, world: seq<Reaction>, n: nat, c: Call, again: bool) {
    if again then RemovedIn(world, n, c.x) || (IsLive(t, c.x) && t[c.x].expire == c.expire) else c.x !in t
  }

  ghost predicate Fates(t: map<int, Timer>, world: seq<Reaction>, calls: seq<Call>) {
    forall i :: 0 <= i < |calls| ==> Fate(t, world, |calls|, calls[i], ReactionOf(world, i).again)
  }

  /** A timer that existed before the scan and that a function called in it removes has no function any more. */
  ghost predicate Silenced(t0: map<int, Timer>, t: map<int, Timer>, world: seq<Reaction>, n: nat) {
    forall x :: x in t0 && RemovedIn(world, n, x) ==> !IsLive(t, x)
  }

  /** The i-th timer that the m-th function called adds is there, unless it was called itself or removed. */
  ghost predicate Born(t: map<int, Timer>, n0: int, world: seq<Reaction>, calls: seq<Call>, m: nat, i: nat)
    requires m < |world| && i < |world[m].adds|
  {
    var x, tm := n0 + AddedBy(world, m) + i, world[m].adds[i];
    tm.fn != 0 ==>
      IsCalled(calls, x) || RemovedIn(world, |calls|, x) || (IsLive(t, x) && t[x].expire == tm.expire)
  }

  ghost predicate AllBorn(t: map<int, Timer>, n0: int, world: seq<Reaction>, calls: seq<Call>) {
    forall m: nat, i: nat :: m < |calls| && m < |world| && i < |world[m].adds| ==> Born(t, n0, world, calls, m, i)
  }

  /** Every call is of a timer that existed before the scan, or of one that a function called before has added. */
  ghost predicate CallsKnown(t0: map<int, Timer>, n0: int, n: int, calls: seq<Call>) {
    forall i :: 0 <= i < |calls| ==> calls[i].x < n && (calls[i].x in t0 || calls[i].x >= n0)
  }

  /** The account so far: t0 and n0 are the timers and the next identity before the scan. */
  ghost predicate Outcome(t0: map<int, Timer>, n0: int, world: seq<Reaction>, calls: seq<Call>, t: map<int, Timer>,
      n: int) {
    && n == n0 + AddedBy(world, |calls|) && CallsKnown(t0, n0, n, calls)
    && Fates(t, world, calls) && Silenced(t0, t, world, |calls|) && AllBorn(t, n0, world, calls)
  }

  lemma OutcomeStarts(t0: map<int, Timer>, n0: int, world: seq<Reaction>)
    ensures Outcome(t0, n0, world, [], t0, n0)
  {
  }

  /** A timer without a function is freed. */
  lemma OutcomePassed(t0: map<int, Timer>, n0: int, world: seq<Reaction>, calls: seq<Call>, t: map<int, Timer>, n: int,
      x: int)
    requires Outcome(t0, n0, world, calls, t, n) && x in t && t[x].fn == 0
    ensures Outcome(t0, n0, world, calls, t - {x}, n)
  {
    OutcomeKept(t0, n0, world, calls, t, n, t - {x});
  }

  /** Only timers without a function go. */
  lemma OutcomeKept(t0: map<int, Timer>, n0: int, world: seq<Reaction>, calls: seq<Call>, t: map<int, Timer>, n: int,
      t': map<int, Timer>)
    requires Outcome(t0, n0, world, calls, t, n)
    requires (forall x :: x in t' ==> x in t && t'[x] == t[x]) && forall x :: IsLive(t, x) ==> x in t'
    ensures Outcome(t0, n0, world, calls, t', n)
  {
    hide RemovedIn, IsCalled;
    forall m: nat, i: nat | m < |calls| && m < |world| && i < |world[m].adds| ensures Born(t', n0, world, calls, m, i) {
      assert Born(t, n0, world, calls, m, i);
    }
  }

  /** What a function that is called does to the timers: it adds some, and takes the function from some. */
  ghost predicate Reacts(r: Reaction, t: map<int, Timer>, n: int, t': map<int, Timer>) {
    && (forall x :: x in t' ==> x in t || n <= x < n + |r.adds|)
    && (forall x :: x in t ==> x in t' && t'[x] == Silent(t[x], x, r))
    && forall i :: 0 <= i < |r.adds| ==> HasNew(r, t', n + i, r.adds[i])
  }

  predicate HasNew(r: Reaction, t: map<int, Timer>, x: int, tm: Timer) { x in t && t[x] == Silent(tm, x, r) }

  function Silent(tm: Timer, x: int, r: Reaction): Timer { if x in r.removes then tm.(fn := 0, idx := 0) else tm }

  lemma ReactStarts(r: Reaction, t: map<int, Timer>, n: int)
    ensures Reacts(Reaction([], [], r.again), t, n, t)
  {
  }

  lemma ReactAdds(r: Reaction, i: nat, t: map<int, Timer>, n: int, t1: map<int, Timer>)
    requires i < |r.adds| && Reacts(Reaction(r.adds[..i], [], r.again), t, n, t1) && forall x :: x in t ==> x < n
    ensures Reacts(Reaction(r.adds[..i + 1], [], r.again), t, n, t1[n + i := r.adds[i]])
  {
  }

  lemma ReactRemoves(r: Reaction, i: nat, t: map<int, Timer>, n: int, t1: map<int, Timer>, t2: map<int, Timer>)
    requires i < |r.removes| && Reacts(Reaction(r.adds, r.removes[..i], r.again), t, n, t1)
    requires var x := r.removes[i]; t2 == if x in t1 then t1[x := t1[x].(fn := 0, idx := 0)] else t1
    ensures Reacts(Reaction(r.adds, r.removes[..i + 1], r.again), t, n, t2)
  {
    var q, q', x := r.(removes := r.removes[..i]), r.(removes := r.removes[..i + 1]), r.removes[i];
    assert r.removes[..i + 1] == r.removes[..i] + [x];
    forall tm: Timer, y ensures Silent(tm, y, q') == if y == x then tm.(fn := 0, idx := 0) else Silent(tm, y, q) {}
    forall y | y in t ensures y in t2 && t2[y] == Silent(t[y], y, q') { assert t1[y] == Silent(t[y], y, q); }
    forall j | 0 <= j < |r.adds| ensures HasNew(q', t2, n + j, q'.adds[j]) { assert HasNew(q, t1, n + j, q.adds[j]); }
  }

  // ----- a function is called

  lemma RemovedMore(world: seq<Reaction>, n: nat, x: int)
    ensures RemovedIn(world, n + 1, x) <==> RemovedIn(world, n, x) || x in ReactionOf(world, n).removes
  {
    if RemovedIn(world, n + 1, x) && !RemovedIn(world, n, x) {
      var m :| 0 <= m < n + 1 && m < |world| && x in world[m].removes;
      assert m == n;
    }
  }

  /** The timer x is called: its function does r, and x is freed when it returns zero. */
  ghost predicate CallStep(t: map<int, Timer>, n: int, x: int, r: Reaction, t': map<int, Timer>) {
    && IsLive(t, x) && x < n && (forall y :: y in t ==> y < n)
    && exists t1 :: Reacts(r, t, n, t1) && t' == if r.again then t1 else t1 - {x}
  }

  lemma CallMeans(t: map<int, Timer>, n: int, x: int, r: Reaction, t': map<int, Timer>)
    requires CallStep(t, n, x, r, t')
    ensures forall y :: IsLive(t, y) && y != x ==>
        y in r.removes || (IsLive(t', y) && t'[y].expire == t[y].expire)
    ensures if r.again then x in r.removes || (IsLive(t', x) && t'[x].expire == t[x].expire) else x !in t'
    ensures forall y :: y < n && (y !in t || y in r.removes || !IsLive(t, y)) ==> !IsLive(t', y)
    ensures forall y :: y < n && y !in t ==> y !in t'
    ensures forall i :: 0 <= i < |r.adds| && r.adds[i].fn != 0 ==>
        n + i in r.removes || (IsLive(t', n + i) && t'[n + i].expire == r.adds[i].expire)
  {
  }

  lemma FatesCalled(world: seq<Reaction>, calls: seq<Call>, t: map<int, Timer>, n: int, x: int, t': map<int, Timer>,
      c: Call)
    requires Fates(t, world, calls) && CallStep(t, n, x, ReactionOf(world, |calls|), t')
    requires forall i :: 0 <= i < |calls| ==> calls[i].x < n && calls[i].x != x
    requires x in t && c == Call(x, t[x].expire)
    ensures Fates(t', world, calls + [c])
  {
    hide CallStep, RemovedIn, IsLive;
    var r, calls' := ReactionOf(world, |calls|), calls + [c];
    CallMeans(t, n, x, r, t');
    forall i | 0 <= i < |calls'| ensures Fate(t', world, |calls'|, calls'[i], ReactionOf(world, i).again) {
      RemovedMore(world, |calls|, calls'[i].x);
      if i < |calls| { assert Fate(t, world, |calls|, calls[i], ReactionOf(world, i).again); }
    }
  }

  lemma SilencedCalled(t0: map<int, Timer>, n0: int, world: seq<Reaction>, k: nat, t: map<int, Timer>, n: int, x: int,
      t': map<int, Timer>)
    requires Silenced(t0, t, world, k) && CallStep(t, n, x, ReactionOf(world, k), t') && n0 <= n
    requires forall y :: y in t0 ==> y < n0
    ensures Silenced(t0, t', world, k + 1)
  {
    hide CallStep, RemovedIn, IsLive;
    CallMeans(t, n, x, ReactionOf(world, k), t');
    forall y | y in t0 && RemovedIn(world, k + 1, y) ensures !IsLive(t', y) { RemovedMore(world, k, y); }
  }

  lemma BornCalled(n0: int, world: seq<Reaction>, calls: seq<Call>, t: map<int, Timer>, n: int, x: int,
      t': map<int, Timer>, e: int)
    requires AllBorn(t, n0, world, calls) && CallStep(t, n, x, ReactionOf(world, |calls|), t')
    requires n == n0 + AddedBy(world, |calls|)
    ensures AllBorn(t', n0, world, calls + [Call(x, e)])
  {
    hide CallStep, RemovedIn, IsLive, IsCalled;
    var r, calls' := ReactionOf(world, |calls|), calls + [Call(x, e)];
    CallMeans(t, n, x, r, t');
    CalledMore(calls, Call(x, e));
    forall m: nat, i: nat | m < |calls'| && m < |world| && i < |world[m].adds|
      ensures Born(t', n0, world, calls', m, i)
    {
      RemovedMore(world, |calls|, n0 + AddedBy(world, m) + i);
      if m < |calls| { assert Born(t, n0, world, calls, m, i); } else { assert r.adds[i] == world[m].adds[i]; }
    }
  }

  lemma CalledMore(calls: seq<Call>, c: Call)
    ensures IsCalled(calls + [c], c.x) && forall y :: IsCalled(calls, y) ==> IsCalled(calls + [c], y)
  {
    assert (calls + [c])[|calls|] == c;
    forall y | IsCalled(calls, y) ensures IsCalled(calls + [c], y) {
      var i :| 0 <= i < |calls| && calls[i].x == y;
      assert (calls + [c])[i].x == y;
    }
  }

  lemma OutcomeCalled(t0: map<int, Timer>, n0: int, world: seq<Reaction>, calls: seq<Call>, t: map<int, Timer>, n: int,
      x: int, t': map<int, Timer>)
    requires Outcome(t0, n0, world, calls, t, n) && CallStep(t, n, x, ReactionOf(world, |calls|), t')
    requires (x in t0 || x >= n0) && n0 <= n && forall y :: y in t0 ==> y < n0
    requires forall i :: 0 <= i < |calls| ==> calls[i].x != x
    ensures
      Outcome(t0, n0, world, calls + [Call(x, t[x].expire)], t', n + |ReactionOf(world, |calls|).adds|)
  {
    hide Fates, Silenced, AllBorn, Reacts, ReactionOf;
    FatesCalled(world, calls, t, n, x, t', Call(x, t[x].expire));
    SilencedCalled(t0, n0, world, |calls|, t, n, x, t');
    BornCalled(n0, world, calls, t, n, x, t', t[x].expire);
  }
}
