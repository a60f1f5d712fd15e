/** Keeping account of a scan of the timer wheel (timer.c: scan_seconds_timer): which timers are called, removed, or
    left. */
module TimerCalls {
  import opened TimerLists

  /** What the function of a timer does when it is called: it adds timers, removes timers, and returns zero or not.
      That it re-times no timer is an assumption: timer.h forbids it for the timer itself only. */
  datatype Reaction = Reaction(adds: seq<Timer>, removes: seq<int>, again: bool)

  datatype Call = Call(x: int, expire: int)

  /** No timer that the functions add at the time `now` blanks the minimum of its list. */
  ghost predicate Sound(world: seq<Reaction>, now: int) {
    forall n :: 0 <= n < |world| ==> SoundReaction(world[n], now)
  }

  ghost predicate SoundReaction(r: Reaction, now: int) {
    forall i :: 0 <= i < |r.adds| ==> !Blanks(r.adds[i].expire, now)
  }

  ghost predicate AddsNone(world: seq<Reaction>) { forall n :: 0 <= n < |world| ==> world[n].adds == [] }

  ghost predicate Removed(world: seq<Reaction>, x: int) { exists n :: 0 <= n < |world| && x in world[n].removes }

  ghost predicate IsCalled(calls: seq<Call>, x: int) { exists i :: 0 <= i < |calls| && calls[i].x == x }

  ghost predicate Newer(a: map<int, Timer>, b: map<int, Timer>, n: int) { forall x :: x in b && x !in a ==> x >= n }

  ghost predicate Below(a: map<int, Timer>, n: int) { forall x :: x in a ==> x < n }

  ghost predicate OnlyRemoved(a: map<int, Timer>, b: map<int, Timer>, rs: seq<int>) {
    forall x :: IsLive(a, x) && !IsLive(b, x) ==> x in rs
  }

  /** No call is early, and no timer is called twice. */
  ghost predicate CallsOk(t0: map<int, Timer>, now: int, calls: seq<Call>) {
    && (forall i ::
          0 <= i < |calls| ==>
            calls[i].expire <= now && (calls[i].x in t0 ==> calls[i].expire == t0[calls[i].x].expire))
    && (forall i, j :: 0 <= i < j < |calls| ==> calls[i].x != calls[j].x)
  }

  ghost predicate CallsSeen(calls: seq<Call>, seen: set<int>) { forall i :: 0 <= i < |calls| ==> calls[i].x in seen }

  /** A live timer is still live, with its expiry, unless it was called or a function removed it. */
  ghost predicate Accounted(t0: map<int, Timer>, t: map<int, Timer>, world: seq<Reaction>, calls: seq<Call>) {
    && (forall x :: IsLive(t0, x) ==> IsCalled(calls, x) || Removed(world, x) || IsLive(t, x))
    && (forall x :: x in t0 && x in t ==> t[x].expire == t0[x].expire)
  }

  /** If x was live and due, it was called, or a function removed it. */
  ghost predicate Answered(t0: map<int, Timer>, now: int, world: seq<Reaction>, calls: seq<Call>, x: int) {
    IsLive(t0, x) && t0[x].expire <= now ==> IsCalled(calls, x) || Removed(world, x)
  }

  /** How far the loop over the first list is: everything of the old list has been seen or lies ahead. */
  ghost predicate Progressing(old0: seq<int>, cur: seq<int>, k: nat, more: bool, seen: set<int>, n: int) {
    && (forall x :: x in seen ==> x < n)
    && (if more then
          && k <= |cur| && (forall x :: x in old0 ==> x in seen || x in cur[k..])
          && forall x :: x in seen ==> x !in cur[k..]
        else forall x :: x in old0 ==> x in seen)
  }

  lemma ReactStarts(vec: seq<seq<int>>, timers: map<int, Timer>, n: int, rs: seq<int>)
    ensures Evolves(vec, timers, vec, timers) && Newer(timers, timers, n) && OnlyRemoved(timers, timers, rs)
  {
  }

  lemma AddedOne(t0: map<int, Timer>, t1: map<int, Timer>, t: map<int, Timer>, n: int, x: int, tm: Timer, rs: seq<int>)
    requires Newer(t0, t1, n) && OnlyRemoved(t0, t1, rs) && x >= n && x !in t1 && t == t1[x := tm]
    ensures Newer(t0, t, n) && OnlyRemoved(t0, t, rs)
  {
    forall y | IsLive(t0, y) && !IsLive(t, y) ensures y in rs { assert !IsLive(t1, y); }
  }

  lemma RemovedOne(t0: map<int, Timer>, t1: map<int, Timer>, t: map<int, Timer>, n: int, x: int, rs: seq<int>)
    requires Newer(t0, t1, n) && OnlyRemoved(t0, t1, rs) && x in rs && t.Keys == t1.Keys
    requires forall y :: y in t && y != x ==> t[y] == t1[y]
    ensures Newer(t0, t, n) && OnlyRemoved(t0, t, rs)
  {
    forall y | IsLive(t0, y) && !IsLive(t, y) ensures y in rs { assert y != x ==> !IsLive(t1, y); }
  }

  lemma DueStarts(old0: seq<int>, timers: map<int, Timer>, n: int, world: seq<Reaction>, now: int)
    ensures Progressing(old0, old0, 0, |old0| > 0, {}, n) && CallsOk(timers, now, [])
    ensures Accounted(timers, timers, world, []) && Newer(timers, timers, n)
  {
    assert old0[0..] == old0;
  }

  lemma NotSeen(old0: seq<int>, cur: seq<int>, k: nat, seen: set<int>, n: int)
    requires Progressing(old0, cur, k, true, seen, n) && k < |cur|
    ensures cur[k] !in seen
  {
    assert cur[k] == cur[k..][0];
  }

  /** The loop goes on with the next timer of the list, which may have grown at its end meanwhile. */
  lemma Advance(old0: seq<int>, cur: seq<int>, k: nat, seen: set<int>, n: int, cur2: seq<int>, n2: int,
      cur': seq<int>, k': nat)
    requires Progressing(old0, cur, k, true, seen, n) && k < |cur| && cur <= cur2 && NoDup(cur2) && n <= n2
    requires cur[k] < n && forall i :: |cur| <= i < |cur2| ==> cur2[i] >= n
    requires (cur' == Without(cur2, k) && k' == k) || (cur' == cur2 && k' == k + 1)
    ensures Progressing(old0, cur', k', k + 1 != |cur|, seen + {cur[k]}, n2) && (k + 1 != |cur| ==> k' < |cur'|)
  {
    assert cur'[k'..] == cur2[k + 1..];
    assert cur[k..] == [cur[k]] + cur[k + 1..];
    assert cur2[k + 1..] == cur[k + 1..] + cur2[|cur|..];
    forall j | k + 1 <= j < |cur2| ensures cur2[j] != cur[k] { assert cur2[k] == cur[k]; }
    forall x | x in seen ensures x !in cur2[k + 1..] {
      assert x !in cur[k..];
      forall i | 0 <= i < |cur2| - |cur| ensures cur2[|cur|..][i] != x { assert cur2[|cur|..][i] == cur2[|cur| + i]; }
    }
  }

  lemma HomeOfListed(vec: seq<seq<int>>, t: map<int, Timer>, home: map<int, int>, y: int)
    requires Lists(vec, t, home)
    ensures y in t && home[y] == 0 ==> y in vec[0]
  {
  }

  /** Timers at the end of the first list that were not there before are new ones. */
  lemma NewAtEnd(vec: seq<seq<int>>, t: map<int, Timer>, home: map<int, int>, vec': seq<seq<int>>, t': map<int,
      Timer>, home': map<int, int>, n: int)
    requires Lists(vec, t, home) && Lists(vec', t', home') && Evolves(vec, t, vec', t') && Newer(t, t', n)
    ensures NoDup(vec'[0]) && forall i :: |vec[0]| <= i < |vec'[0]| ==> vec'[0][i] >= n
  {
    forall y | y in t ensures home'[y] == home[y] { assert y in vec[home[y]] && y in vec'[home[y]]; }
    forall i | |vec[0]| <= i < |vec'[0]| ensures vec'[0][i] >= n {
      var y := vec'[0][i];
      assert y in vec'[0];
      forall a | 0 <= a < |vec[0]| ensures vec[0][a] != y { assert vec'[0][a] == vec[0][a]; }
      assert y !in vec[0] && home'[y] == 0;
      HomeOfListed(vec, t, home, y);
    }
  }

  // ----- the branches of the loop body

  lemma PassedOver(t0: map<int, Timer>, t: map<int, Timer>, now: int, world: seq<Reaction>, calls: seq<Call>, x: int,
      n: int)
    requires Accounted(t0, t, world, calls) && Newer(t0, t, n) && x in t && t[x].fn == 0
    ensures Accounted(t0, t - {x}, world, calls) && Newer(t0, t - {x}, n) && Answered(t0, now, world, calls, x)
  {
    forall y | IsLive(t0, y)
      ensures IsCalled(calls, y) || Removed(world, y) || IsLive(t - {x}, y)
    {
      assert IsLive(t, y) ==> y != x;
    }
  }

  lemma NotDue(t0: map<int, Timer>, t: map<int, Timer>, now: int, world: seq<Reaction>, calls: seq<Call>, x: int)
    requires Accounted(t0, t, world, calls) && x in t && t[x].expire > now
    ensures Answered(t0, now, world, calls, x)
  {
  }

  lemma Called(t0: map<int, Timer>, t: map<int, Timer>, now: int, world: seq<Reaction>, calls: seq<Call>,
      seen: set<int>, x: int, calls': seq<Call>)
    requires Accounted(t0, t, world, calls) && CallsOk(t0, now, calls) && CallsSeen(calls, seen) && x in t
    requires t[x].expire <= now && x !in seen
    requires calls' == calls + [Call(x, t[x].expire)]
    ensures Accounted(t0, t, world, calls') && CallsOk(t0, now, calls') && CallsSeen(calls', seen + {x})
    ensures IsCalled(calls', x)
    ensures forall y :: Answered(t0, now, world, calls, y) ==> Answered(t0, now, world, calls', y)
    ensures Answered(t0, now, world, calls', x)
  {
    assert calls'[|calls|].x == x;
    forall y | IsCalled(calls, y) ensures IsCalled(calls', y) {
      var i :| 0 <= i < |calls| && calls[i].x == y;
      assert calls'[i].x == y;
    }
  }

  lemma Reacted(t0: map<int, Timer>, t: map<int, Timer>, t': map<int, Timer>, world: seq<Reaction>, n: nat,
      r: Reaction, calls: seq<Call>, n0: int, n1: int)
    requires Accounted(t0, t, world, calls) && Newer(t0, t, n0) && Below(t0, n0) && n0 <= n1
    requires Newer(t, t', n1) && OnlyRemoved(t, t', r.removes)
    requires if n < |world| then r == world[n] else r.removes == []
    requires forall x :: x in t ==> x in t' && t'[x].expire == t[x].expire
    ensures Accounted(t0, t', world, calls) && Newer(t0, t', n0)
  {
    forall x | IsLive(t0, x) ensures IsCalled(calls, x) || Removed(world, x) || IsLive(t', x) {
      if IsLive(t, x) && !IsLive(t', x) { assert x in r.removes; }
    }
  }

  lemma LetGo(t0: map<int, Timer>, t: map<int, Timer>, world: seq<Reaction>, calls: seq<Call>, x: int, n: int)
    requires Accounted(t0, t, world, calls) && Newer(t0, t, n) && IsCalled(calls, x)
    ensures Accounted(t0, t - {x}, world, calls) && Newer(t0, t - {x}, n)
  {
    forall y | IsLive(t0, y)
      ensures IsCalled(calls, y) || Removed(world, y) || IsLive(t - {x}, y)
    {
      assert IsLive(t, y) && y != x ==> IsLive(t - {x}, y);
    }
  }

  // ----- only timers of the first list are called

  /** The list holds timers it held at first, and timers added since. */
  ghost predicate FromFirst(old0: seq<int>, cur: seq<int>, n: int) { forall x :: x in cur ==> x in old0 || x >= n }

  /** Every call is of a timer of the first list, or of one added during the scan. */
  ghost predicate CallsNear(old0: seq<int>, calls: seq<Call>, n: int) {
    forall i :: 0 <= i < |calls| ==> calls[i].x in old0 || calls[i].x >= n
  }

  lemma NearStarts(old0: seq<int>, n: int)
    ensures FromFirst(old0, old0, n) && CallsNear(old0, [], n)
  {
  }

  lemma NearStays(old0: seq<int>, cur: seq<int>, n: int, k: nat, grown: seq<int>, cur': seq<int>)
    requires FromFirst(old0, cur, n) && k < |grown| && cur <= grown
    requires forall i :: |cur| <= i < |grown| ==> grown[i] >= n
    requires cur' == Without(grown, k) || cur' == grown
    ensures FromFirst(old0, cur', n)
  {
    forall x | x in cur' ensures x in old0 || x >= n {
      assert x in grown;
      var i :| 0 <= i < |grown| && grown[i] == x;
      if i < |cur| { assert cur[i] == x; }
    }
  }

  lemma NearCall(old0: seq<int>, cur: seq<int>, n: int, calls: seq<Call>, k: nat, e: int)
    requires FromFirst(old0, cur, n) && CallsNear(old0, calls, n) && k < |cur|
    ensures CallsNear(old0, calls + [Call(cur[k], e)], n)
  {
  }

  // ----- functions that keep the scan busy

  /** At least two timers lie ahead in the list, and all of them are due. */
  ghost predicate Busy(l: seq<int>, k: nat, timers: map<int, Timer>, now: int) {
    k + 2 <= |l| && AllDue(l, k, timers, now)
  }

  ghost predicate AllDue(l: seq<int>, k: nat, timers: map<int, Timer>, now: int) {
    forall i :: k <= i < |l| ==> IsLive(timers, l[i]) && timers[l[i]].expire <= now
  }

  /** A timer that add_timer puts into the first list and that is due at once. */
  predicate DueAtOnce(t: Timer, now: int) { t.fn != 0 && now - 0x8000_0000 <= t.expire <= now }

  /** The function adds timers that are due, and removes none. */
  ghost predicate Adds(r: Reaction, now: int) {
    r.adds != [] && r.removes == [] && forall i :: 0 <= i < |r.adds| ==> DueAtOnce(r.adds[i], now)
  }

  ghost predicate AddsAlways(world: seq<Reaction>, now: int) { forall n :: 0 <= n < |world| ==> Adds(world[n], now) }

  lemma DueGoesFirst(t: Timer, now: int, i: nat)
    requires DueAtOnce(t, now) && Placed(Trunc32(t.expire - now), i)
    ensures i == 0
  {
    assert Trunc32(t.expire - now) <= 0;
  }

  /** New due timers at the end of the list: those ahead are still due. */
  lemma BusyGrows(l: seq<int>, k: nat, t: map<int, Timer>, now: int, l': seq<int>, t': map<int, Timer>, x: int)
    requires AllDue(l, k, t, now)
    requires l' == l + [x] && IsLive(t', x) && t'[x].expire <= now && forall y :: y in t ==> y in t' && t'[y] == t[y]
    ensures AllDue(l', k, t', now)
  {
  }

  /** One timer of the list is done with, and more have come in. */
  lemma BusyStays(l: seq<int>, k: nat, grown: seq<int>, t: map<int, Timer>, now: int, l': seq<int>, k': nat,
      t': map<int, Timer>)
    requires k + 2 <= |l| < |grown| && NoDup(grown)
    requires AllDue(grown, k, t, now)
    requires (l' == Without(grown, k) && k' == k && t' == t - {grown[k]}) || (l' == grown && k' == k + 1 && t' == t)
    ensures Busy(l', k', t', now)
  {
    forall i | k' <= i < |l'| ensures IsLive(t', l'[i]) && t'[l'[i]].expire <= now {
      if k' == k { assert l'[i] == grown[i + 1] && grown[i + 1] != grown[k]; }
    }
  }

  // ----- the whole account of the loop over the first list

  /** old0, t0 and n0 are the first list, the timers and the next identity when the scan began. */
  ghost predicate Sum(old0: seq<int>, t0: map<int, Timer>, n0: int, now: int, world: seq<Reaction>, cur: seq<int>,
      t: map<int, Timer>, n: int, k: nat, more: bool, seen: set<int>, calls: seq<Call>) {
    && Progressing(old0, cur, k, more, seen, n) && CallsOk(t0, now, calls) && CallsSeen(calls, seen)
    && Accounted(t0, t, world, calls) && Newer(t0, t, n0)
    && (forall x :: x in seen ==> Answered(t0, now, world, calls, x))
    && FromFirst(old0, cur, n0) && CallsNear(old0, calls, n0)
  }

  lemma SumStarts(old0: seq<int>, t0: map<int, Timer>, n0: int, world: seq<Reaction>, now: int)
    ensures Sum(old0, t0, n0, now, world, old0, t0, n0, 0, |old0| > 0, {}, [])
  {
    hide Progressing, CallsOk, Accounted, Newer;
    DueStarts(old0, t0, n0, world, now);
    NearStarts(old0, n0);
  }

  lemma SumEnds(old0: seq<int>, t0: map<int, Timer>, n0: int, now: int, world: seq<Reaction>, cur: seq<int>,
      t: map<int, Timer>, n: int, k: nat, seen: set<int>, calls: seq<Call>)
    requires Sum(old0, t0, n0, now, world, cur, t, n, k, false, seen, calls)
    ensures CallsOk(t0, now, calls) && Accounted(t0, t, world, calls) && Newer(t0, t, n0) && CallsNear(old0, calls, n0)
    ensures forall x :: x in old0 ==> Answered(t0, now, world, calls, x)
  {
    hide CallsOk, Accounted, Newer, CallsNear, Answered;
  }

  lemma SumParts(old0: seq<int>, t0: map<int, Timer>, n0: int, now: int, world: seq<Reaction>, cur: seq<int>,
      t: map<int, Timer>, n: int, k: nat, seen: set<int>, calls: seq<Call>)
    requires Sum(old0, t0, n0, now, world, cur, t, n, k, true, seen, calls) && k < |cur|
    ensures Accounted(t0, t, world, calls) && Newer(t0, t, n0) && cur[k] !in seen
    ensures forall i :: 0 <= i < |calls| ==> calls[i].x != cur[k]
  {
    hide CallsOk, Accounted, Newer, CallsNear, Answered;
    NotSeen(old0, cur, k, seen, n);
  }

  lemma SumPassed(old0: seq<int>, t0: map<int, Timer>, n0: int, now: int, world: seq<Reaction>, cur: seq<int>,
      t: map<int, Timer>, n: int, k: nat, seen: set<int>, calls: seq<Call>, cur': seq<int>)
    requires Sum(old0, t0, n0, now, world, cur, t, n, k, true, seen, calls) && k < |cur| && NoDup(cur) && cur[k] < n
    requires cur' == Without(cur, k)
    requires cur[k] in t && t[cur[k]].fn == 0
    ensures Sum(old0, t0, n0, now, world, cur', t - {cur[k]}, n, k, k + 1 != |cur|, seen + {cur[k]}, calls)
    ensures k + 1 != |cur| ==> k < |cur'|
  {
    hide Progressing, CallsOk, Accounted, Newer, CallsNear, Answered, FromFirst, NoDup;
    PassedOver(t0, t, now, world, calls, cur[k], n0);
    Advance(old0, cur, k, seen, n, cur, n, cur', k);
    NearStays(old0, cur, n0, k, cur, cur');
  }

  lemma SumNotDue(old0: seq<int>, t0: map<int, Timer>, n0: int, now: int, world: seq<Reaction>, cur: seq<int>,
      t: map<int, Timer>, n: int, k: nat, seen: set<int>, calls: seq<Call>)
    requires Sum(old0, t0, n0, now, world, cur, t, n, k, true, seen, calls) && k < |cur| && NoDup(cur) && cur[k] < n
    requires cur[k] in t && t[cur[k]].expire > now
    ensures Sum(old0, t0, n0, now, world, cur, t, n, k + 1, k + 1 != |cur|, seen + {cur[k]}, calls)
    ensures k + 1 != |cur| ==> k + 1 < |cur|
  {
    hide Progressing, CallsOk, Accounted, Newer, CallsNear, Answered, FromFirst, NoDup;
    NotDue(t0, t, now, world, calls, cur[k]);
    Advance(old0, cur, k, seen, n, cur, n, cur, k + 1);
  }

  lemma SumCalled(old0: seq<int>, t0: map<int, Timer>, n0: int, now: int, world: seq<Reaction>, cur: seq<int>,
      t: map<int, Timer>, n: int, k: nat, seen: set<int>, calls: seq<Call>, calls': seq<Call>)
    requires Sum(old0, t0, n0, now, world, cur, t, n, k, true, seen, calls) && k < |cur| && cur[k] !in seen
    requires cur[k] in t && t[cur[k]].expire <= now && calls' == calls + [Call(cur[k], t[cur[k]].expire)]
    ensures Accounted(t0, t, world, calls') && IsCalled(calls', cur[k]) && CallsOk(t0, now, calls')
    ensures CallsSeen(calls', seen + {cur[k]})
    ensures CallsNear(old0, calls', n0) && forall x :: x in seen + {cur[k]} ==> Answered(t0, now, world, calls', x)
  {
    hide Progressing, CallsOk, CallsSeen, Accounted, Newer, CallsNear, Answered, FromFirst, IsCalled;
    Called(t0, t, now, world, calls, seen, cur[k], calls');
    NearCall(old0, cur, n0, calls, k, t[cur[k]].expire);
  }

  lemma SumReacted(old0: seq<int>, t0: map<int, Timer>, n0: int, now: int, world: seq<Reaction>, cur: seq<int>,
      t: map<int, Timer>, n: int, k: nat, seen: set<int>, calls: seq<Call>, calls': seq<Call>, grown: seq<int>,
      t': map<int, Timer>, n': int, cur': seq<int>, k': nat)
    requires Sum(old0, t0, n0, now, world, cur, t, n, k, true, seen, calls) && k < |cur| && cur[k] < n && n0 <= n <= n'
    requires CallsOk(t0, now, calls') && CallsSeen(calls', seen + {cur[k]}) && CallsNear(old0, calls', n0)
    requires forall x :: x in seen + {cur[k]} ==> Answered(t0, now, world, calls', x)
    requires Accounted(t0, t', world, calls') && Newer(t0, t', n0)
    requires cur <= grown && NoDup(grown) && forall i :: |cur| <= i < |grown| ==> grown[i] >= n
    requires (cur' == Without(grown, k) && k' == k) || (cur' == grown && k' == k + 1)
    ensures Sum(old0, t0, n0, now, world, cur', t', n', k', k + 1 != |cur|, seen + {cur[k]}, calls')
    ensures k + 1 != |cur| ==> k' < |cur'|
  {
    hide Progressing, CallsOk, CallsSeen, Accounted, Newer, CallsNear, Answered, FromFirst, NoDup;
    Advance(old0, cur, k, seen, n, grown, n', cur', k');
    NearStays(old0, cur, n0, k, grown, cur');
  }
}
