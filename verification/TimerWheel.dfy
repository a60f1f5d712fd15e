/** The timer wheel as the program uses it (timer.c: add_timer, scan_seconds_timer, scan_timer_list,
    mod_expire_time; timer.h). */
module TimerWheel {
  import opened TimerLists
  import opened TimerCalls
  import opened TimerLedger
  import opened TimerOrder
  import opened TimerRuns

  class Wheel {
    var now: int
    var last: int
    var vec: seq<seq<int>>
    var mins: seq<int>
    var timers: map<int, Timer>
    var nextId: int
    ghost var home: map<int, int>
    /** The time of the last scan, or of the setup. */
    ghost var base: int
    /** The timers that add_timer has put too far away since the last scan. */
    ghost var strays: set<int>
    /** The timers whose list has a recorded minimum that is too late for them, until it is scanned. */
    ghost var lost: set<int>

    ghost predicate Valid()
      reads this
    {
      && Lists(vec, timers, home) && (forall x :: x in timers || x in strays || x in lost ==> x < nextId)
      && |mins| == SIZE && 0 <= base <= now && Timely(vec, timers, mins, base, strays, lost)
      && LostFar(home, lost)
    }

    /** No timer is lost, and none will be by the next one that joins a list. */
    ghost predicate Clear()
      reads this
    {
      MinsKnown(vec, mins) && lost == {}
    }

    /** The wheel as it is now, after n scans. */
    ghost function Here(n: nat): Moment
      reads this
    {
      Moment(now, timers, strays, lost, Near(home), nextId, n)
    }

    /** setup_timer. */
    constructor (t: int)
      requires t >= 0
      ensures Valid() && Clear() && now == t && base == t && last == 0 && timers == map[] && strays == {} && nextId == 0
      ensures vec == [[], [], [], [], []] && mins == [0, 0, 0, 0, 0]
    {
      now, last, base, strays, lost := t, 0, t, {}, {};
      vec, mins := [[], [], [], [], []], [0, 0, 0, 0, 0];
      timers, home, nextId := map[], map[], 0;
    }

    // ----- adding, removing, re-timing

    /** The loops of add_timer and mod_expire_time: the first list that is wide enough. */
    method PlaceFor(diff: int) returns (i: nat)
      ensures Placed(diff, i)
    {
      i := 0;
      while i != SIZE - 1 && diff > Width(i)
        invariant 0 <= i <= SIZE - 1 && (i > 0 ==> diff > Width(i - 1))
      {
        i := i + 1;
      }
    }

    /** add_timer, and so add_event for a new timer: the difference is kept in an int. The timer is a stray when the
        difference wraps. Timers of its list are lost when the list had no recorded minimum. */
    method AddTimer(t: Timer) returns (x: int)
      requires Valid()
      modifies this`vec, this`mins, this`timers, this`nextId, this`home, this`strays, this`lost
      ensures Valid() && x == old(nextId) && x !in old(timers) && timers == old(timers)[x := t]
      ensures Evolves(old(vec), old(timers), vec, timers)
      ensures 0 <= home[x] < SIZE && Placed(Trunc32(t.expire - now), home[x]) && home == old(home)[x := home[x]]
      ensures nextId == x + 1
      ensures vec == old(vec)[home[x] := old(vec)[home[x]] + [x]]
      ensures mins == old(mins)[home[x] := NewMin(old(mins)[home[x]], t.expire)]
      ensures strays == if Wraps(t.expire - now) then old(strays) + {x} else old(strays)
      ensures lost == old(lost) + LostBy(old(vec), old(timers), old(mins), home[x], t.expire, base)
      ensures old(Clear()) && !Blanks(t.expire, now) ==> Clear()
    {
      hide Lists, Timely, Evolves, Trunc32, Wraps, Placed, Width, Blanks, NewMin, LostBy, MinsKnown;
      ListedAreTimers(vec, timers, home);
      var i := PlaceFor(Trunc32(t.expire - now));
      x := nextId;
      ghost var s := if Wraps(t.expire - now) then strays + {x} else strays;
      Added(vec, timers, home, mins, base, strays, lost, i, x, t, now, s);
      LostAreTimers(vec, timers, mins, i, t.expire, base);
      LostAreFar(vec, timers, home, mins, i, t.expire, base);
      lost := lost + LostBy(vec, timers, mins, i, t.expire, base);
      vec, mins := vec[i := vec[i] + [x]], mins[i := NewMin(mins[i], t.expire)];
      timers, home, nextId, strays := timers[x := t], home[x := i], nextId + 1, s;
    }

    /** do_remove_timer without freeing. */
    method Remove(x: int)
      requires Valid()
      modifies this`timers
      ensures Valid() && Evolves(vec, old(timers), vec, timers) && timers.Keys == old(timers).Keys && !IsLive(timers, x)
      ensures timers == if x in old(timers) then old(timers)[x := old(timers)[x].(fn := 0, idx := 0)] else old(timers)
    {
      hide Lists, Timely;
      ListedAreTimers(vec, timers, home);
      if x in timers {
        ghost var t := timers[x := timers[x].(fn := 0, idx := 0)];
        SameLists(vec, timers, home, t);
        SameExpiry(vec, timers, mins, base, strays, lost, t);
        timers := timers[x := timers[x].(fn := 0, idx := 0)];
      }
    }

    /** mod_expire_time; a timer with expiry 0 is left alone. */
    method ModExpire(x: int, e: int)
      requires Valid() && x in timers
      modifies this`vec, this`mins, this`timers, this`home, this`strays, this`lost
      ensures Valid() && (old(Clear()) ==> Clear())
      ensures old(timers)[x].expire == 0 ==>
          timers == old(timers) && vec == old(vec) && strays == old(strays) && lost == old(lost)
      ensures old(timers)[x].expire != 0 ==>
        && timers == old(timers)[x := old(timers)[x].(expire := e)] && Placed(e - now, home[x])
        && strays == old(strays) - {x}
        && Relinked(old(vec), vec, old(home)[x], home[x], x)
        && mins == old(mins)[home[x] := NewMin(old(mins)[home[x]], e)]
      ensures x !in lost || old(timers)[x].expire == 0
      ensures forall y :: y in old(home) && y != x ==> y in home && home[y] == old(home)[y]
      ensures forall y :: y in lost && y !in old(lost) ==> y in timers && timers[y].expire < e
    {
      hide Lists, Timely, Placed, NewMin, LostBy, MinsKnown;
      if timers[x].expire == 0 { return; }
      var j := PlaceFor(e - now);
      var i, k := Find(x);
      ghost var v, ts := vec[i := Without(vec[i], k)], timers - {x};
      Retimed(vec, timers, home, mins, base, strays, lost, i, k, j, timers[x].(expire := e), now);
      LostAreTimers(v, ts, mins, j, e, base);
      Drop(vec, timers, home, i, k);
      LostAreFar(v, ts, home - {x}, mins, j, e, base);
      lost, strays := lost - {x} + LostBy(v, ts, mins, j, e, base), strays - {x};
      timers := timers[x := timers[x].(expire := e)];
      vec := vec[i := Without(vec[i], k)];
      vec, mins, home := vec[j := vec[j] + [x]], mins[j := NewMin(mins[j], e)], home[x := j];
    }

    /** The links of the list entry: where x is. */
    method Find(x: int) returns (i: nat, k: nat)
      requires Lists(vec, timers, home) && x in timers
      ensures |vec| == SIZE && i < SIZE && k < |vec[i]| && vec[i][k] == x && i == home[x]
    {
      i := 0;
      while x !in vec[i]
        invariant 0 <= i <= home[x]
        decreases home[x] - i
      {
        i := i + 1;
      }
      k :| 0 <= k < |vec[i]| && vec[i][k] == x;
    }

    /** refresh_timers_callback with the table tcfs: timers added without a type (idx 0) lose their function. */
    method Refresh(tcfs: map<int, int>)
      requires Valid() && (0 in tcfs ==> tcfs[0] == 0)
      modifies this`timers
      ensures Valid() && timers.Keys == old(timers).Keys
      ensures forall x ::
          x in timers ==>
            timers[x] == old(timers)[x].(fn := if old(timers)[x].idx in tcfs then tcfs[old(timers)[x].idx] else 0)
    {
      hide Lists, Timely;
      ghost var t0 := timers;
      timers := map x | x in timers :: timers[x].(fn := if timers[x].idx in tcfs then tcfs[timers[x].idx] else 0);
      SameLists(vec, t0, home, timers);
      SameExpiry(vec, t0, mins, base, strays, lost, timers);
    }

    // ----- scanning

    /** find_min_idx: the first list wide enough, but none above max. */
    method FindMinIdx(diff: int, max: nat) returns (i: nat)
      requires max < SIZE
      ensures Fitting(diff, i, max)
    {
      i := max;
      while i > 0 && Width(i - 1) >= diff
        invariant 0 <= i <= max && (i < max ==> diff <= Width(i))
      {
        i := i - 1;
      }
    }

    /** A round of the loop of scan_timer_list, for the k-th timer of the list. */
    method ScanOne(idx: nat, k: nat, min: int) returns (k': nat, min': int)
      requires 1 <= idx < SIZE && Lists(vec, timers, home) && |vec| == SIZE && |mins| == SIZE && 0 <= now
      requires k < |vec[idx]|
      requires Scanning(vec, timers, mins, idx, base, now, strays, lost, k, min)
      modifies this`vec, this`mins, this`timers, this`home
      ensures Lists(vec, timers, home) && |vec| == SIZE && |mins| == SIZE && old(vec)[0] <= vec[0] && k' <= |vec[idx]|
      ensures Scanning(vec, timers, mins, idx, base, now, strays, lost, k', min')
      ensures KeptLive(old(timers), timers) && timers.Keys <= old(timers).Keys
      ensures vec[idx][k'..] == old(vec)[idx][k..][1..]
      ensures var x := old(vec)[idx][k];
        && (x in timers && x in home ==> Fitting(timers[x].expire - now, home[x], idx))
        && (forall y ::
              y in timers && y != x ==>
                && y in old(timers) && timers[y] == old(timers)[y] && y in home && y in old(home)
                && home[y] == old(home)[y])
      ensures OneMoved(old(vec), old(home), idx, k, vec, home, k')
    {
      hide Lists, Scanning, KeptLive, Width, Fitting, NewMin;
      k', min' := k, min;
      var x := vec[idx][k];
      Listed(vec, timers, home, idx, k);
      KeptAll(timers);
      if timers[x].fn != 0 {
        var i := FindMinIdx(timers[x].expire - now, idx);
        FittingFar(timers[x].expire - now, i, idx);
        if i != idx {
          Move(vec, timers, home, idx, k, i);
          Goes(vec, timers, mins, idx, base, now, strays, lost, k, min, i);
          vec, mins :=
            vec[idx := Without(vec[idx], k)][i := vec[i] + [x]], mins[i := NewMin(mins[i], timers[x].expire)];
          home := home[x := i];
        } else {
          Stays(vec, timers, mins, idx, base, now, strays, lost, k, min, NewMin(min, timers[x].expire));
          min' := NewMin(min, timers[x].expire);
          k' := k + 1;
        }
      } else {
        Drop(vec, timers, home, idx, k);
        Freed(vec, timers, home, mins, idx, base, now, strays, lost, k, min);
        KeptLess(timers, timers, x);
        vec, timers, home := vec[idx := Without(vec[idx], k)], timers - {x}, home - {x};
      }
    }

    /** scan_timer_list: timers move to the lists they are near enough for, removed ones are freed, and none of the
        list is lost any more. */
    method ScanTimerList(idx: nat)
      requires 1 <= idx < SIZE && Lists(vec, timers, home) && 0 <= now
      requires PartlyTimely(vec, timers, mins, idx, base, now, strays, lost)
      modifies this`vec, this`mins, this`timers, this`home, this`lost
      ensures Lists(vec, timers, home) && |mins| == SIZE
      ensures PartlyTimely(vec, timers, mins, idx + 1, base, now, strays, lost)
      ensures |old(vec)| == SIZE && lost == old(lost) - set x | x in old(vec)[idx]
      ensures KeptLive(old(timers), timers) && timers.Keys <= old(timers).Keys
      ensures |vec| == |old(vec)| && old(vec)[0] <= vec[0]
      ensures Sorted(old(home), home, timers, idx, now) && Rearranged(old(vec), vec, home, idx)
      ensures forall x :: x in home ==> x in old(home) && (old(home)[x] == 0 ==> home[x] == 0)
      ensures old(LostFar(home, lost)) ==> LostFar(home, lost)
      ensures old(vec)[idx] == [] ==> vec == old(vec) && timers == old(timers) && mins == old(mins)[idx := 0]
    {
      hide Lists, PartlyTimely, Scanning, KeptLive, Sorted, SortedBut, Rearranging, Rearranged, OneMoved, NoDup;
      var min, k := 0, 0;
      ListedAreTimers(vec, timers, home);
      ghost var found := lost - set x | x in vec[idx];
      ScanBegins(vec, timers, home, mins, idx, base, now, strays, lost, found);
      ScanningSize(vec, timers, mins, idx, base, now, strays, found, 0, 0);
      lost := found;
      KeptAll(timers);
      ghost var t0, h0 := timers, home;
      SortStarts(vec, timers, home, idx, now);
      ghost var v0, done: seq<int> := vec, [];
      Unique(vec, timers, home);
      RearrangeStarts(vec, home, idx);
      while k < |vec[idx]|
        invariant Lists(vec, timers, home) && KeptLive(t0, timers) && timers.Keys <= t0.Keys
        invariant |vec| == SIZE && |mins| == SIZE && |vec| == |old(vec)| && old(vec)[0] <= vec[0]
        invariant 0 <= k <= |vec[idx]|
        invariant lost == found && Scanning(vec, timers, mins, idx, base, now, strays, lost, k, min)
        invariant SortedBut(h0, home, timers, idx, now, vec[idx][k..])
        invariant Rearranging(v0, vec, home, idx, k, done)
        invariant old(vec)[idx] == [] ==> vec == old(vec) && timers == old(timers) && mins == old(mins) && min == 0
        decreases |vec[idx]| - k
      {
        ghost var v1, t1, h1, k1, x, rest := vec, timers, home, k, vec[idx][k], vec[idx][k..];
        Listed(vec, timers, home, idx, k);
        k, min := ScanOne(idx, k, min);
        RearrangeOn(v0, v1, h1, idx, k1, done, vec, home, k);
        done := done + [x];
        KeptOn(t0, t1, timers);
        SortMore(h0, h1, t1, idx, now, rest, x, home, timers);
      }
      ScanDone(vec, timers, mins, idx, base, now, strays, lost, k, min);
      SortEnds(h0, home, timers, idx, now, vec[idx][k..]);
      RearrangeEnds(v0, vec, home, idx, k, done);
      FarSorted(old(vec), t0, h0, old(lost), idx, vec, timers, home, now, lost);
      mins := mins[idx := min];
    }

    /** A function is called: it may add and remove timers. */
    method React(r: Reaction, ghost k: nat)
      requires Valid()
      modifies this`vec, this`mins, this`timers, this`nextId, this`home, this`strays, this`lost
      ensures Valid() && Evolves(old(vec), old(timers), vec, timers) && Newer(old(timers), timers, old(nextId))
      ensures nextId == old(nextId) + |r.adds| && Reacts(r, old(timers), old(nextId), timers)
      ensures |vec| == |old(vec)| == SIZE && Grown(old(vec)[0], old(nextId), vec[0], nextId)
      ensures HomesKept(old(home), home, old(nextId))
      ensures OnlyRemoved(old(timers), timers, r.removes)
      ensures r.adds == [] ==> vec == old(vec) && mins == old(mins) && lost == old(lost)
      ensures old(Clear()) && SoundReaction(r, now) ==> Clear()
      ensures Adds(r, now) && AllDue(old(vec)[0], k, old(timers), now) ==>
          |old(vec)[0]| < |vec[0]| && AllDue(vec[0], k, timers, now)
    {
      hide Lists, Timely, Evolves, Wraps, Newer, OnlyRemoved, Blanks, AllDue, DueAtOnce, Placed, LostBy, MinsKnown,
        Reacts, LostFar, Grown;
      var i := 0;
      ghost var v0, t0, n0 := vec, timers, nextId;
      ListedAreTimers(vec, timers, home);
      GrownSelf(vec[0], nextId);
      ghost var busy := Adds(r, now) && AllDue(old(vec)[0], k, old(timers), now);
      TimerCalls.ReactStarts(vec, timers, nextId, r.removes);
      TimerLedger.ReactStarts(r, timers, nextId);
      assert r.adds[..0] == [] && r.removes[..0] == [];
      while i < |r.adds|
        invariant 0 <= i <= |r.adds| && Valid() && Evolves(v0, t0, vec, timers) && Newer(t0, timers, old(nextId))
        invariant nextId == n0 + i && Reacts(Reaction(r.adds[..i], [], r.again), t0, n0, timers)
        invariant |vec| == SIZE && Grown(v0[0], n0, vec[0], nextId)
        invariant HomesKept(old(home), home, n0)
        invariant OnlyRemoved(t0, timers, r.removes)
        invariant (r.adds == [] ==> vec == v0 && mins == old(mins) && lost == old(lost)) && |vec| == SIZE
        invariant old(Clear()) && SoundReaction(r, now) ==> Clear()
        invariant busy ==> |vec[0]| == |v0[0]| + i && AllDue(vec[0], k, timers, now)
      {
        ghost var v1, t1 := vec, timers;
        ReactAdds(r, i, t0, n0, timers);
        var x := AddTimer(r.adds[i]);
        GrownOn(v0[0], n0, v1[0], x, vec[0]);
        EvolvesOn(v0, t0, v1, t1, vec, timers);
        AddedOne(t0, t1, timers, old(nextId), x, r.adds[i], r.removes);
        if busy { DueJoins(v1[0], k, t1, now, r.adds[i], x, home[x], vec[0], timers); }
        i := i + 1;
      }
      assert r.adds[..i] == r.adds;
      i := 0;
      while i < |r.removes|
        invariant 0 <= i <= |r.removes| && Valid() && Evolves(v0, t0, vec, timers) && Newer(t0, timers, old(nextId))
        invariant nextId == n0 + |r.adds| && Reacts(Reaction(r.adds, r.removes[..i], r.again), t0, n0, timers)
        invariant |vec| == SIZE && Grown(v0[0], n0, vec[0], nextId)
        invariant HomesKept(old(home), home, n0)
        invariant OnlyRemoved(t0, timers, r.removes)
        invariant (r.adds == [] ==> vec == v0 && mins == old(mins) && lost == old(lost)) && |vec| == SIZE
        invariant old(Clear()) && SoundReaction(r, now) ==> Clear()
        invariant busy ==> |vec[0]| == |v0[0]| + |r.adds| && AllDue(vec[0], k, timers, now)
      {
        ghost var v1, t1 := vec, timers;
        Remove(r.removes[i]);
        ReactRemoves(r, i, t0, n0, t1, timers);
        EvolvesOn(v0, t0, v1, t1, vec, timers);
        RemovedOne(t0, t1, timers, old(nextId), r.removes[i], r.removes);
        i := i + 1;
      }
      assert r.removes[..i] == r.removes;
    }

    /** The function of the k-th timer of the first list runs; when it returns zero the timer is freed. */
    method CallFunction(k: nat, r: Reaction, ghost t0: map<int, Timer>, ghost world: seq<Reaction>, ghost n: nat,
        ghost calls: seq<Call>, ghost n0: int)
      returns (gone: bool, ghost grown: seq<int>)
      requires Valid() && k < |vec[0]| && IsCalled(calls, vec[0][k]) && IsLive(timers, vec[0][k])
      requires Accounted(t0, timers, world, calls) && Newer(t0, timers, n0) && Below(t0, n0) && n0 <= nextId
      requires r == ReactionOf(world, n)
      modifies this`vec, this`mins, this`timers, this`nextId, this`home, this`strays, this`lost
      ensures Valid() && |vec| == SIZE && (old(Clear()) && SoundReaction(r, now) ==> Clear())
      ensures nextId == old(nextId) + |r.adds| && CallStep(old(timers), old(nextId), old(vec)[0][k], r, timers)
      ensures HomesKept(old(home), home, old(nextId))
      ensures Accounted(t0, timers, world, calls) && Newer(t0, timers, n0)
      ensures old(vec)[0] <= grown && NoDup(grown)
      ensures forall i :: |old(vec)[0]| <= i < |grown| ==> grown[i] >= old(nextId)
      ensures Grown(old(vec)[0], old(nextId), grown, nextId)
      ensures vec[0] == (if gone then Without(grown, k) else grown) && (gone <==> !r.again)
      ensures r.adds == [] ==> grown == old(vec)[0] && lost <= old(lost)
      ensures Adds(r, now) && Busy(old(vec)[0], k, old(timers), now) ==>
          Busy(vec[0], if gone then k else k + 1, timers, now)
    {
      hide Lists, Timely, Evolves, Newer, Accounted, SoundReaction, OnlyRemoved, NoDup, IsCalled, Removed, Below,
        IsLive, Adds, Busy, AllDue, MinsKnown, Reacts, LostFar, Grown;
      ghost var v1, t1, h1, n1 := vec, timers, home, nextId;
      ListedAreTimers(vec, timers, home);
      Listed(vec, timers, home, 0, k);
      React(r, k);
      Survives(v1, t1, vec, timers);
      Reacted(t0, t1, timers, world, n, r, calls, n0, n1);
      NewAtEnd(v1, t1, h1, vec, timers, home, n1);
      ghost var t2 := timers;
      grown := vec[0];
      gone := !r.again;
      if gone {
        LetGo(t0, timers, world, calls, vec[0][k], n0);
        Unlink(k);
      }
      CallDone(t1, n1, v1[0][k], r, t2, timers);
      BusyOn(r, v1[0], k, t1, grown, t2, now, vec[0], if gone then k else k + 1, timers);
    }

    /** The first loop of scan_seconds_timer. The n-th function called does what world[n] says, and nothing once the
        world is exhausted. A due timer of the first list is called unless one of those functions removes it; none
        is called early or twice; only timers of the first list and new ones are called; and none goes missing but
        those called and those removed. With two due timers at first and functions that each add a due timer, there
        is a call for every one of those functions, so functions that go on adding due timers keep the scan going
        for ever. */
    method RunDue(world: seq<Reaction>) returns (calls: seq<Call>)
      requires Valid()
      modifies this`vec, this`mins, this`timers, this`nextId, this`home, this`strays, this`lost
      ensures Valid() && nextId >= old(nextId) && (old(Clear()) && Sound(world, now) ==> Clear())
      ensures CallsOk(old(timers), now, calls) && Accounted(old(timers), timers, world, calls)
      ensures Outcome(old(timers), old(nextId), world, calls, timers, nextId)
      ensures HomesKept(old(home), home, old(nextId)) && AtHome(calls, home)
      ensures Newer(old(timers), timers, old(nextId))
      ensures forall x :: x in old(vec)[0] ==> Answered(old(timers), now, world, calls, x)
      ensures CallsNear(old(vec)[0], calls, old(nextId)) && CallsInOrder(old(vec)[0], old(nextId), calls)
      ensures Busy(old(vec)[0], 0, old(timers), now) && AddsAlways(world, now) ==> |calls| >= |world|
      ensures AddsNone(world) ==> lost <= old(lost)
      ensures old(vec)[0] == [] ==> calls == [] && vec == old(vec) && timers == old(timers) && mins == old(mins)
    {
      hide Lists, Timely, Newer, CallsOk, Accounted, Answered, Sound, IsLive, Busy, AddsAlways, CallsNear, Sum,
        MinsKnown, Outcome, AtHome, HomesKept, LostFar, CallsInOrder, Ahead;
      calls := [];
      ghost var seen: set<int> := {};
      ghost var v0, t0, n0 := vec, timers, nextId;
      ListedAreTimers(vec, timers, home);
      ghost var busy, clear := Busy(vec[0], 0, timers, now) && AddsAlways(world, now), Clear() && Sound(world, now);
      SumStarts(vec[0], timers, nextId, world, now);
      OutcomeStarts(timers, nextId, world);
      HomesStart(home, nextId);
      OrderStarts(vec[0], nextId);
      BusyMeans(vec[0], 0, timers, now);
      var k := 0;
      var more := |vec[0]| > 0;
      while more
        invariant Valid() && (clear ==> Clear()) && n0 <= nextId && |vec| == SIZE && 0 <= k && (more ==> k < |vec[0]|)
        invariant Sum(v0[0], t0, n0, now, world, vec[0], timers, nextId, k, more, seen, calls)
        invariant busy && |calls| < |world| ==> more && Busy(vec[0], k, timers, now)
        invariant Outcome(t0, n0, world, calls, timers, nextId) && AtHome(calls, home)
        invariant HomesKept(old(home), home, n0) && Orderly(v0[0], n0, vec[0], k, nextId, calls)
        invariant AddsNone(world) ==> lost <= old(lost)
        invariant v0[0] == [] ==> !more && calls == [] && vec == v0 && timers == t0 && mins == old(mins)
        decreases if |calls| < |world| then |world| - |calls| else 0, more, |vec[0]| - k
      {
        ghost var x, h1, n1 := vec[0][k], home, nextId;
        k, more, calls := Visit(k, world, calls, seen, v0[0], t0, n0, busy);
        HomesOn(old(home), h1, home, n0, n1);
        seen := seen + {x};
      }
      SumEnds(v0[0], t0, n0, now, world, vec[0], timers, nextId, k, seen, calls);
    }

    /** A round of the loop, for the k-th timer of the first list. */
    method Visit(k: nat, world: seq<Reaction>, calls: seq<Call>, ghost seen: set<int>, ghost old0: seq<int>,
        ghost t0: map<int, Timer>, ghost n0: int, ghost busy: bool)
      returns (k': nat, more: bool, calls': seq<Call>)
      requires Valid() && k < |vec[0]| && n0 <= nextId && Below(t0, n0)
      requires Sum(old0, t0, n0, now, world, vec[0], timers, nextId, k, true, seen, calls)
      requires Outcome(t0, n0, world, calls, timers, nextId) && AtHome(calls, home)
      requires Orderly(old0, n0, vec[0], k, nextId, calls)
      requires busy ==> AddsAlways(world, now) && (|calls| < |world| ==> Busy(vec[0], k, timers, now))
      modifies this`vec, this`mins, this`timers, this`nextId, this`home, this`strays, this`lost
      ensures Valid() && |vec| == SIZE && nextId >= old(nextId) && (old(Clear()) && Sound(world, now) ==> Clear())
      ensures more ==> k' < |vec[0]|
      ensures Sum(old0, t0, n0, now, world, vec[0], timers, nextId, k', more, seen + {old(vec)[0][k]}, calls')
      ensures Outcome(t0, n0, world, calls', timers, nextId)
      ensures Orderly(old0, n0, vec[0], k', nextId, calls')
      ensures HomesKept(old(home), home, old(nextId)) && AtHome(calls', home)
      ensures busy && |calls'| < |world| ==> more && Busy(vec[0], k', timers, now)
      ensures AddsNone(world) ==> lost <= old(lost)
      ensures |calls| <= |calls'|
      ensures (|calls| < |calls'| && |calls| < |world|) || !more || |vec[0]| - k' < |old(vec)[0]| - k
    {
      hide Lists, Timely, Evolves, Sound, SoundReaction, NoDup, IsCalled, Removed, IsLive, Busy, Adds, AddsAlways,
        Sum, Accounted, Newer, MinsKnown, Outcome, AtHome, HomesKept, LostFar, CallStep, Orderly, Grown;
      ListedAreTimers(vec, timers, home);
      Listed(vec, timers, home, 0, k);
      ghost var h1 := home;
      HomesStart(home, nextId);
      var x, isLast := vec[0][k], k + 1 == |vec[0]|;
      BusyMeans(vec[0], k, timers, now);
      Unique(vec, timers, home);
      ghost var list, t1, n1, grown := vec[0], timers, nextId, vec[0];
      SumParts(old0, t0, n0, now, world, vec[0], timers, nextId, k, seen, calls);
      k', calls' := k, calls;
      GrownSelf(list, nextId);
      if timers[x].fn == 0 {
        OutcomePassed(t0, n0, world, calls, timers, nextId, x);
        Unlink(k);
        HomesGone(h1, x, nextId);
        SumPassed(old0, t0, n0, now, world, list, t1, n1, k, seen, calls, vec[0]);
      } else if timers[x].expire <= now {
        var r := ReactionOf(world, |calls|);
        LiveAt(timers, x);
        ReactionAt(world, |calls|, r, now);
        calls' := calls + [Call(x, timers[x].expire)];
        SumCalled(old0, t0, n0, now, world, list, t1, n1, k, seen, calls, calls');
        var gone;
        gone, grown := CallFunction(k, r, t0, world, |calls|, calls', n0);
        CalledIsKnown(t0, n0, t1, x);
        OutcomeCalled(t0, n0, world, calls, t1, n1, x, timers);
        if !gone { k' := k + 1; }
        SumReacted(old0, t0, n0, now, world, list, t1, n1, k, seen, calls, calls', grown, timers, nextId, vec[0], k');
      } else {
        k' := k + 1;
        SumNotDue(old0, t0, n0, now, world, list, t1, n1, k, seen, calls);
      }
      more := !isLast;
      OrderOn(old0, n0, list, k, n1, calls, grown, nextId, vec[0], k', calls');
      StillAtHome(t0, n0, world, calls, t1, n1, h1, home, calls', x);
    }

    /** do_remove_timer with freeing, of the k-th timer of the first list. */
    method Unlink(k: nat)
      requires Valid() && k < |vec[0]|
      modifies this`vec, this`timers, this`home, this`strays, this`lost
      ensures Valid() && vec == old(vec)[0 := Without(old(vec)[0], k)] && timers == old(timers) - {old(vec)[0][k]}
      ensures lost == old(lost) - {old(vec)[0][k]} && home == old(home) - {old(vec)[0][k]}
      ensures old(Clear()) ==> Clear()
    {
      hide Lists, Timely;
      ListedAreTimers(vec, timers, home);
      Drop(vec, timers, home, 0, k);
      var x := vec[0][k];
      DropKeeps(vec, timers, home, mins, base, strays, lost, 0, k);
      vec, timers, home, strays, lost :=
        vec[0 := Without(vec[0], k)], timers - {x}, home - {x}, strays - {x}, lost - {x};
    }

    /** scan_seconds_timer: see ScanOk for what it does. Afterwards there are no strays, and all minima are recorded
        again. A scan that finds nothing near does nothing. */
    method ScanSeconds(world: seq<Reaction>) returns (calls: seq<Call>)
      requires Valid()
      modifies this`vec, this`mins, this`timers, this`nextId, this`home, this`base, this`strays, this`lost
      ensures Valid() && base == now && strays == {} && MinsKnown(vec, mins)
      ensures old(Clear()) && Sound(world, now) ==> Clear()
      ensures AddsNone(world) ==> lost <= old(lost)
      ensures
        ScanOk(Scan(old(base), now, old(timers), old(strays), old(lost), old(nextId), timers, nextId, world, calls))
      ensures NearKept(old(home), home) && AtHome(calls, home) && nextId >= old(nextId)
      ensures CallsNear(old(vec)[0], calls, old(nextId)) && CallsInOrder(old(vec)[0], old(nextId), calls)
      ensures Quiet(old(vec), old(mins), now) ==>
          calls == [] && vec == old(vec) && timers == old(timers) && SameMins(vec, old(mins), mins)
    {
      hide Lists, Timely, PartlyTimely, KeptLive, CallsOk, Accounted, Answered, Newer, Sound, CallsNear, Sorted,
        IsCalled, Removed, MinsKnown, LostBy, Outcome, LostFar, CallsInOrder, Rearranged;
      ghost var b, t0, s0, l0, h0, n0 := base, timers, strays, lost, home, nextId;
      HomeOf(vec, timers, home);
      ListedAreTimers(vec, timers, home);
      DueInFirst(vec, timers, home, mins, base, strays, lost);
      ghost var quiet := Quiet(vec, mins, now);
      calls := RunDue(world);
      ghost var t1, s1, n1, l1 := timers, strays, nextId, lost;
      HomesNear(h0, home, t0, n0);
      PartAndWhole(vec, timers, mins, base, now, strays, lost);
      ListedAreTimers(vec, timers, home);
      KeptAll(timers);
      var i := 1;
      while i != SIZE
        invariant 1 <= i <= SIZE && |mins| == SIZE && |vec| == SIZE && Lists(vec, timers, home)
        invariant PartlyTimely(vec, timers, mins, i, base, now, strays, lost) && lost <= l1
        invariant KeptLive(t1, timers) && timers.Keys <= t1.Keys && base == b && strays == s1 && nextId == n1
        invariant LostFar(home, lost) && NearKept(h0, home) && AtHome(calls, home)
        invariant quiet ==>
            Quiet(vec, mins, now) && vec == old(vec) && timers == old(timers) && SameMins(vec, old(mins), mins)
      {
        ghost var v2, t2, h2 := vec, timers, home;
        if mins[i] - now < 2 {
          ScanTimerList(i);
          KeptOn(t1, t2, timers);
          NearOn(h0, h2, home, calls);
        } else {
          NoScanNeeded(vec, timers, mins, i, base, now, strays, lost);
        }
        ListedAreTimers(vec, timers, home);
        i := i + 1;
      }
      PartAndWhole(vec, timers, mins, base, now, strays, lost);
      KeptAccount(t0, t1, timers, world, calls);
      OutcomeStays(t0, n0, world, calls, t1, n1, timers);
      NewerLess(t0, t1, n0, timers);
      base, strays := now, {};
      forall x | IsLive(t0, x) && x !in s0 && x !in l0 && t0[x].expire <= now && t0[x].expire <= b + 1
        ensures IsCalled(calls, x) || Removed(world, x)
      {
        assert x in old(vec)[0];
        AnsweredDue(t0, now, world, calls, x);
      }
    }

    /** handle_timer at the time t. */
    method HandleTimer(t: int, world: seq<Reaction>) returns (scanned: bool, calls: seq<Call>)
      requires Valid() && t >= now
      modifies this
      ensures Valid() && now == t && last == t && (scanned <==> t != old(last))
      ensures old(Clear()) && Sound(world, t) ==> Clear()
      ensures scanned ==> base == t && strays == {} && MinsKnown(vec, mins) && (AddsNone(world) ==> lost <= old(lost))
      ensures scanned ==>
        && ScanOk(Scan(old(base), t, old(timers), old(strays), old(lost), old(nextId), timers, nextId, world, calls))
        && NearKept(old(home), home) && AtHome(calls, home) && nextId >= old(nextId)
      ensures scanned ==> CallsNear(old(vec)[0], calls, old(nextId))
      ensures scanned && Quiet(old(vec), old(mins), t) ==>
          calls == [] && vec == old(vec) && timers == old(timers) && SameMins(vec, old(mins), mins)
      ensures !scanned ==>
          && base == old(base) && timers == old(timers) && strays == old(strays) && lost == old(lost)
          && home == old(home) && nextId == old(nextId) && calls == []
    {
      hide Lists, Timely, Sound, ScanOk, CallsNear, Quiet, SameMins, MinsKnown;
      now := t;
      if last != now {
        last := now;
        calls := ScanSeconds(world);
        scanned := true;
      } else {
        scanned, calls := false, [];
      }
    }

    // ----- whole runs

    /** One event; a tick that scans gives one entry of the log. */
    method Handle(e: Event, ghost n: nat) returns (ghost scans: seq<Scan>)
      requires Valid() && Acceptable(e, now)
      modifies this
      ensures Valid() && now == Later(e, old(now)) && |scans| <= 1 && base == LastTime(scans, old(base))
      ensures old(Clear()) && Clean(e, old(now)) ==> Clear()
      ensures Stepped(e, old(Here(n)), scans, Here(n + |scans|))
      ensures |scans| == 1 ==> scans[0].prev == old(base) && ScanOk(scans[0])
    {
      hide Lists, Timely, ScanOk, Sound, Evolves, Placed, Wraps, Removed, Blanks, CallsNear, Quiet, SameMins,
        MinsKnown, LostBy, Stepped, Sane, NearKept, AtHome, LostFar;
      ghost var m, b0, h0, v0, m0 := Here(n), base, home, vec, mins;
      HomeOf(vec, timers, home);
      SaneNow(m, home, nextId);
      scans := [];
      match e {
        case Tick(t, world) =>
          var scanned, calls := HandleTimer(t, world);
          if scanned {
            SaneNow(Here(n + 1), home, nextId);
            ghost var s := Scan(b0, t, m.timers, m.strays, m.lost, m.next, timers, nextId, world, calls);
            scans := [s];
            HomeOf(vec, timers, home);
            NearIs(m, h0, s, Here(n + 1), home);
            ScanSteps(e, m, s, Here(n + 1));
          } else {
            IdleSteps(e, m, Here(n));
          }
        case Insert(tm) =>
          var x := AddTimer(tm);
          LostAreTimers(v0, m.timers, m0, home[x], tm.expire, base);
          SaneNow(Here(n), home, nextId);
          NearGrows(h0, home);
          InsertSteps(e, m, x, Here(n));
        case Delete(x) =>
          Remove(x);
          DeleteSteps(e, m, Here(n));
        case Retime(x, e') =>
          if x in timers { ModExpire(x, e'); }
          HomeOf(vec, timers, home);
          SaneNow(Here(n), home, nextId);
          RetimeSteps(e, m, Here(n));
        case Reload(tcfs) =>
          Refresh(tcfs);
          ReloadSteps(e, m, Here(n));
      }
    }

    /** Any run of the program: ticks of a clock that never goes back, with timers added, removed, re-timed and
        re-bound in between. It keeps its promise to every timer, from every moment on at which the timer is live,
        for as long as the timer is left alone and not lost. No timer is ever lost in a run that adds no timer that
        blanks a minimum. trace[i] is the moment before the i-th event. */
    method Run(events: seq<Event>) returns (ghost trace: seq<Moment>, ghost log: seq<Scan>)
      requires Valid() && AllAcceptable(events, now)
      modifies this
      ensures Valid() && Chain(log, old(base)) && (forall k :: 0 <= k < |log| ==> ScanOk(log[k]))
      ensures |trace| == |events| + 1
      ensures trace[0] == old(Here(0)) && trace[|events|] == Here(|log|)
      ensures forall i :: 0 <= i < |events| ==> StepAt(events, trace, log, i)
      ensures forall j :: 0 <= j <= |events| ==> trace[j].scans <= |log|
      ensures forall j: nat, x :: j <= |events| ==> Owed(events, trace, log, |events|, j, x)
      ensures forall j: nat, x :: j <= |events| ==> Recurs(events, trace, log, |events|, j, x)
      ensures forall x :: Ended(log, Here(|log|), x)
      ensures old(Clear()) && AllClean(events, old(now)) ==>
          Clear() && forall j :: 0 <= j <= |events| ==> trace[j].lost == {}
    {
      hide Lists, Timely, Story, AllAcceptable, AllClean, Acceptable, Clean, Stepped, ScanOk, MinsKnown;
      log, trace := [], [Here(0)];
      ghost var b0, start, clean := base, trace[0], Clear() && AllClean(events, now);
      var i := 0;
      assert events[0..] == events;
      StoryStarts(events, start, b0);
      while i < |events|
        invariant 0 <= i <= |events| && Valid() && AllAcceptable(events[i..], now)
        invariant clean ==> Clear() && AllClean(events[i..], now)
        invariant Story(events, trace, log, i, b0, start, Here(|log|))
        invariant base == LastTime(log, b0)
        invariant |trace| == i + 1 && (clean ==> forall j :: 0 <= j <= i ==> trace[j].lost == {})
      {
        EventsStep(events, i, now);
        ghost var m := Here(|log|);
        ghost var scans := Handle(events[i], |log|);
        StoryStep(events, trace, log, i, b0, start, m, scans, Here(|log| + |scans|));
        log, trace := log + scans, trace + [Here(|log| + |scans|)];
        i := i + 1;
      }
      StoryEnds(events, trace, log, b0, start, Here(|log|));
    }
  }

  /** Two due timers whose functions, and those of all timers added after them, each add one due timer: there is no
      bound on the number of calls in a scan. */
  method Endless(a: int, n: nat) returns (world: seq<Reaction>, calls: seq<Call>)
    requires a >= 0
    ensures |world| == n && (forall i :: 0 <= i < n ==> world[i] == Reaction([Timer(a, 1, 0)], [], false))
    ensures |calls| >= n && CallsOk(map[0 := Timer(a, 1, 0), 1 := Timer(a, 1, 0)], a, calls)
  {
    hide Lists, Timely, Evolves, CallsOk, Accounted, Newer, Answered, CallsNear, Sound;
    world := seq(n, _ => Reaction([Timer(a, 1, 0)], [], false));
    var w := new Wheel(a);
    var x := w.AddTimer(Timer(a, 1, 0));
    DueGoesFirst(Timer(a, 1, 0), a, w.home[x]);
    var y := w.AddTimer(Timer(a, 1, 0));
    DueGoesFirst(Timer(a, 1, 0), a, w.home[y]);
    assert w.vec[0] == [x, y];
    calls := w.RunDue(world);
  }

  // ----- what the int difference of add_timer does

  /** A timer that is due when it is added to a new wheel, and the scans of the two seconds after: the first one
      calls it if and only if the difference does not wrap, and the second one calls it otherwise. */
  method DueWhenAdded(a: int, e: int) returns (first: bool, second: bool)
    requires a >= 0 && e <= a
    ensures first <==> !Wraps(e - a)
    ensures !first ==> second
  {
    hide Wraps, Placed, Trunc32, Width, CallsNear, Lists, Timely, ScanOk, Evolves, Sound, Quiet, SameMins,
      MinsKnown, LostBy;
    var w := new Wheel(a);
    forall i: nat
      ensures LostBy(w.vec, w.timers, w.mins, i, e, a) == {}
    {
      NoneOverlaid(w.vec, w.timers, w.mins, i, e, a);
    }
    var x := w.AddTimer(Timer(e, 1, 0));
    PlacedDue(e - a, w.home[x]);
    ghost var v0, n0 := w.vec, w.nextId;
    ghost var t0, s0, l0, i0 := w.timers, w.strays, w.lost, w.nextId;
    var scanned, c1 := w.HandleTimer(a + 1, []);
    FirstOnly(v0[0], n0, x, c1);
    ScanMeans(Scan(a, a + 1, t0, s0, l0, i0, w.timers, w.nextId, [], c1), x);
    first := exists i :: 0 <= i < |c1| && c1[i].x == x;
    t0, s0, l0, i0 := w.timers, w.strays, w.lost, w.nextId;
    var c2;
    scanned, c2 := w.HandleTimer(a + 2, []);
    ScanMeans(Scan(a + 1, a + 2, t0, s0, l0, i0, w.timers, w.nextId, [], c2), x);
    second := exists i :: 0 <= i < |c2| && c2[i].x == x;
  }

  lemma PlacedDue(d: int, i: nat)
    requires Placed(Trunc32(d), i) && d <= 0
    ensures i > 0 <==> Wraps(d)
  {
    PlacedRight(d, i);
  }

  lemma FirstOnly(old0: seq<int>, n: int, x: int, calls: seq<Call>)
    requires CallsNear(old0, calls, n) && x < n
    ensures IsCalled(calls, x) ==> x in old0
  {
  }

  lemma ScanMeans(s: Scan, x: int)
    requires ScanOk(s) && s.world == []
    ensures IsDue(s, x) ==> IsCalled(s.calls, x)
    ensures
      IsLive(s.before, x) && !IsCalled(s.calls, x) ==> IsLive(s.after, x) && s.after[x].expire == s.before[x].expire
  {
  }

  /** A wrapped timer with expiry 0, and another one that joins its list before the next scan: the first one is
      lost, and the scans of the two seconds after call neither, although the first timer is due all the time. */
  method Forgotten(a: int) returns (w: Wheel, x: int, c1: seq<Call>, c2: seq<Call>)
    requires a >= 0 && Blanks(0, a)
    ensures w.now == a + 2 && IsLive(w.timers, x) && w.timers[x].expire == 0 && c1 == [] && c2 == []
  {
    hide Wraps, Placed, Trunc32, Width, CallsNear, Lists, Timely, ScanOk, Evolves, MinsKnown, LostBy;
    w := new Wheel(a);
    x := w.AddTimer(Timer(0, 1, 0));
    var i := w.PlaceFor(Trunc32(-a));
    PlacedOnce(Trunc32(-a), i, w.home[x]);
    PlacedDue(-a, i);
    var y := w.AddTimer(Timer(a + Width(i - 1) + 1, 1, 0));
    SameList(Width(i - 1) + 1, i, w.home[y]);
    WidthIsFour(i - 1);
    var scanned;
    assert Quiet(w.vec, w.mins, a + 2);
    scanned, c1 := w.HandleTimer(a + 1, []);
    scanned, c2 := w.HandleTimer(a + 2, []);
  }

  lemma PlacedOnce(d: int, i: nat, j: nat)
    requires Placed(d, i) && Placed(d, j)
    ensures i == j && i < SIZE
  {
    if i < j { WidthGrows(i, j - 1); } else if j < i { WidthGrows(j, i - 1); }
  }

  lemma WidthIsFour(i: nat)
    requires i < SIZE
    ensures Width(i) >= 4
  {
  }

  lemma SameList(d: int, i: nat, j: nat)
    requires 1 <= i < SIZE && d == Width(i - 1) + 1 && Placed(Trunc32(d), j)
    ensures j == i
  {
    assert Width(0) == 4 && Width(1) == 8 && Width(2) == 16 && Width(3) == 32 && Width(4) == 64;
    assert Trunc32(d) == d;
  }

  /** No timer is near: the first list is empty, and in the others nothing expires within two seconds. */
  ghost predicate Quiet(vec: seq<seq<int>>, mins: seq<int>, now: int) {
    && |vec| == SIZE && |mins| == SIZE && vec[0] == []
    && forall j :: 1 <= j < SIZE ==> vec[j] == [] || mins[j] - now >= 2
  }

  ghost predicate SameMins(vec: seq<seq<int>>, mins: seq<int>, mins': seq<int>) {
    && |vec| == SIZE && |mins| == SIZE && |mins'| == SIZE
    && forall j :: 1 <= j < SIZE && vec[j] != [] ==> mins'[j] == mins[j]
  }

  lemma DueJoins(l: seq<int>, k: nat, t: map<int, Timer>, now: int, tm: Timer, x: int, i: nat, l': seq<int>,
      t': map<int, Timer>)
    requires AllDue(l, k, t, now) && DueAtOnce(tm, now) && Placed(Trunc32(tm.expire - now), i) && x !in t
    requires t' == t[x := tm]
    requires i == 0 ==> l' == l + [x]
    ensures l' == l + [x] && AllDue(l', k, t', now)
  {
    DueGoesFirst(tm, now, i);
    BusyGrows(l, k, t, now, l', t', x);
  }

  lemma BusyOn(r: Reaction, l: seq<int>, k: nat, t: map<int, Timer>, grown: seq<int>, t': map<int, Timer>, now: int,
      l': seq<int>, k': nat, t'': map<int, Timer>)
    requires k < |grown| && NoDup(grown)
    requires Adds(r, now) && AllDue(l, k, t, now) ==> |l| < |grown| && AllDue(grown, k, t', now)
    requires (l' == Without(grown, k) && k' == k && t'' == t' - {grown[k]}) || (l' == grown && k' == k + 1 && t'' == t')
    ensures Adds(r, now) && Busy(l, k, t, now) ==> Busy(l', k', t'', now)
  {
    if Adds(r, now) && Busy(l, k, t, now) { BusyStays(l, k, grown, t', now, l', k', t''); }
  }

  lemma BusyMeans(l: seq<int>, k: nat, timers: map<int, Timer>, now: int)
    ensures
      Busy(l, k, timers, now) ==> k + 2 <= |l| && l[k] in timers && timers[l[k]].fn != 0 && timers[l[k]].expire <= now
  {
  }

  lemma ReactionAt(world: seq<Reaction>, n: nat, r: Reaction, now: int)
    requires r == ReactionOf(world, n)
    ensures Sound(world, now) ==> SoundReaction(r, now)
    ensures n < |world| && AddsAlways(world, now) ==> Adds(r, now)
    ensures AddsNone(world) ==> r.adds == []
  {
  }

  lemma LiveAt(timers: map<int, Timer>, x: int)
    requires x in timers && timers[x].fn != 0
    ensures IsLive(timers, x)
  {
  }

  lemma CallDone(t: map<int, Timer>, n: int, x: int, r: Reaction, t1: map<int, Timer>, t': map<int, Timer>)
    requires IsLive(t, x) && x < n && (forall y :: y in t ==> y < n) && Reacts(r, t, n, t1)
    requires t' == if r.again then t1 else t1 - {x}
    ensures CallStep(t, n, x, r, t')
  {
  }

  lemma CalledIsKnown(t0: map<int, Timer>, n0: int, t: map<int, Timer>, x: int)
    requires Newer(t0, t, n0) && x in t
    ensures x in t0 || x >= n0
  {
  }

  // ----- timers stay in the first list until a scan frees them

  /** Timers with an identity below n are in h' in the lists they are in in h; n is the next identity in h. */
  ghost predicate HomesKept(h: map<int, int>, h': map<int, int>, n: int) {
    forall y :: y in h' && y < n ==> y in h && h'[y] == h[y]
  }

  ghost predicate AtHome(calls: seq<Call>, home: map<int, int>) {
    forall i :: 0 <= i < |calls| && calls[i].x in home ==> home[calls[i].x] == 0
  }

  lemma HomeOf(vec: seq<seq<int>>, timers: map<int, Timer>, home: map<int, int>)
    requires Lists(vec, timers, home)
    ensures home.Keys == timers.Keys
  {
  }

  lemma SaneNow(m: Moment, home: map<int, int>, n: int)
    requires LostFar(home, m.lost) && m.near == Near(home) && m.next == n && forall x :: x in m.timers ==> x < n
    ensures Sane(m)
  {
  }

  lemma NearGrows(h: map<int, int>, h': map<int, int>)
    requires forall x :: x in h ==> x in h' && h'[x] == h[x]
    ensures Near(h) <= Near(h')
  {
    forall x | x in Near(h) ensures x in Near(h') {}
  }

  lemma NearIs(m: Moment, h: map<int, int>, s: Scan, m': Moment, h': map<int, int>)
    requires m.near == Near(h) && m'.near == Near(h') && h'.Keys == m'.timers.Keys
    requires NearKept(h, h') && AtHome(s.calls, h')
    ensures NearAfter(m, s, m')
  {
  }

  /** Timers of the first list that are still there are still in it. */
  ghost predicate NearKept(h: map<int, int>, h': map<int, int>) {
    forall x :: x in h && x in h' && h[x] == 0 ==> h'[x] == 0
  }

  lemma HomesNear(h: map<int, int>, h': map<int, int>, t: map<int, Timer>, n: int)
    requires HomesKept(h, h', n) && forall x :: x in h ==> x < n
    ensures NearKept(h, h')
  {
  }

  lemma NearOn(h: map<int, int>, h1: map<int, int>, h': map<int, int>, calls: seq<Call>)
    requires NearKept(h, h1) && AtHome(calls, h1)
    requires forall x :: x in h' ==> x in h1 && (h1[x] == 0 ==> h'[x] == 0)
    ensures NearKept(h, h') && AtHome(calls, h')
  {
  }

  lemma NewerLess(t0: map<int, Timer>, t: map<int, Timer>, n0: int, t': map<int, Timer>)
    requires Newer(t0, t, n0) && t'.Keys <= t.Keys
    ensures Newer(t0, t', n0)
  {
  }

  lemma OutcomeStays(t0: map<int, Timer>, n0: int, world: seq<Reaction>, calls: seq<Call>, t: map<int, Timer>, n: int,
      t': map<int, Timer>)
    requires Outcome(t0, n0, world, calls, t, n) && KeptLive(t, t')
    ensures Outcome(t0, n0, world, calls, t', n)
  {
    hide Outcome;
    OutcomeKept(t0, n0, world, calls, t, n, t');
  }

  lemma HomesStart(h: map<int, int>, n: int)
    ensures HomesKept(h, h, n) && AtHome([], h)
  {
  }

  lemma HomesOn(h: map<int, int>, h1: map<int, int>, h': map<int, int>, n: int, n1: int)
    requires HomesKept(h, h1, n) && HomesKept(h1, h', n1) && n <= n1
    ensures HomesKept(h, h', n)
  {
  }

  lemma HomesGone(h: map<int, int>, x: int, n: int)
    ensures HomesKept(h, h - {x}, n)
  {
  }

  lemma StillAtHome(t0: map<int, Timer>, n0: int, world: seq<Reaction>, calls: seq<Call>, t: map<int, Timer>, n: int,
      h: map<int, int>, h': map<int, int>, calls': seq<Call>, x: int)
    requires Outcome(t0, n0, world, calls, t, n) && AtHome(calls, h) && HomesKept(h, h', n)
    requires x < n && x in h && h[x] == 0
    requires calls' == calls || (|calls'| == |calls| + 1 && calls <= calls' && calls'[|calls|].x == x)
    ensures AtHome(calls', h')
  {
    hide Fates, Silenced, AllBorn;
    forall i | 0 <= i < |calls'| && calls'[i].x in h' ensures h'[calls'[i].x] == 0 {
      if i < |calls| { assert calls'[i] == calls[i]; }
    }
  }

  lemma Unique(vec: seq<seq<int>>, timers: map<int, Timer>, home: map<int, int>)
    requires Lists(vec, timers, home)
    ensures |vec| == SIZE && forall i :: 0 <= i < SIZE ==> NoDup(vec[i])
  {
  }

  lemma Survives(vec: seq<seq<int>>, t: map<int, Timer>, vec': seq<seq<int>>, t': map<int, Timer>)
    requires Evolves(vec, t, vec', t') && |vec| > 0
    ensures |vec'| == |vec| && vec[0] <= vec'[0] && forall x :: x in t ==> x in t' && t'[x].expire == t[x].expire
  {
  }

  /** List i is the first one wide enough for a timer d seconds away, but not beyond list max. */
  ghost predicate Fitting(d: int, i: int, max: nat) {
    0 <= i <= max < SIZE && (i > 0 ==> d > Width(i - 1)) && (i < max ==> d <= Width(i))
  }

  lemma FittingFar(d: int, i: nat, max: nat)
    requires Fitting(d, i, max)
    ensures i <= max && (i > 0 ==> d > 4)
  {
    if i > 0 { WidthGrows(0, i - 1); }
  }

  lemma PlacedFar(d: int, i: nat)
    requires Placed(d, i)
    ensures i < SIZE && (i > 0 ==> d > 4)
  {
    if i > 0 { WidthGrows(0, i - 1); }
  }

  /** A timer that is put into a list other than the first is a stray, or not due for some time. */
  lemma PlacedMeans(t: Timer, now: int, i: nat)
    requires Placed(Trunc32(t.expire - now), i) && now >= 0
    ensures i < SIZE && (i > 0 && !Wraps(t.expire - now) ==> t.expire > now + 4)
    ensures i > 0 && !Blanks(t.expire, now) ==> t.expire != 0
  {
    PlacedRight(t.expire - now, i);
  }

  /** What adding a timer to list i keeps. */
  lemma Added(vec: seq<seq<int>>, timers: map<int, Timer>, home: map<int, int>, mins: seq<int>, b: int,
      strays: set<int>, lost: set<int>, i: nat, x: int, t: Timer, now: int, s: set<int>)
    requires Lists(vec, timers, home) && Timely(vec, timers, mins, b, strays, lost) && x !in timers && x !in strays
    requires |mins| == SIZE
    requires Placed(Trunc32(t.expire - now), i) && 0 <= b <= now
    requires s == if Wraps(t.expire - now) then strays + {x} else strays
    ensures i < SIZE == |vec| && Lists(vec[i := vec[i] + [x]], timers[x := t], home[x := i])
    ensures Evolves(vec, timers, vec[i := vec[i] + [x]], timers[x := t])
    ensures
      Timely(vec[i := vec[i] + [x]], timers[x := t], mins[i := NewMin(mins[i], t.expire)], b, s,
        lost + LostBy(vec, timers, mins, i, t.expire, b))
    ensures MinsKnown(vec, mins) && !Blanks(t.expire, now) ==>
      && MinsKnown(vec[i := vec[i] + [x]], mins[i := NewMin(mins[i], t.expire)])
      && LostBy(vec, timers, mins, i, t.expire, b) == {}
  {
    hide Lists, Timely, Evolves, Trunc32, Wraps, Placed, Width, Blanks, NewMin, LostBy, MinsKnown;
    ListedAreTimers(vec, timers, home);
    PlacedMeans(t, now, i);
    Append(vec, timers, home, i, x, t);
    AddEvolves(vec, timers, i, x, t);
    assert s - {x} == strays;
    AddKeeps(vec, timers, mins, b, s, lost, i, x, t);
    if MinsKnown(vec, mins) && !Blanks(t.expire, now) {
      NoneOverlaid(vec, timers, mins, i, t.expire, b);
      AddKnown(vec, mins, i, x, t.expire);
    }
  }

  /** What re-timing the k-th timer of list i, which goes to list j, keeps. */
  lemma Retimed(vec: seq<seq<int>>, timers: map<int, Timer>, home: map<int, int>, mins: seq<int>, b: int,
      strays: set<int>, lost: set<int>, i: nat, k: nat, j: nat, t: Timer, now: int)
    requires Lists(vec, timers, home) && Timely(vec, timers, mins, b, strays, lost) && |mins| == SIZE && i < SIZE
    requires k < |vec[i]|
    requires Placed(t.expire - now, j) && 0 <= b <= now
    ensures j < SIZE == |vec|
    ensures var x, v := vec[i][k], vec[i := Without(vec[i], k)];
      Lists(v[j := v[j] + [x]], timers[x := t], home[x := j])
    ensures var x, v := vec[i][k], vec[i := Without(vec[i], k)];
      Timely(v[j := v[j] + [x]], timers[x := t], mins[j := NewMin(mins[j], t.expire)], b, strays - {x},
        lost - {x} + LostBy(v, timers - {x}, mins, j, t.expire, b))
    ensures var x, v := vec[i][k], vec[i := Without(vec[i], k)];
      MinsKnown(vec, mins) ==>
        && MinsKnown(v[j := v[j] + [x]], mins[j := NewMin(mins[j], t.expire)])
        && LostBy(v, timers - {x}, mins, j, t.expire, b) == {}
  {
    hide Lists, Timely, Placed, NewMin, LostBy, MinsKnown;
    ListedAreTimers(vec, timers, home);
    var x, v := vec[i][k], vec[i := Without(vec[i], k)];
    PlacedFar(t.expire - now, j);
    RetimeLists(vec, timers, home, i, k, j, t);
    RetimeKeeps(vec, timers, home, mins, b, strays, lost, i, k, j, t);
    if MinsKnown(vec, mins) {
      DropKnown(vec, mins, i, k);
      NoneOverlaid(v, timers - {x}, mins, j, t.expire, b);
      AddKnown(v, mins, j, x, t.expire);
    }
  }

  lemma LostAreTimers(vec: seq<seq<int>>, timers: map<int, Timer>, mins: seq<int>, i: nat, e: int, b: int)
    ensures forall y :: y in LostBy(vec, timers, mins, i, e, b) ==> y in timers && timers[y].expire < e
  {
  }

  lemma ScanningSize(vec: seq<seq<int>>, timers: map<int, Timer>, mins: seq<int>, idx: nat, b: int, now: int,
      strays: set<int>, lost: set<int>, k: nat, min: int)
    requires Scanning(vec, timers, mins, idx, b, now, strays, lost, k, min)
    ensures |vec| == SIZE && |mins| == SIZE
  {
  }

  /** Timer x of list idx is in the first list wide enough for it, up to idx; timers of other lists have not moved. */
  ghost predicate SortedAt(h0: map<int, int>, h: map<int, int>, timers: map<int, Timer>, idx: nat, now: int, x: int) {
    x in timers && x in h && x in h0 ==>
      var d, i := timers[x].expire - now, h[x];
      if h0[x] != idx then i == h0[x] else Fitting(d, i, idx)
  }

  ghost predicate Sorted(h0: map<int, int>, h: map<int, int>, timers: map<int, Timer>, idx: nat, now: int) {
    forall x :: x in timers ==> SortedAt(h0, h, timers, idx, now, x)
  }

  /** The same, of all timers but those in `rest`. */
  ghost predicate SortedBut(h0: map<int, int>, h: map<int, int>, timers: map<int, Timer>, idx: nat, now: int,
      rest: seq<int>) {
    && (forall x :: x in timers && x !in rest ==> SortedAt(h0, h, timers, idx, now, x))
    && (forall x :: x in rest ==> x in h0 && h0[x] == idx)
  }

  lemma Listed(vec: seq<seq<int>>, timers: map<int, Timer>, home: map<int, int>, idx: nat, k: nat)
    requires Lists(vec, timers, home) && idx < SIZE && k < |vec[idx]|
    ensures home.Keys == timers.Keys && vec[idx][k] in timers && home[vec[idx][k]] == idx
    ensures vec[idx][k..][0] == vec[idx][k]
  {
    hide NoDup;
    var l := vec[idx];
    var x := l[k];
    assert x in l;
    assert x in vec[idx] ==> x in timers && home[x] == idx;
  }

  lemma SortMore(h0: map<int, int>, h: map<int, int>, timers: map<int, Timer>, idx: nat, now: int, rest: seq<int>,
      x: int, h': map<int, int>, timers': map<int, Timer>)
    requires SortedBut(h0, h, timers, idx, now, rest) && rest != [] && rest[0] == x && h.Keys == timers.Keys
    requires x in h0 && h0[x] == idx && x in timers' ==> SortedAt(h0, h', timers', idx, now, x)
    requires forall y :: y in timers' && y != x ==> y in timers && timers'[y] == timers[y] && y in h' && h'[y] == h[y]
    ensures SortedBut(h0, h', timers', idx, now, rest[1..])
  {
    assert rest == [x] + rest[1..];
    forall y | y in timers' && y !in rest[1..] ensures SortedAt(h0, h', timers', idx, now, y) {
      if y == x { assert x in rest; } else { assert SortedAt(h0, h, timers, idx, now, y); }
    }
  }

  lemma SortStarts(vec: seq<seq<int>>, timers: map<int, Timer>, home: map<int, int>, idx: nat, now: int)
    requires Lists(vec, timers, home) && idx < SIZE
    ensures SortedBut(home, home, timers, idx, now, vec[idx][0..])
  {
    assert vec[idx][0..] == vec[idx];
  }

  lemma SortEnds(h0: map<int, int>, h: map<int, int>, timers: map<int, Timer>, idx: nat, now: int, rest: seq<int>)
    requires SortedBut(h0, h, timers, idx, now, rest) && rest == []
    ensures Sorted(h0, h, timers, idx, now)
  {
  }

  /** Timers of the list that is scanned are found again, and others do not come near. */
  lemma FarSorted(v0: seq<seq<int>>, t0: map<int, Timer>, h0: map<int, int>, l0: set<int>, idx: nat,
      vec: seq<seq<int>>, timers: map<int, Timer>, home: map<int, int>, now: int, lost: set<int>)
    requires Lists(v0, t0, h0) && Lists(vec, timers, home) && 1 <= idx < SIZE && timers.Keys <= t0.Keys
    requires Sorted(h0, home, timers, idx, now) && lost == l0 - set x | x in v0[idx]
    ensures LostFar(h0, l0) ==> LostFar(home, lost)
    ensures forall x :: x in home ==> x in h0 && (h0[x] == 0 ==> home[x] == 0)
  {
    hide NoDup, Fitting;
    forall x | x in home ensures x in h0 && (h0[x] == 0 ==> home[x] == 0) && (x in lost ==> home[x] == h0[x]) {
      assert SortedAt(h0, home, timers, idx, now, x);
      assert x in v0[h0[x]];
    }
  }

  /** No live timer was lost or changed. */
  ghost predicate KeptLive(a: map<int, Timer>, b: map<int, Timer>) {
    (forall x :: x in b ==> x in a && b[x] == a[x]) && forall x :: IsLive(a, x) ==> x in b
  }

  lemma KeptAll(a: map<int, Timer>)
    ensures KeptLive(a, a)
  {
  }

  lemma KeptLess(a: map<int, Timer>, b: map<int, Timer>, x: int)
    requires KeptLive(a, b) && x in b && b[x].fn == 0
    ensures KeptLive(a, b - {x})
  {
  }

  lemma KeptOn(a: map<int, Timer>, b: map<int, Timer>, c: map<int, Timer>)
    requires KeptLive(a, b) && KeptLive(b, c)
    ensures KeptLive(a, c)
  {
    forall x | IsLive(a, x) ensures x in c { assert IsLive(b, x); }
  }

  lemma KeptAccount(t0: map<int, Timer>, t1: map<int, Timer>, t: map<int, Timer>, world: seq<Reaction>,
      calls: seq<Call>)
    requires Accounted(t0, t1, world, calls) && KeptLive(t1, t)
    ensures Accounted(t0, t, world, calls)
  {
    forall x | IsLive(t1, x) ensures IsLive(t, x) {}
  }

  lemma DueInFirst(vec: seq<seq<int>>, timers: map<int, Timer>, home: map<int, int>, mins: seq<int>, b: int,
      strays: set<int>, lost: set<int>)
    requires Lists(vec, timers, home) && Timely(vec, timers, mins, b, strays, lost)
    ensures |vec| == SIZE
    ensures forall x :: x in timers && x !in strays && x !in lost && timers[x].expire <= b + 1 ==> x in vec[0]
  {
    hide NoDup;
    forall x | x in timers && x !in strays && x !in lost && timers[x].expire <= b + 1 ensures x in vec[0] {
      assert x in vec[home[x]];
    }
  }

  lemma AnsweredDue(t0: map<int, Timer>, now: int, world: seq<Reaction>, calls: seq<Call>, x: int)
    requires Answered(t0, now, world, calls, x) && IsLive(t0, x) && t0[x].expire <= now
    ensures IsCalled(calls, x) || Removed(world, x)
  {
  }
}
