/** Whole runs of the timer wheel (timer.c, timer.h): scans, the events between them, and what every timer is
    promised. */
module TimerRuns {
  import opened TimerLists
  import opened TimerCalls
  import opened TimerLedger

  /** One scan: the time of the one before, its own time, the timers before it with the strays and the lost ones
      among them and the first new identity, the timers after it and the next identity then, what the functions did, and
      the calls. */
  datatype Scan = Scan(prev: int, time: int, before: map<int, Timer>, strays: set<int>, lost: set<int>, first: int,
    after: map<int, Timer>, next: int, world: seq<Reaction>, calls: seq<Call>)

  /** No call is early or double, no timer goes missing, and a live timer that is due, and was due by the second
      after the last scan, is called, unless it is a stray or lost or a function called in this scan removes it. A
      timer that is called stays, for the same time, if its function returns non-zero, and is freed if it returns zero;
      and what the functions add is there afterwards, and what they remove has no function any more. */
  ghost predicate ScanOk(s: Scan) {
    && Newer(s.before, s.after, s.first) && Outcome(s.before, s.first, s.world, s.calls, s.after, s.next)
    && s.prev <= s.time && CallsOk(s.before, s.time, s.calls) && Accounted(s.before, s.after, s.world, s.calls)
    && forall x :: IsDue(s, x) ==> IsCalled(s.calls, x) || Removed(s.world, x)
  }

  ghost predicate IsDue(s: Scan, x: int) {
    && IsLive(s.before, x) && x !in s.strays && x !in s.lost
    && s.before[x].expire <= s.time && s.before[x].expire <= s.prev + 1
  }

  /** What happens to a wheel. Retime stands for mod_expire_time, Reload for refresh_timers_callback with a new
      table. */
  datatype Event = Tick(t: int, world: seq<Reaction>) | Insert(tm: Timer) | Delete(x: int) | Retime(x: int,
    e: int) | Reload(tcfs: map<int, int>)

  /** The clock does not go back, and no function is registered for type 0. */
  ghost predicate Acceptable(e: Event, now: int) {
    match e
    case Tick(t, world) => t >= now
    case Reload(tcfs) => 0 in tcfs ==> tcfs[0] == 0
    case _ => true
  }

  /** The event adds no timer that blanks the minimum of its list. */
  ghost predicate Clean(e: Event, now: int) {
    match e
    case Tick(t, world) => Sound(world, t)
    case Insert(tm) => !Blanks(tm.expire, now)
    case _ => true
  }

  ghost function Later(e: Event, now: int): int { if e.Tick? then e.t else now }

  ghost predicate AllAcceptable(events: seq<Event>, now: int) {
    events == [] || (Acceptable(events[0], now) && AllAcceptable(events[1..], Later(events[0], now)))
  }

  ghost predicate AllClean(events: seq<Event>, now: int) {
    events == [] || (Clean(events[0], now) && AllClean(events[1..], Later(events[0], now)))
  }

  lemma EventsStep(events: seq<Event>, i: nat, now: int)
    requires i < |events|
    ensures AllAcceptable(events[i..], now) ==>
        Acceptable(events[i], now) && AllAcceptable(events[i + 1..], Later(events[i], now))
    ensures AllClean(events[i..], now) ==> Clean(events[i], now) && AllClean(events[i + 1..], Later(events[i], now))
  {
    assert events[i..][1..] == events[i + 1..] && events[i..][0] == events[i];
  }

  /** The event does not remove x, re-time it or take its function away. */
  ghost predicate UntouchedBy(e: Event, timers: map<int, Timer>, x: int) {
    match e
    case Tick(_, world) => !Removed(world, x)
    case Insert(_) => true
    case Delete(y) => y != x
    case Retime(y, _) => y != x
    case Reload(tcfs) => x in timers ==> timers[x].idx in tcfs && tcfs[timers[x].idx] != 0
  }

  // ----- a moment of a run, and what an event makes of it

  /** The time, the timers, the strays, the lost ones and those of the first list among them, the next identity, and
      how many scans there have been. */
  datatype Moment = Moment(now: int, timers: map<int, Timer>, strays: set<int>, lost: set<int>, near: set<int>,
    next: int, scans: nat)

  ghost function Near(home: map<int, int>): set<int> { set x | x in home && home[x] == 0 }

  ghost predicate Sane(m: Moment) { (forall x :: x in m.near ==> x !in m.lost) && Below(m.timers, m.next) }

  ghost predicate Inserted(m: Moment, tm: Timer, m': Moment) {
    exists x ::
      && x !in m.timers && m'.timers == m.timers[x := tm]
      && m'.strays == if Wraps(tm.expire - m.now) then m.strays + {x} else m.strays
  }

  /** Outside scans, only a timer that is added or re-timed makes others lost, and only such as expire before it. */
  ghost predicate LosesBy(e: Event, m: Moment, m': Moment) {
    match e
    case Tick(_, _) => true
    case Insert(tm) => LostBefore(m, m', tm.expire)
    case Retime(_, t) => LostBefore(m, m', t)
    case _ => m'.lost == m.lost
  }

  ghost predicate LostBefore(m: Moment, m': Moment, t: int) {
    forall y :: y in m'.lost && y !in m.lost ==> y in m.timers && m.timers[y].expire < t
  }

  ghost predicate Stepped(e: Event, m: Moment, scans: seq<Scan>, m': Moment) {
    && |scans| <= 1 && m'.scans == m.scans + |scans| && m'.now == Later(e, m.now)
    && (e.Insert? ==> Inserted(m, e.tm, m')) && LosesBy(e, m, m') && Sane(m) && Sane(m') && m.next <= m'.next
    && if scans == [] then
         && (forall x :: UntouchedBy(e, m.timers, x) ==> LeavesAlone(m, m', x))
         && forall x :: x < m.next && x !in m.timers ==> x !in m'.timers
       else e.Tick? && Scanned(m, scans[0], m') && scans[0].world == e.world
  }

  ghost predicate Scanned(m: Moment, s: Scan, m': Moment) {
    && ScanOk(s) && s.before == m.timers && s.strays == m.strays && s.lost == m.lost && s.first == m.next
    && s.after == m'.timers && s.next == m'.next && m'.strays == {} && NearAfter(m, s, m')
  }

  /** Timers of the first list that are still there are still in it, and so are those that were called. */
  ghost predicate NearAfter(m: Moment, s: Scan, m': Moment) {
    && (forall x :: x in m.near && x in m'.timers ==> x in m'.near)
    && forall i :: 0 <= i < |s.calls| && s.calls[i].x in m'.timers ==> s.calls[i].x in m'.near
  }

  ghost predicate LeavesAlone(m: Moment, m': Moment, x: int) {
    IsLive(m.timers, x) ==>
      && IsLive(m'.timers, x) && m'.timers[x].expire == m.timers[x].expire && (x in m'.strays ==> x in m.strays)
      && (x in m.near ==> x in m'.near)
  }

  // ----- the kinds of event

  /** Both moments are sane, no timer leaves the first list, and identities are not used again. */
  ghost predicate Onward(m: Moment, m': Moment) {
    && Sane(m) && Sane(m') && m.next <= m'.next && m.near <= m'.near && m'.scans == m.scans
  }

  lemma ScanSteps(e: Event, m: Moment, s: Scan, m': Moment)
    requires e.Tick? && Scanned(m, s, m') && s.world == e.world && Sane(m) && Sane(m') && m.next <= m'.next
    requires m'.now == e.t && m'.scans == m.scans + 1
    ensures Stepped(e, m, [s], m')
  {
    hide Scanned, Sane;
  }

  lemma IdleSteps(e: Event, m: Moment, m': Moment)
    requires e.Tick? && m' == m.(now := e.t) && Sane(m)
    ensures Stepped(e, m, [], m')
  {
  }

  lemma InsertSteps(e: Event, m: Moment, x: int, m': Moment)
    requires e.Insert? && Onward(m, m') && m'.now == m.now && x == m.next && m'.timers == m.timers[x := e.tm]
    requires m'.strays == if Wraps(e.tm.expire - m.now) then m.strays + {x} else m.strays
    requires LostBefore(m, m', e.tm.expire)
    ensures Stepped(e, m, [], m')
  {
    hide LostBefore, Wraps;
    assert x !in m.timers;
    assert Inserted(m, e.tm, m');
    forall y | IsLive(m.timers, y) ensures LeavesAlone(m, m', y) { assert y != x; }
  }

  lemma DeleteSteps(e: Event, m: Moment, m': Moment)
    requires e.Delete? && Sane(m) && m' == m.(timers := m'.timers) && m'.timers.Keys == m.timers.Keys
    requires forall y :: y in m.timers && y != e.x ==> m'.timers[y] == m.timers[y]
    ensures Stepped(e, m, [], m')
  {
  }

  lemma RetimeSteps(e: Event, m: Moment, m': Moment)
    requires e.Retime? && Sane(m) && Sane(m') && m'.now == m.now && m'.next == m.next && m'.scans == m.scans
    requires m'.timers.Keys == m.timers.Keys && m'.strays <= m.strays && LostBefore(m, m', e.e)
    requires forall y :: y in m.timers && y != e.x ==> m'.timers[y] == m.timers[y] && (y in m.near ==> y in m'.near)
    ensures Stepped(e, m, [], m')
  {
    hide LostBefore;
  }

  lemma ReloadSteps(e: Event, m: Moment, m': Moment)
    requires e.Reload? && Sane(m) && m' == m.(timers := m'.timers) && m'.timers.Keys == m.timers.Keys
    requires forall y :: y in m.timers ==>
        m'.timers[y] ==
          m.timers[y].(fn := if m.timers[y].idx in e.tcfs then e.tcfs[m.timers[y].idx] else 0)
    ensures Stepped(e, m, [], m')
  {
  }

  ghost function LastTime(log: seq<Scan>, b: int): int { if log == [] then b else log[|log| - 1].time }

  /** Every scan follows the one before it. */
  ghost predicate Chain(log: seq<Scan>, b: int) { forall k :: 0 <= k < |log| ==> log[k].prev == LastTime(log[..k], b) }

  lemma ChainStep(log: seq<Scan>, b: int, scans: seq<Scan>)
    requires Chain(log, b) && |scans| <= 1 && (|scans| == 1 ==> scans[0].prev == LastTime(log, b))
    ensures Chain(log + scans, b) && LastTime(log + scans, b) == LastTime(scans, LastTime(log, b))
  {
    var l := log + scans;
    forall k | 0 <= k < |l| ensures l[k].prev == LastTime(l[..k], b) {
      assert k < |log| ==> l[..k] == log[..k];
      assert k == |log| ==> l[..k] == log;
    }
  }

  // ----- the promise

  ghost predicate CalledBefore(log: seq<Scan>, k: nat, x: int)
    requires k <= |log|
  {
    exists j :: 0 <= j < k && IsCalled(log[j].calls, x)
  }

  /** As long as x has not been called: no scan calls it before the time e; a scan that comes at e or later and at
      most a second after the one before, or after one that already came at e or later, calls it, except that the
      first scan may pass over a stray; and otherwise x is still there. */
  ghost predicate Promise(log: seq<Scan>, m: Moment, x: int, e: int, stray: bool) {
    && (forall k :: 0 <= k < |log| && !CalledBefore(log, k, x) ==>
          && (IsCalled(log[k].calls, x) ==> e <= log[k].time)
          && ((k > 0 || !stray) && e <= log[k].time && e <= log[k].prev + 1 ==> IsCalled(log[k].calls, x)))
    && (|| CalledBefore(log, |log|, x)
        || (IsLive(m.timers, x) && m.timers[x].expire == e && (x in m.strays ==> stray && log == [])))
  }

  lemma PromiseStarts(m: Moment, x: int)
    requires IsLive(m.timers, x)
    ensures Promise([], m, x, m.timers[x].expire, x in m.strays)
  {
  }

  lemma ScanFacts(s: Scan, x: int)
    requires ScanOk(s) && x !in s.lost && !Removed(s.world, x) && IsLive(s.before, x)
    ensures x in s.before && (IsCalled(s.calls, x) ==> s.before[x].expire <= s.time)
    ensures x !in s.strays && s.before[x].expire <= s.time && s.before[x].expire <= s.prev + 1 ==> IsCalled(s.calls, x)
    ensures IsCalled(s.calls, x) || (IsLive(s.after, x) && s.after[x].expire == s.before[x].expire)
  {
  }

  lemma CalledBeforeSame(log: seq<Scan>, s: Scan, k: nat, x: int)
    requires k <= |log|
    ensures CalledBefore(log + [s], k, x) <==> CalledBefore(log, k, x)
  {
    hide IsCalled;
    var l := log + [s];
    if j :| 0 <= j < k && IsCalled(l[j].calls, x) { assert IsCalled(log[j].calls, x); }
    if j :| 0 <= j < k && IsCalled(log[j].calls, x) { assert IsCalled(l[j].calls, x); }
  }

  lemma PromiseScan(log: seq<Scan>, m: Moment, s: Scan, m': Moment, x: int, e: int, stray: bool)
    requires Promise(log, m, x, e, stray) && ScanOk(s) && x !in s.lost && !Removed(s.world, x)
    requires s.before == m.timers && s.strays == m.strays && s.after == m'.timers && m'.strays == {}
    ensures Promise(log + [s], m', x, e, stray)
  {
    hide ScanOk, IsCalled, Removed, IsLive;
    var l := log + [s];
    if IsLive(s.before, x) { ScanFacts(s, x); }
    forall k | 0 <= k <= |log|
      ensures CalledBefore(l, k, x) <==> CalledBefore(log, k, x)
    {
      CalledBeforeSame(log, s, k, x);
    }
    assert l[|log|] == s;
    if CalledBefore(log, |log|, x) {
      var j :| 0 <= j < |log| && IsCalled(log[j].calls, x);
      assert IsCalled(l[j].calls, x);
    } else if IsCalled(s.calls, x) {
      assert IsCalled(l[|log|].calls, x);
    }
  }

  lemma PromiseStep(e: Event, log: seq<Scan>, m: Moment, scans: seq<Scan>, m': Moment, x: int, ex: int, stray: bool)
    requires Promise(log, m, x, ex, stray) && Stepped(e, m, scans, m') && UntouchedBy(e, m.timers, x) && x !in m.lost
    ensures Promise(log + scans, m', x, ex, stray)
  {
    hide ScanOk, IsCalled, CalledBefore, Inserted, LosesBy, Sane, NearAfter;
    if scans == [] {
      assert LeavesAlone(m, m', x);
      assert log + scans == log;
    } else {
      PromiseScan(log, m, scans[0], m', x, ex, stray);
      assert scans == [scans[0]];
    }
  }

  // ----- what a run owes: to every timer, from every moment on

  /** From the j-th to the i-th moment no event touches x, and x is not lost. */
  ghost predicate Untouched(events: seq<Event>, trace: seq<Moment>, j: nat, i: nat, x: int)
    requires i <= |events| && i <= |trace|
  {
    forall m :: j <= m < i ==> UntouchedBy(events[m], trace[m].timers, x) && x !in trace[m].lost
  }

  /** If x is live at the j-th moment, and left alone and not lost until the i-th, its promise has been kept in the
      scans in between. */
  ghost predicate Owed(events: seq<Event>, trace: seq<Moment>, log: seq<Scan>, i: nat, j: nat, x: int)
    requires j <= i <= |events| && i < |trace| && trace[j].scans <= |log|
  {
    IsLive(trace[j].timers, x) && Untouched(events, trace, j, i, x) ==>
      Promise(log[trace[j].scans..], trace[i], x, trace[j].timers[x].expire, x in trace[j].strays)
  }

  lemma OwedStep(events: seq<Event>, trace: seq<Moment>, log: seq<Scan>, i: nat, scans: seq<Scan>, m': Moment, j: nat,
      x: int)
    requires j <= i < |events| && |trace| == i + 1 && trace[j].scans <= |log| && Owed(events, trace, log, i, j, x)
    requires Stepped(events[i], trace[i], scans, m')
    ensures Owed(events, trace + [m'], log + scans, i + 1, j, x)
  {
    hide Promise, Stepped, UntouchedBy;
    var tr, n := trace + [m'], trace[j].scans;
    if IsLive(trace[j].timers, x) && Untouched(events, tr, j, i + 1, x) {
      forall m | j <= m < i ensures UntouchedBy(events[m], trace[m].timers, x) && x !in trace[m].lost {
        assert tr[m] == trace[m] && UntouchedBy(events[m], tr[m].timers, x);
      }
      assert tr[i] == trace[i] && UntouchedBy(events[i], tr[i].timers, x);
      PromiseStep(events[i], log[n..], trace[i], scans, m', x, OldExpire(trace[j], x), x in trace[j].strays);
      assert (log + scans)[n..] == log[n..] + scans;
    }
  }

  ghost function OldExpire(m: Moment, x: int): int { if x in m.timers then m.timers[x].expire else 0 }

  lemma OwedNow(events: seq<Event>, trace: seq<Moment>, log: seq<Scan>, i: nat, x: int)
    requires i <= |events| && i < |trace| && trace[i].scans == |log|
    ensures Owed(events, trace, log, i, i, x)
  {
    assert log[|log|..] == [];
    if IsLive(trace[i].timers, x) { PromiseStarts(trace[i], x); }
  }

  // ----- timers that are called again

  ghost predicate CalledAs(s: Scan, x: int, again: bool) {
    exists i :: 0 <= i < |s.calls| && s.calls[i].x == x && ReactionOf(s.world, i).again == again
  }

  /** x waits in the first list, for a time that is not later than `time`. */
  ghost predicate Waits(m: Moment, x: int, time: int) {
    IsLive(m.timers, x) && m.timers[x].expire <= time && x in m.near && x !in m.strays
  }

  lemma WaitsOn(e: Event, m: Moment, m': Moment, x: int, time: int)
    requires Stepped(e, m, [], m') && UntouchedBy(e, m.timers, x) && Waits(m, x, time)
    ensures Waits(m', x, time)
  {
    hide Inserted, LosesBy, Sane, UntouchedBy;
    assert LeavesAlone(m, m', x);
  }

  lemma WaitingIsCalled(m: Moment, s: Scan, m': Moment, x: int)
    requires Scanned(m, s, m') && Sane(m) && !Removed(s.world, x) && Waits(m, x, s.prev)
    ensures IsCalled(s.calls, x)
  {
    hide Outcome, CallsOk, Accounted, Newer, Removed, IsCalled, NearAfter;
    assert IsDue(s, x);
  }

  /** A timer whose function has returned non-zero waits for the next scan. */
  lemma CalledAgainWaits(m: Moment, s: Scan, m': Moment, x: int)
    requires Scanned(m, s, m') && !Removed(s.world, x) && CalledAs(s, x, true)
    ensures Waits(m', x, s.time)
  {
    hide Silenced, AllBorn, CallsKnown, Accounted, Newer, Removed, IsCalled, ReactionOf;
    var i :| 0 <= i < |s.calls| && s.calls[i].x == x && ReactionOf(s.world, i).again == true;
    assert Fate(s.after, s.world, |s.calls|, s.calls[i], ReactionOf(s.world, i).again);
    NotRemoved(s.world, |s.calls|, x);
  }

  lemma NotRemoved(world: seq<Reaction>, n: nat, x: int)
    ensures RemovedIn(world, n, x) ==> Removed(world, x)
  {
  }

  ghost predicate Gone(m: Moment, x: int) { x !in m.timers && x < m.next }

  /** A timer whose function has returned zero is gone. */
  lemma CalledOffIsGone(m: Moment, s: Scan, m': Moment, x: int)
    requires Scanned(m, s, m') && CalledAs(s, x, false)
    ensures Gone(m', x)
  {
    hide Silenced, AllBorn, CallsOk, Accounted, Newer, IsCalled, NearAfter, ReactionOf;
    var i :| 0 <= i < |s.calls| && s.calls[i].x == x && ReactionOf(s.world, i).again == false;
    assert Fate(s.after, s.world, |s.calls|, s.calls[i], ReactionOf(s.world, i).again);
  }

  lemma GoneForGood(m: Moment, s: Scan, m': Moment, x: int)
    requires Scanned(m, s, m') && m.next <= m'.next && Gone(m, x)
    ensures Gone(m', x) && !IsCalled(s.calls, x)
  {
    hide Fates, Silenced, AllBorn, CallsOk, Accounted, NearAfter;
  }

  /** No event from the j-th to the i-th moment touches x. */
  ghost predicate LeftAlone(events: seq<Event>, trace: seq<Moment>, j: nat, i: nat, x: int)
    requires i <= |events| && i <= |trace|
  {
    forall m :: j <= m < i ==> UntouchedBy(events[m], trace[m].timers, x)
  }

  /** A timer that is left alone from the j-th to the i-th moment, and whose function returns non-zero in a scan in
      between, is called in the next one too, or waits for it. */
  ghost predicate Recurs(events: seq<Event>, trace: seq<Moment>, log: seq<Scan>, i: nat, j: nat, x: int)
    requires j <= i <= |events| && i < |trace| && trace[j].scans <= |log|
  {
    LeftAlone(events, trace, j, i, x) ==>
      forall k :: trace[j].scans <= k < |log| && CalledAs(log[k], x, true) ==> Follows(log, k, trace[i], x)
  }

  /** x is called in the scan after the k-th, or waits for it at the moment m. */
  ghost predicate Follows(log: seq<Scan>, k: nat, m: Moment, x: int)
    requires k < |log|
  {
    if k + 1 < |log| then IsCalled(log[k + 1].calls, x) else Waits(m, x, log[k].time)
  }

  lemma RecursStep(events: seq<Event>, trace: seq<Moment>, log: seq<Scan>, b: int, i: nat, scans: seq<Scan>,
      m': Moment, j: nat, x: int)
    requires j <= i < |events| && |trace| == i + 1 && trace[j].scans <= |log| && Recurs(events, trace, log, i, j, x)
    requires Stepped(events[i], trace[i], scans, m') && (scans != [] ==> scans[0].prev == LastTime(log, b))
    ensures Recurs(events, trace + [m'], log + scans, i + 1, j, x)
  {
    hide Stepped, UntouchedBy, CalledAs, Follows;
    var tr, l := trace + [m'], log + scans;
    if LeftAlone(events, tr, j, i + 1, x) {
      forall m | j <= m < i ensures UntouchedBy(events[m], trace[m].timers, x) {
        assert tr[m] == trace[m] && UntouchedBy(events[m], tr[m].timers, x);
      }
      assert LeftAlone(events, trace, j, i, x) && tr[j] == trace[j] && tr[i + 1] == m';
      assert tr[i] == trace[i] && UntouchedBy(events[i], tr[i].timers, x);
      forall k | trace[j].scans <= k < |l| && CalledAs(l[k], x, true)
        ensures Follows(l, k, m', x)
      {
        assert k < |log| ==> l[k] == log[k];
        RecursOne(events[i], trace[i], log, b, scans, m', k, x);
      }
    }
  }

  lemma RecursOne(e: Event, m: Moment, log: seq<Scan>, b: int, scans: seq<Scan>, m': Moment, k: nat, x: int)
    requires Stepped(e, m, scans, m') && UntouchedBy(e, m.timers, x) && k < |log + scans|
    requires scans != [] ==> scans[0].prev == LastTime(log, b)
    requires CalledAs((log + scans)[k], x, true)
    requires k < |log| ==> Follows(log, k, m, x)
    ensures Follows(log + scans, k, m', x)
  {
    hide CalledAs, Waits, IsCalled, Inserted, LosesBy, Sane, Scanned, LeavesAlone;
    var l := log + scans;
    if scans == [] {
      assert l == log;
      if k + 1 == |log| { WaitsOn(e, m, m', x, log[k].time); }
    } else {
      var s := scans[0];
      assert scans == [s];
      if k == |log| { CalledAgainWaits(m, s, m', x); }
      else if k + 1 == |log| { WaitingIsCalled(m, s, m', x); }
    }
  }

  /** A timer whose function has returned zero is never called again. */
  ghost predicate Ended(log: seq<Scan>, m: Moment, x: int) {
    forall k :: 0 <= k < |log| && CalledAs(log[k], x, false) ==>
      Gone(m, x) && forall n :: k < n < |log| ==> !IsCalled(log[n].calls, x)
  }

  lemma EndedStep(e: Event, log: seq<Scan>, m: Moment, scans: seq<Scan>, m': Moment, x: int)
    requires Ended(log, m, x) && Stepped(e, m, scans, m')
    ensures Ended(log + scans, m', x)
  {
    hide CalledAs, IsCalled, Inserted, LosesBy, Sane, Scanned, LeavesAlone, UntouchedBy;
    var l := log + scans;
    if scans == [] { assert l == log; } else {
      var s := scans[0];
      assert scans == [s];
      if Gone(m, x) { GoneForGood(m, s, m', x); }
      if CalledAs(s, x, false) { CalledOffIsGone(m, s, m', x); }
      forall k | 0 <= k < |l| && CalledAs(l[k], x, false)
        ensures Gone(m', x) && forall n :: k < n < |l| ==> !IsCalled(l[n].calls, x)
      {
        assert k < |log| ==> l[k] == log[k];
      }
    }
  }

  /** What these promises come to: a timer that is left alone is called in every scan after the k-th, in which its
      function returned non-zero, as long as it has not returned zero in between. */
  lemma {:induction false} CalledOn(events: seq<Event>, trace: seq<Moment>, log: seq<Scan>, j: nat, x: int, k: nat,
      n: nat)
    requires j <= |events| && |trace| == |events| + 1 && trace[j].scans <= k < n < |log|
    requires Recurs(events, trace, log, |events|, j, x) && LeftAlone(events, trace, j, |events|, x)
    requires CalledAs(log[k], x, true) && forall l :: k < l < n ==> !CalledAs(log[l], x, false)
    ensures IsCalled(log[n].calls, x)
    decreases n
  {
    hide CalledAs, IsCalled, Waits, LeftAlone;
    if k + 1 < n {
      CalledOn(events, trace, log, j, x, k, n - 1);
      CalledEither(log[n - 1], x);
    }
  }

  lemma CalledEither(s: Scan, x: int)
    ensures IsCalled(s.calls, x) <==> CalledAs(s, x, true) || CalledAs(s, x, false)
  {
    if IsCalled(s.calls, x) {
      var i :| 0 <= i < |s.calls| && s.calls[i].x == x;
      assert ReactionOf(s.world, i).again || !ReactionOf(s.world, i).again;
    }
  }

  /** The n-th event makes its step, with the scans it causes. */
  ghost predicate StepAt(events: seq<Event>, trace: seq<Moment>, log: seq<Scan>, n: nat)
    requires n < |events| && n + 1 < |trace|
  {
    && trace[n].scans <= trace[n + 1].scans <= |log|
    && Stepped(events[n], trace[n], log[trace[n].scans..trace[n + 1].scans], trace[n + 1])
  }

  lemma StepStays(events: seq<Event>, trace: seq<Moment>, log: seq<Scan>, n: nat, m': Moment, scans: seq<Scan>)
    requires n < |events| && n + 1 < |trace| && StepAt(events, trace, log, n)
    ensures StepAt(events, trace + [m'], log + scans, n)
  {
    hide Stepped;
    var a, b := trace[n].scans, trace[n + 1].scans;
    assert (log + scans)[a..b] == log[a..b];
  }

  lemma StepNow(events: seq<Event>, trace: seq<Moment>, log: seq<Scan>, n: nat, m': Moment, scans: seq<Scan>)
    requires n < |events| && |trace| == n + 1 && trace[n].scans == |log| && m'.scans == |log| + |scans|
    requires Stepped(events[n], trace[n], scans, m')
    ensures StepAt(events, trace + [m'], log + scans, n)
  {
    hide Stepped;
    assert (log + scans)[|log|..|log| + |scans|] == scans;
  }

  /** The run so far, from the moment `start` to the moment m. */
  ghost predicate Story(events: seq<Event>, trace: seq<Moment>, log: seq<Scan>, i: nat, b: int, start: Moment,
      m: Moment) {
    && i <= |events| && |trace| == i + 1 && trace[0] == start && trace[i] == m && m.scans == |log|
    && Chain(log, b) && (forall k :: 0 <= k < |log| ==> ScanOk(log[k]))
    && (forall n :: 0 <= n < i ==> StepAt(events, trace, log, n))
    && (forall j :: 0 <= j <= i ==> trace[j].scans <= |log|)
    && (forall j: nat, x :: j <= i ==> Owed(events, trace, log, i, j, x))
    && (forall j: nat, x :: j <= i ==> Recurs(events, trace, log, i, j, x)) && forall x :: Ended(log, m, x)
  }

  lemma StoryStarts(events: seq<Event>, start: Moment, b: int)
    requires start.scans == 0
    ensures Story(events, [start], [], 0, b, start, start)
  {
    hide Owed, Recurs;
    forall x ensures Owed(events, [start], [], 0, 0, x) && Recurs(events, [start], [], 0, 0, x) {
      OwedNow(events, [start], [], 0, x);
      RecursNow(events, [start], [], 0, x);
    }
  }

  lemma StoryStep(events: seq<Event>, trace: seq<Moment>, log: seq<Scan>, i: nat, b: int, start: Moment, m: Moment,
      scans: seq<Scan>, m': Moment)
    requires Story(events, trace, log, i, b, start, m) && i < |events| && Stepped(events[i], m, scans, m')
    requires scans != [] ==> scans[0].prev == LastTime(log, b) && ScanOk(scans[0])
    ensures Story(events, trace + [m'], log + scans, i + 1, b, start, m')
    ensures LastTime(log + scans, b) == LastTime(scans, LastTime(log, b))
  {
    hide Owed, Recurs, Ended, Chain, ScanOk, Inserted, LosesBy, LastTime, Scanned, Sane, LeavesAlone, UntouchedBy,
      StepAt;
    var tr := trace + [m'];
    ChainStep(log, b, scans);
    forall n | 0 <= n < i + 1 ensures StepAt(events, tr, log + scans, n) {
      if n < i { StepStays(events, trace, log, n, m', scans); } else { StepNow(events, trace, log, n, m', scans); }
    }
    forall j | 0 <= j <= i + 1 ensures tr[j].scans <= |log + scans| {}
    AllOwed(events, trace, log, b, i, scans, m', tr, log + scans, i + 1);
    forall x ensures Ended(log + scans, m', x) { EndedStep(events[i], log, m, scans, m', x); }
  }

  lemma AllOwed(events: seq<Event>, trace: seq<Moment>, log: seq<Scan>, b: int, i: nat, scans: seq<Scan>, m': Moment,
      trace': seq<Moment>, log': seq<Scan>, i': nat)
    requires trace' == trace + [m'] && log' == log + scans && i' == i + 1
    requires i < |events| && |trace| == i + 1 && (forall j :: 0 <= j <= i ==> trace[j].scans <= |log|)
    requires m'.scans == |log| + |scans|
    requires Stepped(events[i], trace[i], scans, m') && (scans != [] ==> scans[0].prev == LastTime(log, b))
    requires forall j: nat, x :: j <= i ==> Owed(events, trace, log, i, j, x) && Recurs(events, trace, log, i, j, x)
    ensures forall j :: 0 <= j <= i' ==> trace'[j].scans <= |log'|
    ensures forall j: nat, x :: j <= i' ==> Owed(events, trace', log', i', j, x)
    ensures forall j: nat, x :: j <= i' ==> Recurs(events, trace', log', i', j, x)
  {
    hide Stepped, Owed, Recurs, LastTime;
    forall j: nat, x | j <= i' ensures Owed(events, trace', log', i', j, x) && Recurs(events, trace', log', i', j, x) {
      if j <= i {
        OwedStep(events, trace, log, i, scans, m', j, x);
        RecursStep(events, trace, log, b, i, scans, m', j, x);
      } else {
        OwedNow(events, trace', log', i', x);
        RecursNow(events, trace', log', i', x);
      }
    }
  }

  lemma RecursNow(events: seq<Event>, trace: seq<Moment>, log: seq<Scan>, i: nat, x: int)
    requires i <= |events| && i < |trace| && trace[i].scans == |log|
    ensures Recurs(events, trace, log, i, i, x)
  {
  }

  lemma StoryEnds(events: seq<Event>, trace: seq<Moment>, log: seq<Scan>, b: int, start: Moment, m: Moment)
    requires Story(events, trace, log, |events|, b, start, m)
    ensures |trace| == |events| + 1 && trace[0] == start && trace[|events|] == m
    ensures Chain(log, b) && (forall k :: 0 <= k < |log| ==> ScanOk(log[k]))
    ensures forall n :: 0 <= n < |events| ==> StepAt(events, trace, log, n)
    ensures forall j :: 0 <= j <= |events| ==> trace[j].scans <= |log|
    ensures forall j: nat, x :: j <= |events| ==> Owed(events, trace, log, |events|, j, x)
    ensures forall j: nat, x :: j <= |events| ==> Recurs(events, trace, log, |events|, j, x)
    ensures forall x :: Ended(log, m, x)
  {
    hide Owed, Recurs, Ended, Chain, ScanOk, StepAt;
  }

  // ----- what the promise comes to

  /** Let k be the first scan at the time e or later. The timer is called in it when it comes at most a second after
      the scan before it, unless it is a stray and that scan is the first one; and in any case it is called in it or
      in the next one, and in none before. */
  lemma CalledInTime(log: seq<Scan>, b: int, m: Moment, x: int, e: int, stray: bool, k: nat)
    requires Chain(log, b) && Promise(log, m, x, e, stray) && (forall j :: 0 <= j < |log| ==> ScanOk(log[j]))
    requires k < |log| && e <= log[k].time && forall j :: 0 <= j < k ==> log[j].time < e
    ensures !CalledBefore(log, k, x)
    ensures log[k].time <= log[k].prev + 1 && (k > 0 || !stray) ==> IsCalled(log[k].calls, x)
    ensures k + 1 < |log| ==> IsCalled(log[k].calls, x) || IsCalled(log[k + 1].calls, x)
  {
    hide ScanOk, IsCalled;
    NotBefore(log, m, x, e, stray, k);
    if k + 1 < |log| && !IsCalled(log[k].calls, x) {
      assert log[..k + 1][k] == log[k] && log[k + 1].prev == log[k].time;
      assert !CalledBefore(log, k + 1, x);
      InOrder(log[k + 1]);
    }
  }

  lemma InOrder(s: Scan)
    requires ScanOk(s)
    ensures s.prev <= s.time
  {
  }

  lemma {:induction false} NotBefore(log: seq<Scan>, m: Moment, x: int, e: int, stray: bool, k: nat)
    requires Promise(log, m, x, e, stray) && k <= |log| && forall j :: 0 <= j < k ==> log[j].time < e
    ensures !CalledBefore(log, k, x)
  {
    hide IsCalled;
    if k > 0 { NotBefore(log, m, x, e, stray, k - 1); }
  }
}
