/** The timer wheel (timer.c, timer.h): its lists as values, and what moving a timer between them keeps. */
module TimerLists {

  const SIZE: nat := 5

  /** fn == 0 is a timer without a function: it has been removed and waits to be freed. */
  datatype Timer = Timer(expire: int, fn: int, idx: int)

  /** vec[i].expire, which is 1 << (i + 2). */
  function Width(i: nat): (w: int)
    requires i < SIZE
    ensures w >= 4
  {
    if i == 0 then 4 else 2 * Width(i - 1)
  }

  lemma WidthGrows(i: nat, j: nat)
    requires i <= j < SIZE
    ensures Width(i) <= Width(j)
  {
    if i < j { WidthGrows(i, j - 1); }
  }

  /** The value a C int takes when it is assigned d. */
  function Trunc32(d: int): int {
    var m := d % 0x1_0000_0000;
    if m < 0x8000_0000 then m else m - 0x1_0000_0000
  }

  /** The difference that add_timer keeps in an int looks distant, and the true one is not. */
  predicate Wraps(d: int) { d <= Width(0) && Trunc32(d) > Width(0) }

  /** A timer with expiry 0 that add_timer takes for a distant one. As a minimum, 0 stands for none: its list is
      left without a recorded minimum until the next scan. */
  predicate Blanks(e: int, now: int) { e == 0 && Wraps(-now) }

  /** The first list that is wide enough for a timer d seconds away. */
  ghost predicate Placed(d: int, i: nat) {
    i < SIZE && (i > 0 ==> d > Width(i - 1)) && (i < SIZE - 1 ==> d <= Width(i))
  }

  /** add_timer puts a timer into a list other than the first without cause exactly when the difference wraps. */
  lemma PlacedRight(d: int, i: nat)
    requires Placed(Trunc32(d), i)
    ensures (i > 0 ==> d > Width(0)) <==> !Wraps(d)
  {
    if i > 0 { WidthGrows(0, i - 1); }
  }

  /** A difference wraps only when the timer expired more than 2^31 seconds ago, and then it wraps exactly when its
      low 32 bits stand for a number between 5 and 2^31 - 1. */
  lemma WrapsWhen(d: int)
    ensures Wraps(d) <==> d < -0x8000_0000 && 4 < d % 0x1_0000_0000 < 0x8000_0000
  {
    assert Width(0) == 4;
  }

  ghost predicate NoDup(s: seq<int>) { forall a, b :: 0 <= a < b < |s| ==> s[a] != s[b] }

  /** Every timer is in one list, once. */
  ghost predicate Lists(vec: seq<seq<int>>, timers: map<int, Timer>, home: map<int, int>) {
    && |vec| == SIZE && home.Keys == timers.Keys
    && (forall x :: x in timers ==> 0 <= home[x] < SIZE && x in vec[home[x]])
    && (forall i, x :: 0 <= i < SIZE && x in vec[i] ==> x in timers && home[x] == i)
    && (forall i :: 0 <= i < SIZE ==> NoDup(vec[i]))
  }

  predicate IsLive(timers: map<int, Timer>, x: int) { x in timers && timers[x].fn != 0 }

  /** The next scan looks at the list l before its timers are due: its recorded minimum is near, or not later than
      any of them; and all but the strays expire at b + 2 or later. This is not said of lost timers. */
  ghost predicate TimelyAt(l: seq<int>, timers: map<int, Timer>, min: int, b: int, strays: set<int>, lost: set<int>) {
    forall x :: x in l ==>
      && x in timers
      && (x in lost || ((min <= b + 1 || min <= timers[x].expire) && (x in strays || timers[x].expire >= b + 2)))
  }

  /** All lists but the first hold, apart from strays and lost timers, only timers that are not due before the next
      scan but one. */
  ghost predicate Timely(vec: seq<seq<int>>, timers: map<int, Timer>, mins: seq<int>, b: int, strays: set<int>,
      lost: set<int>) {
    |vec| == SIZE && |mins| == SIZE && forall i :: 1 <= i < SIZE ==> TimelyAt(vec[i], timers, mins[i], b, strays, lost)
  }

  /** No timer of the first list is lost. */
  ghost predicate LostFar(home: map<int, int>, lost: set<int>) { forall x :: x in lost && x in home ==> home[x] != 0 }

  /** No list but the first holds timers without having a recorded minimum. */
  ghost predicate MinsKnown(vec: seq<seq<int>>, mins: seq<int>) {
    |vec| == SIZE && |mins| == SIZE && forall i :: 1 <= i < SIZE && vec[i] != [] ==> mins[i] != 0
  }

  /** set_min_exptm. */
  function NewMin(min: int, e: int): int { if e < min || min == 0 then e else min }

  /** The timers of list l that are lost when a timer with expiry e joins it: the list has no recorded minimum, and
      it gets e, which is neither near nor as early as theirs. */
  ghost function Overlaid(l: seq<int>, timers: map<int, Timer>, min: int, e: int, b: int): set<int> {
    if min == 0 && e > b + 1 then set x | x in l && x in timers && timers[x].expire < e else {}
  }

  /** The timers that are lost when a timer with expiry e joins list i; the first list needs no minimum. */
  ghost function LostBy(vec: seq<seq<int>>, timers: map<int, Timer>, mins: seq<int>, i: nat, e: int, b: int): set<int> {
    if 1 <= i < |vec| && i < |mins| then Overlaid(vec[i], timers, mins[i], e, b) else {}
  }

  /** Exactly these get a recorded minimum later than they are due. */
  lemma OverlaidAre(l: seq<int>, timers: map<int, Timer>, min: int, e: int, b: int, strays: set<int>, lost: set<int>,
      x: int)
    requires TimelyAt(l, timers, min, b, strays, lost) && x in l && x !in lost
    ensures x in timers
    ensures x in Overlaid(l, timers, min, e, b) <==> NewMin(min, e) > b + 1 && NewMin(min, e) > timers[x].expire
  {
  }

  lemma NoneOverlaid(vec: seq<seq<int>>, timers: map<int, Timer>, mins: seq<int>, i: nat, e: int, b: int)
    requires MinsKnown(vec, mins)
    ensures LostBy(vec, timers, mins, i, e, b) == {}
  {
  }

  /** Only timers of list i, which is not the first one, are lost when a timer joins it. */
  lemma LostAreFar(vec: seq<seq<int>>, timers: map<int, Timer>, home: map<int, int>, mins: seq<int>, i: nat, e: int,
      b: int)
    requires Lists(vec, timers, home)
    ensures forall y :: y in LostBy(vec, timers, mins, i, e, b) ==> y in home && home[y] == i && i > 0
  {
    hide NoDup;
    forall y | y in LostBy(vec, timers, mins, i, e, b) ensures y in home && home[y] == i && i > 0 {
      assert y in vec[i];
    }
  }

  lemma Append(vec: seq<seq<int>>, timers: map<int, Timer>, home: map<int, int>, i: nat, x: int, t: Timer)
    requires Lists(vec, timers, home) && i < SIZE && x !in timers
    ensures Lists(vec[i := vec[i] + [x]], timers[x := t], home[x := i])
  {
    hide NoDup;
    var v, ts, h := vec[i := vec[i] + [x]], timers[x := t], home[x := i];
    assert forall j :: 0 <= j < SIZE ==> x !in vec[j];
    NoDupSnoc(vec[i], x);
    assert forall j :: 0 <= j < SIZE && j != i ==> v[j] == vec[j];
    forall y | y in ts ensures 0 <= h[y] < SIZE && y in v[h[y]] { if y != x { assert y in vec[home[y]]; } }
  }

  lemma NoDupSnoc(l: seq<int>, x: int)
    requires NoDup(l) && x !in l
    ensures NoDup(l + [x]) && forall y :: y in l + [x] <==> y in l || y == x
  {
  }

  function Without(l: seq<int>, k: nat): (r: seq<int>)
    requires k < |l|
  {
    l[..k] + l[k + 1..]
  }

  lemma WithoutHas(l: seq<int>, k: nat)
    requires k < |l| && NoDup(l)
    ensures NoDup(Without(l, k)) && forall y :: y in Without(l, k) <==> y in l && y != l[k]
  {
    var r := Without(l, k);
    forall y ensures y in r <==> y in l && y != l[k] {
      if y in l && y != l[k] {
        var a :| 0 <= a < |l| && l[a] == y;
        assert r[if a < k then a else a - 1] == y;
      }
      if y in r {
        var a :| 0 <= a < |r| && r[a] == y;
        assert l[if a < k then a else a + 1] == y;
      }
    }
  }

  /** do_remove_timer with freeing: the timer leaves its list. */
  lemma Drop(vec: seq<seq<int>>, timers: map<int, Timer>, home: map<int, int>, i: nat, k: nat)
    requires Lists(vec, timers, home) && i < SIZE && k < |vec[i]|
    ensures var x := vec[i][k]; Lists(vec[i := Without(vec[i], k)], timers - {x}, home - {x})
  {
    hide NoDup;
    var x := vec[i][k];
    assert x in vec[i];
    WithoutHas(vec[i], k);
    var v, h := vec[i := Without(vec[i], k)], home - {x};
    forall y | y in timers - {x} ensures 0 <= h[y] < SIZE && y in v[h[y]] { assert y in vec[home[y]]; }
    forall j, y | 0 <= j < SIZE && y in v[j] ensures y in timers - {x} && h[y] == j {
      assert y in vec[j] && home[y] == j && home[x] == i;
    }
  }

  lemma Listing(vec: seq<seq<int>>, timers: map<int, Timer>, home: map<int, int>, i: nat, k: nat)
    requires Lists(vec, timers, home) && i < SIZE && k < |vec[i]|
    ensures vec[i][k] in timers && vec[i][k] in home && home.Keys == timers.Keys
  {
    hide NoDup;
    var x := vec[i][k];
    assert x in vec[i];
  }

  /** Moving the k-th timer of list i to the end of list j. */
  lemma Move(vec: seq<seq<int>>, timers: map<int, Timer>, home: map<int, int>, i: nat, k: nat, j: nat)
    requires Lists(vec, timers, home) && i < SIZE && k < |vec[i]| && j < SIZE && j != i
    ensures var x := vec[i][k]; Lists(vec[i := Without(vec[i], k)][j := vec[j] + [x]], timers, home[x := j])
  {
    hide Lists;
    ListedAreTimers(vec, timers, home);
    Listing(vec, timers, home, i, k);
    var x := vec[i][k];
    Drop(vec, timers, home, i, k);
    var v, ts, h := vec[i := Without(vec[i], k)], timers - {x}, home - {x};
    Append(v, ts, h, j, x, timers[x]);
    assert ts[x := timers[x]] == timers && h[x := j] == home[x := j];
  }

  /** A timer joins a list. */
  lemma Joins(l: seq<int>, timers: map<int, Timer>, min: int, b: int, strays: set<int>, lost: set<int>, x: int)
    requires TimelyAt(l, timers, min, b, strays, lost) && x in timers && (x in strays || timers[x].expire >= b + 2)
    ensures
      TimelyAt(l + [x], timers, NewMin(min, timers[x].expire), b, strays,
        lost + Overlaid(l, timers, min, timers[x].expire, b))
  {
    var e := timers[x].expire;
    forall y | y in l && y !in lost && y !in Overlaid(l, timers, min, e, b)
      ensures NewMin(min, e) <= b + 1 || NewMin(min, e) <= timers[y].expire
    {
      OverlaidAre(l, timers, min, e, b, strays, lost, y);
    }
  }

  // ----- what the functions called during a scan may do: add timers and remove timers

  ghost predicate Evolves(vec: seq<seq<int>>, timers: map<int, Timer>, vec': seq<seq<int>>, timers': map<int, Timer>) {
    && |vec| == |vec'| && (forall i :: 0 <= i < |vec| ==> vec[i] <= vec'[i])
    && forall x ::
         x in timers ==>
           && x in timers' && timers'[x].expire == timers[x].expire
           && (timers'[x].fn == timers[x].fn || timers'[x].fn == 0)
  }

  lemma EvolvesOn(v: seq<seq<int>>, t: map<int, Timer>, v': seq<seq<int>>, t': map<int, Timer>, v'': seq<seq<int>>,
      t'': map<int, Timer>)
    requires Evolves(v, t, v', t') && Evolves(v', t', v'', t'')
    ensures Evolves(v, t, v'', t'')
  {
  }

  // ----- adding and removing keep the wheel timely

  lemma AddEvolves(vec: seq<seq<int>>, timers: map<int, Timer>, i: nat, x: int, t: Timer)
    requires |vec| == SIZE && i < SIZE && x !in timers
    ensures Evolves(vec, timers, vec[i := vec[i] + [x]], timers[x := t])
  {
  }

  lemma AddKeeps(vec: seq<seq<int>>, timers: map<int, Timer>, mins: seq<int>, b: int, strays: set<int>,
      lost: set<int>, i: nat, x: int, t: Timer)
    requires Timely(vec, timers, mins, b, strays - {x}, lost) && i < SIZE && x !in timers
    requires i > 0 ==> x in strays || t.expire >= b + 2
    ensures
      Timely(vec[i := vec[i] + [x]], timers[x := t], mins[i := NewMin(mins[i], t.expire)], b, strays,
        lost + LostBy(vec, timers, mins, i, t.expire, b))
  {
    var ts, more := timers[x := t], lost + LostBy(vec, timers, mins, i, t.expire, b);
    forall j | 1 <= j < SIZE
      ensures TimelyAt(vec[j], ts, mins[j], b, strays, lost) && TimelyAt(vec[j], ts, mins[j], b, strays, more)
    {
      assert TimelyAt(vec[j], timers, mins[j], b, strays - {x}, lost);
    }
    if i > 0 {
      Joins(vec[i], ts, mins[i], b, strays, lost, x);
      assert TimelyAt(vec[i], timers, mins[i], b, strays - {x}, lost);
      assert Overlaid(vec[i], ts, mins[i], t.expire, b) == Overlaid(vec[i], timers, mins[i], t.expire, b);
    }
  }

  /** A timer that does not blank a minimum leaves all minima known. */
  lemma AddKnown(vec: seq<seq<int>>, mins: seq<int>, i: nat, x: int, e: int)
    requires MinsKnown(vec, mins) && i < SIZE && (i > 0 ==> e != 0)
    ensures MinsKnown(vec[i := vec[i] + [x]], mins[i := NewMin(mins[i], e)])
  {
  }

  /** Changing functions moves nothing. */
  lemma SameLists(vec: seq<seq<int>>, timers: map<int, Timer>, home: map<int, int>, timers': map<int, Timer>)
    requires Lists(vec, timers, home) && timers'.Keys == timers.Keys
    ensures Lists(vec, timers', home)
  {
    hide NoDup;
  }

  lemma SameExpiry(vec: seq<seq<int>>, timers: map<int, Timer>, mins: seq<int>, b: int, strays: set<int>,
      lost: set<int>, timers': map<int, Timer>)
    requires Timely(vec, timers, mins, b, strays, lost)
    requires timers'.Keys == timers.Keys && forall x :: x in timers ==> timers'[x].expire == timers[x].expire
    ensures Timely(vec, timers', mins, b, strays, lost)
  {
    forall j | 1 <= j < SIZE ensures TimelyAt(vec[j], timers', mins[j], b, strays, lost) {
      assert TimelyAt(vec[j], timers, mins[j], b, strays, lost);
    }
  }

  lemma ListedAreTimers(vec: seq<seq<int>>, timers: map<int, Timer>, home: map<int, int>)
    requires Lists(vec, timers, home)
    ensures |vec| == SIZE && forall j, y :: 0 <= j < SIZE && y in vec[j] ==> y in timers
  {
  }

  /** Freeing the k-th timer of list i. */
  lemma DropKeeps(vec: seq<seq<int>>, timers: map<int, Timer>, home: map<int, int>, mins: seq<int>, b: int,
      strays: set<int>, lost: set<int>, i: nat, k: nat)
    requires Lists(vec, timers, home) && Timely(vec, timers, mins, b, strays, lost) && i < SIZE && k < |vec[i]|
    ensures var x := vec[i][k]; Timely(vec[i := Without(vec[i], k)], timers - {x}, mins, b, strays - {x}, lost - {x})
  {
    hide NoDup;
    var x := vec[i][k];
    var v, ts := vec[i := Without(vec[i], k)], timers - {x};
    OthersStay(vec, timers, home, i, k);
    forall j | 1 <= j < SIZE ensures TimelyAt(v[j], ts, mins[j], b, strays - {x}, lost - {x}) {
      assert TimelyAt(vec[j], timers, mins[j], b, strays, lost);
      forall y | y in v[j]
        ensures y in ts
        ensures
          || y in lost - {x}
          || ((mins[j] <= b + 1 || mins[j] <= ts[y].expire) && (y in strays - {x} || ts[y].expire >= b + 2))
      {
        assert y in vec[j] && y != x;
      }
    }
  }

  lemma OthersStay(vec: seq<seq<int>>, timers: map<int, Timer>, home: map<int, int>, i: nat, k: nat)
    requires Lists(vec, timers, home) && i < SIZE && k < |vec[i]|
    ensures forall j, y :: 0 <= j < SIZE && y in vec[i := Without(vec[i], k)][j] ==> y in vec[j] && y != vec[i][k]
  {
    hide NoDup;
    var x, v := vec[i][k], vec[i := Without(vec[i], k)];
    assert x in vec[i];
    WithoutHas(vec[i], k);
    forall j, y | 0 <= j < SIZE && y in v[j] ensures y in vec[j] && y != x {
      if j != i { assert y in vec[j] && home[y] == j && home[x] == i; }
    }
  }

  /** Re-timing the k-th timer of list i, which goes to the end of list j. */
  lemma RetimeLists(vec: seq<seq<int>>, timers: map<int, Timer>, home: map<int, int>, i: nat, k: nat, j: nat, t: Timer)
    requires Lists(vec, timers, home) && i < SIZE && k < |vec[i]| && j < SIZE
    ensures
      var x := vec[i][k];
      var v := vec[i := Without(vec[i], k)]; Lists(v[j := v[j] + [x]], timers[x := t], home[x := j])
  {
    hide Lists;
    ListedAreTimers(vec, timers, home);
    var x := vec[i][k];
    Drop(vec, timers, home, i, k);
    var v, ts, h := vec[i := Without(vec[i], k)], timers - {x}, home - {x};
    Append(v, ts, h, j, x, t);
    assert ts[x := t] == timers[x := t] && h[x := j] == home[x := j];
  }

  lemma RetimeKeeps(vec: seq<seq<int>>, timers: map<int, Timer>, home: map<int, int>, mins: seq<int>, b: int,
      strays: set<int>, lost: set<int>, i: nat, k: nat, j: nat, t: Timer)
    requires Lists(vec, timers, home) && |mins| == SIZE && Timely(vec, timers, mins, b, strays, lost) && i < SIZE
    requires k < |vec[i]| && j < SIZE
    requires j > 0 ==> t.expire >= b + 2
    ensures var x := vec[i][k]; var v := vec[i := Without(vec[i], k)];
      Timely(v[j := v[j] + [x]], timers[x := t], mins[j := NewMin(mins[j], t.expire)], b, strays - {x},
        lost - {x} + LostBy(v, timers - {x}, mins, j, t.expire, b))
  {
    hide Lists, Timely;
    ListedAreTimers(vec, timers, home);
    var x := vec[i][k];
    DropKeeps(vec, timers, home, mins, b, strays, lost, i, k);
    var v, ts := vec[i := Without(vec[i], k)], timers - {x};
    assert strays - {x} - {x} == strays - {x};
    AddKeeps(v, ts, mins, b, strays - {x}, lost - {x}, j, x, t);
    assert ts[x := t] == timers[x := t];
  }

  lemma DropKnown(vec: seq<seq<int>>, mins: seq<int>, i: nat, k: nat)
    requires MinsKnown(vec, mins) && i < SIZE && k < |vec[i]|
    ensures MinsKnown(vec[i := Without(vec[i], k)], mins)
  {
  }

  // ----- scan_timer_list: lists below idx are done for the time `now`, without strays and with a minimum,
  // ----- the others only for the time of the last scan

  ghost predicate Done(l: seq<int>, timers: map<int, Timer>, min: int, now: int, lost: set<int>) {
    TimelyAt(l, timers, min, now, {}, lost) && (l != [] ==> min != 0)
  }

  ghost predicate PartlyTimely(vec: seq<seq<int>>, timers: map<int, Timer>, mins: seq<int>, idx: nat, b: int,
      now: int, strays: set<int>, lost: set<int>) {
    && |vec| == SIZE && |mins| == SIZE
    && (forall i :: 1 <= i < SIZE && i < idx ==> Done(vec[i], timers, mins[i], now, lost))
    && (forall i :: 1 <= i < SIZE && idx <= i ==> TimelyAt(vec[i], timers, mins[i], b, strays, lost))
  }

  /** While list idx is scanned: its first k timers stay, and they are timely with the new minimum. */
  ghost predicate Scanning(vec: seq<seq<int>>, timers: map<int, Timer>, mins: seq<int>, idx: nat, b: int, now: int,
      strays: set<int>, lost: set<int>, k: nat, min: int) {
    && |vec| == SIZE && |mins| == SIZE && 1 <= idx < SIZE && k <= |vec[idx]|
    && (forall i :: 1 <= i < SIZE && i < idx ==> Done(vec[i], timers, mins[i], now, lost))
    && (forall i :: 1 <= i < SIZE && idx < i ==> TimelyAt(vec[i], timers, mins[i], b, strays, lost))
    && Done(vec[idx][..k], timers, min, now, lost)
  }

  lemma JoinsDone(l: seq<int>, timers: map<int, Timer>, min: int, now: int, lost: set<int>, x: int)
    requires Done(l, timers, min, now, lost) && x in timers && timers[x].expire > now + 4 && now >= 0
    ensures Done(l + [x], timers, NewMin(min, timers[x].expire), now, lost)
  {
    Joins(l, timers, min, now, {}, lost, x);
    assert Overlaid(l, timers, min, timers[x].expire, now) == {};
    assert lost + {} == lost;
  }

  /** A timer that stays in list idx. */
  lemma Stays(vec: seq<seq<int>>, timers: map<int, Timer>, mins: seq<int>, idx: nat, b: int, now: int,
      strays: set<int>, lost: set<int>, k: nat, min: int, min': int)
    requires Scanning(vec, timers, mins, idx, b, now, strays, lost, k, min) && k < |vec[idx]| && vec[idx][k] in timers
    requires now >= 0
    requires timers[vec[idx][k]].expire > now + 4 && min' == NewMin(min, timers[vec[idx][k]].expire)
    ensures Scanning(vec, timers, mins, idx, b, now, strays, lost, k + 1, min')
  {
    JoinsDone(vec[idx][..k], timers, min, now, lost, vec[idx][k]);
    assert vec[idx][..k + 1] == vec[idx][..k] + [vec[idx][k]];
  }

  /** A timer that goes to list j. */
  lemma Goes(vec: seq<seq<int>>, timers: map<int, Timer>, mins: seq<int>, idx: nat, b: int, now: int,
      strays: set<int>, lost: set<int>, k: nat, min: int, j: nat)
    requires Scanning(vec, timers, mins, idx, b, now, strays, lost, k, min) && k < |vec[idx]| && vec[idx][k] in timers
    requires now >= 0 && j < idx
    requires j > 0 ==> timers[vec[idx][k]].expire > now + 4
    ensures var x := vec[idx][k];
      Scanning(vec[idx := Without(vec[idx], k)][j := vec[j] + [x]], timers,
        mins[j := NewMin(mins[j], timers[x].expire)], idx, b, now, strays, lost, k, min)
  {
    var x := vec[idx][k];
    if j > 0 { JoinsDone(vec[j], timers, mins[j], now, lost, x); }
    assert Without(vec[idx], k)[..k] == vec[idx][..k];
  }

  lemma PrefixApart(vec: seq<seq<int>>, timers: map<int, Timer>, home: map<int, int>, i: nat, k: nat)
    requires Lists(vec, timers, home) && i < SIZE && k < |vec[i]|
    ensures vec[i][k] !in vec[i][..k]
  {
    var l := vec[i];
    assert NoDup(l);
  }

  /** A timer that has no function any more. */
  lemma Freed(vec: seq<seq<int>>, timers: map<int, Timer>, home: map<int, int>, mins: seq<int>, idx: nat, b: int,
      now: int, strays: set<int>, lost: set<int>, k: nat, min: int)
    requires Lists(vec, timers, home) && Scanning(vec, timers, mins, idx, b, now, strays, lost, k, min)
    requires k < |vec[idx]|
    ensures Scanning(vec[idx := Without(vec[idx], k)], timers - {vec[idx][k]}, mins, idx, b, now, strays, lost, k, min)
  {
    hide Lists;
    var x, v, ts := vec[idx][k], vec[idx := Without(vec[idx], k)], timers - {vec[idx][k]};
    OthersStay(vec, timers, home, idx, k);
    assert v[idx][..k] == vec[idx][..k];
    forall i | 1 <= i < SIZE && i < idx
      ensures Done(v[i], ts, mins[i], now, lost)
    {
      assert Done(vec[i], timers, mins[i], now, lost);
    }
    forall i | 1 <= i < SIZE && idx < i
      ensures TimelyAt(v[i], ts, mins[i], b, strays, lost)
    {
      assert TimelyAt(vec[i], timers, mins[i], b, strays, lost);
    }
    PrefixApart(vec, timers, home, idx, k);
  }

  lemma ScanDone(vec: seq<seq<int>>, timers: map<int, Timer>, mins: seq<int>, idx: nat, b: int, now: int,
      strays: set<int>, lost: set<int>, k: nat, min: int)
    requires Scanning(vec, timers, mins, idx, b, now, strays, lost, k, min) && k == |vec[idx]|
    ensures PartlyTimely(vec, timers, mins[idx := min], idx + 1, b, now, strays, lost)
  {
    assert vec[idx][..|vec[idx]|] == vec[idx];
  }

  /** A list whose minimum is not near needs no scan, and holds no stray. */
  lemma NoScanNeeded(vec: seq<seq<int>>, timers: map<int, Timer>, mins: seq<int>, idx: nat, b: int, now: int,
      strays: set<int>, lost: set<int>)
    requires PartlyTimely(vec, timers, mins, idx, b, now, strays, lost) && 1 <= idx < SIZE && mins[idx] - now >= 2
    requires 0 <= b <= now
    ensures PartlyTimely(vec, timers, mins, idx + 1, b, now, strays, lost)
  {
  }

  lemma PartAndWhole(vec: seq<seq<int>>, timers: map<int, Timer>, mins: seq<int>, b: int, now: int, strays: set<int>,
      lost: set<int>)
    ensures Timely(vec, timers, mins, b, strays, lost) <==> PartlyTimely(vec, timers, mins, 1, b, now, strays, lost)
    ensures PartlyTimely(vec, timers, mins, SIZE, b, now, strays, lost) <==>
        Timely(vec, timers, mins, now, {}, lost) && MinsKnown(vec, mins)
  {
  }

  /** The timers of the list to be scanned are found again. */
  lemma ScanBegins(vec: seq<seq<int>>, timers: map<int, Timer>, home: map<int, int>, mins: seq<int>, idx: nat, b: int,
      now: int, strays: set<int>, lost: set<int>, lost': set<int>)
    requires Lists(vec, timers, home) && PartlyTimely(vec, timers, mins, idx, b, now, strays, lost) && 1 <= idx < SIZE
    requires lost' == lost - set x | x in vec[idx]
    ensures Scanning(vec, timers, mins, idx, b, now, strays, lost', 0, 0)
  {
    hide NoDup;
    assert vec[idx][..0] == [];
    forall i, y | 1 <= i < SIZE && i != idx && y in vec[i] ensures y !in vec[idx] { assert home[y] == i; }
    forall i | 1 <= i < SIZE && i < idx
      ensures Done(vec[i], timers, mins[i], now, lost')
    {
      assert Done(vec[i], timers, mins[i], now, lost);
    }
    forall i | 1 <= i < SIZE && idx < i
      ensures TimelyAt(vec[i], timers, mins[i], b, strays, lost')
    {
      assert TimelyAt(vec[i], timers, mins[i], b, strays, lost);
    }
  }
}
