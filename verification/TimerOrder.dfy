/** The order of the timers in the lists of the wheel, and the order in which a scan calls them (timer.c). */
module TimerOrder {
  import opened TimerLists
  import opened TimerCalls

  // ----- calls

  /** x comes before y: in the first list as it was, or because it was there and y is new, or because both are new and x
      was added first. */
  ghost predicate Ahead(old0: seq<int>, n0: int, x: int, y: int) {
    || (exists i, j :: 0 <= i < j < |old0| && old0[i] == x && old0[j] == y)
    || (x in old0 && y >= n0)
    || n0 <= x < y
  }

  ghost predicate CallsInOrder(old0: seq<int>, n0: int, calls: seq<Call>) {
    forall i, j :: 0 <= i < j < |calls| ==> Ahead(old0, n0, calls[i].x, calls[j].x)
  }

  /** From the k-th timer on the list cur is in order, and all that has been called comes before. */
  ghost predicate Orderly(old0: seq<int>, n0: int, cur: seq<int>, k: nat, n: int, calls: seq<Call>) {
    && CallsInOrder(old0, n0, calls)
    && (forall c, i :: 0 <= c < |calls| && k <= i < |cur| ==> Ahead(old0, n0, calls[c].x, cur[i]))
    && (forall i, j :: k <= i < j < |cur| ==> Ahead(old0, n0, cur[i], cur[j]))
    && (forall i :: k <= i < |cur| ==> Known(old0, n0, n, cur[i]))
    && forall c :: 0 <= c < |calls| ==> Known(old0, n0, n, calls[c].x)
  }

  predicate Known(old0: seq<int>, n0: int, n: int, x: int) { x in old0 || n0 <= x < n }

  /** The list has grown at its end, by new timers in the order of their identities. */
  ghost predicate Grown(cur: seq<int>, n: int, grown: seq<int>, n': int) {
    && cur <= grown && n <= n'
    && (forall i :: |cur| <= i < |grown| ==> n <= grown[i] < n')
    && forall i, j :: |cur| <= i < j < |grown| ==> grown[i] < grown[j]
  }

  lemma GrownSelf(cur: seq<int>, n: int)
    ensures Grown(cur, n, cur, n)
  {
  }

  lemma GrownOn(cur: seq<int>, n: int, grown: seq<int>, n': int, more: seq<int>)
    requires Grown(cur, n, grown, n') && (more == grown || more == grown + [n'])
    ensures Grown(cur, n, more, n' + 1)
  {
  }

  lemma OrderStarts(old0: seq<int>, n0: int)
    ensures Orderly(old0, n0, old0, 0, n0, [])
  {
    forall i, j | 0 <= i < j < |old0| ensures Ahead(old0, n0, old0[i], old0[j]) {}
  }

  lemma AheadOfNew(old0: seq<int>, n0: int, n: int, x: int, y: int)
    requires Known(old0, n0, n, x) && n0 <= n <= y
    ensures Ahead(old0, n0, x, y)
  {
  }

  lemma GrownInOrder(old0: seq<int>, n0: int, cur: seq<int>, k: nat, n: int, calls: seq<Call>, grown: seq<int>,
      n': int)
    requires Orderly(old0, n0, cur, k, n, calls) && Grown(cur, n, grown, n') && n0 <= n
    ensures Orderly(old0, n0, grown, k, n', calls)
  {
    hide Ahead, CallsInOrder;
    forall c, i | 0 <= c < |calls| && k <= i < |grown| ensures Ahead(old0, n0, calls[c].x, grown[i]) {
      if i < |cur| { assert grown[i] == cur[i]; } else { AheadOfNew(old0, n0, n, calls[c].x, grown[i]); }
    }
    forall i, j | k <= i < j < |grown| ensures Ahead(old0, n0, grown[i], grown[j]) {
      if j < |cur| { assert grown[i] == cur[i] && grown[j] == cur[j]; }
      else if i < |cur| { assert grown[i] == cur[i]; AheadOfNew(old0, n0, n, cur[i], grown[j]); }
      else { AheadOfNew(old0, n0, grown[i] + 1, grown[i], grown[j]); }
    }
  }

  /** The k-th timer is called or not, and freed or not; the list may have grown. */
  lemma OrderOn(old0: seq<int>, n0: int, cur: seq<int>, k: nat, n: int, calls: seq<Call>, grown: seq<int>, n': int,
      cur': seq<int>, k': nat, calls': seq<Call>)
    requires Orderly(old0, n0, cur, k, n, calls) && Grown(cur, n, grown, n') && n0 <= n && k < |cur|
    requires (cur' == Without(grown, k) && k' == k) || (cur' == grown && k' == k + 1)
    requires calls' == calls || exists e :: calls' == calls + [Call(cur[k], e)]
    ensures Orderly(old0, n0, cur', k', n', calls')
  {
    hide Ahead, Grown;
    GrownInOrder(old0, n0, cur, k, n, calls, grown, n');
    assert grown[k] == cur[k] by { GrownFirst(cur, n, grown, n', k); }
    Shifted(grown, k, cur', k');
  }

  lemma GrownFirst(cur: seq<int>, n: int, grown: seq<int>, n': int, k: nat)
    requires Grown(cur, n, grown, n') && k < |cur|
    ensures k < |grown| && grown[k] == cur[k]
  {
  }

  lemma Shifted(l: seq<int>, k: nat, l': seq<int>, k': nat)
    requires k < |l| && ((l' == Without(l, k) && k' == k) || (l' == l && k' == k + 1))
    ensures forall i :: k' <= i < |l'| ==> k < i + (k + 1 - k') < |l| && l'[i] == l[i + (k + 1 - k')]
  {
  }

  // ----- scan_timer_list

  /** The timers of l that are now in list j, in the order of l. */
  function Those(l: seq<int>, home: map<int, int>, j: nat): seq<int> {
    if l == [] then []
    else
      var x := l[|l| - 1];
      Those(l[..|l| - 1], home, j) + if x in home && home[x] == j then [x] else []
  }

  /** The timers of list idx are where they now belong: at the ends of other lists, or still in list idx, and in the
      order they had. */
  ghost predicate Rearranged(v0: seq<seq<int>>, v: seq<seq<int>>, home: map<int, int>, idx: nat) {
    && |v0| == SIZE && |v| == SIZE && idx < SIZE
    && forall j :: 0 <= j < SIZE ==> v[j] == (if j == idx then [] else v0[j]) + Those(v0[idx], home, j)
  }

  /** So it is with the timers in `done`; the rest of the list is still as it was. */
  ghost predicate Rearranging(v0: seq<seq<int>>, v: seq<seq<int>>, home: map<int, int>, idx: nat, k: nat,
      done: seq<int>) {
    && |v0| == SIZE && |v| == SIZE && idx < SIZE && k <= |v[idx]|
    && v0[idx] == done + v[idx][k..] && v[idx][..k] == Those(done, home, idx)
    && forall j :: 0 <= j < SIZE && j != idx ==> v[j] == v0[j] + Those(done, home, j)
  }

  /** One round of the scan: the k-th timer x stays, or it goes to the end of another list, or it is freed. */
  ghost predicate OneMoved(v: seq<seq<int>>, home: map<int, int>, idx: nat, k: nat, v': seq<seq<int>>,
      home': map<int, int>, k': nat) {
    && |v| == SIZE && |v'| == SIZE && idx < SIZE && k < |v[idx]|
    && var x := v[idx][k];
    && (forall y :: y != x ==> (y in home' <==> y in home) && (y in home' ==> home'[y] == home[y]))
    && (if x in home' && home'[x] == idx then v'[idx] == v[idx] && k' == k + 1
        else v'[idx] == Without(v[idx], k) && k' == k)
    && forall j :: 0 <= j < SIZE && j != idx ==> v'[j] == v[j] + if x in home' && home'[x] == j then [x] else []
  }

  lemma RearrangeStarts(v: seq<seq<int>>, home: map<int, int>, idx: nat)
    requires |v| == SIZE && idx < SIZE
    ensures Rearranging(v, v, home, idx, 0, [])
  {
  }

  lemma {:induction false} ThoseSame(l: seq<int>, home: map<int, int>, home': map<int, int>, j: nat)
    requires forall y :: y in l ==> (y in home' <==> y in home) && (y in home' ==> home'[y] == home[y])
    ensures Those(l, home, j) == Those(l, home', j)
  {
    if l != [] { ThoseSame(l[..|l| - 1], home, home', j); }
  }

  lemma ThoseOn(l: seq<int>, x: int, home: map<int, int>, j: nat)
    ensures Those(l + [x], home, j) == Those(l, home, j) + if x in home && home[x] == j then [x] else []
  {
    assert (l + [x])[..|l|] == l;
  }

  lemma RearrangeOn(v0: seq<seq<int>>, v: seq<seq<int>>, home: map<int, int>, idx: nat, k: nat, done: seq<int>,
      v': seq<seq<int>>, home': map<int, int>, k': nat)
    requires Rearranging(v0, v, home, idx, k, done) && k < |v[idx]| && NoDup(v0[idx])
    requires OneMoved(v, home, idx, k, v', home', k')
    ensures Rearranging(v0, v', home', idx, k', done + [v[idx][k]])
  {
    hide Those;
    var x := v[idx][k];
    assert v0[idx][|done|] == x;
    forall y | y in done ensures y != x {
      var i :| 0 <= i < |done| && done[i] == y;
      assert v0[idx][i] == y;
    }
    forall j | 0 <= j < SIZE
      ensures Those(done + [x], home', j) == Those(done, home, j) + if x in home' && home'[x] == j then [x] else []
    {
      ThoseSame(done, home, home', j);
      ThoseOn(done, x, home', j);
    }
    assert v[idx][k..] == [x] + v[idx][k + 1..];
    assert v'[idx][k'..] == v[idx][k + 1..];
    if k' == k + 1 { assert v'[idx][..k'] == v[idx][..k] + [x]; } else { assert v'[idx][..k'] == v[idx][..k]; }
  }

  lemma RearrangeEnds(v0: seq<seq<int>>, v: seq<seq<int>>, home: map<int, int>, idx: nat, k: nat, done: seq<int>)
    requires Rearranging(v0, v, home, idx, k, done) && k == |v[idx]|
    ensures Rearranged(v0, v, home, idx)
  {
    hide Those;
    assert v[idx][k..] == [] && done == v0[idx] && v[idx][..k] == v[idx];
  }

  // ----- mod_expire_time

  /** x has gone from list i to the end of list j, which may be the same. */
  ghost predicate Relinked(v: seq<seq<int>>, v': seq<seq<int>>, i: nat, j: nat, x: int) {
    && |v| == SIZE && |v'| == SIZE && i < SIZE && j < SIZE
    && exists k :: 0 <= k < |v[i]| && v[i][k] == x && v' == Appended(v[i := Without(v[i], k)], j, x)
  }

  function Appended(v: seq<seq<int>>, j: nat, x: int): seq<seq<int>>
    requires j < |v|
  {
    v[j := v[j] + [x]]
  }
}
