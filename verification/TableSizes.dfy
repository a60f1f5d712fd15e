/** Choosing the sizes of a table's two parts (lua/ltable.c: numusearray, numusehash, computesizes; lua/lobject.c:
    luaO_log2). */
module TableSizes {
  import opened TableNodes

  const MAXBITS: nat := 26
  const MAXASIZE: nat := 0x400_0000

  function Pow2(n: nat): (r: nat)
    ensures r > 0
  {
    if n == 0 then 1 else 2 * Pow2(n - 1)
  }

  lemma Pow2Monotone(a: nat, b: nat)
    requires a <= b
    ensures Pow2(a) <= Pow2(b)
  {
    if a < b { Pow2Monotone(a, b - 1); }
  }

  lemma MaxSize()
    ensures Pow2(MAXBITS) == MAXASIZE
  {
    assert Pow2(5) == 32 && Pow2(10) == 1024 by { assert Pow2(5) == 32; }
    assert Pow2(15) == 0x8000 && Pow2(20) == 0x10_0000 by { assert Pow2(15) == 0x8000; }
    assert Pow2(25) == 0x200_0000;
  }

  // ----- luaO_log2 and ceillog2

  /** The entry for x of the 256-entry table in luaO_log2: the number of bits of x. */
  function Bits(x: nat): (b: nat)
    ensures x > 0 ==> b > 0 && Pow2(b - 1) <= x
    ensures x < Pow2(b)
  {
    if x == 0 then 0 else 1 + Bits(x / 2)
  }

  lemma TwoMoreBits(x: nat)
    requires x >= 2
    ensures Bits(x) == 2 + Bits(x / 2 / 2)
  {
  }

  lemma EightMoreBits(x: nat)
    requires x >= 256
    ensures Bits(x) == 8 + Bits(x / 256)
  {
    var b, d, f := x / 4, x / 16, x / 64;
    assert x / 2 / 2 == b && b / 2 / 2 == d && d / 2 / 2 == f && f / 2 / 2 == x / 256;
    TwoMoreBits(x);
    TwoMoreBits(b);
    TwoMoreBits(d);
    TwoMoreBits(f);
  }

  lemma BitsMean(x: nat)
    ensures Bits(0) == 0 && (x > 0 ==> Bits(x) > 0 && Pow2(Bits(x) - 1) <= x < Pow2(Bits(x)))
  {
  }

  method Log2(x0: nat) returns (r: int)
    ensures x0 == 0 ==> r == -1
    ensures x0 > 0 ==> r >= 0 && Pow2(r) <= x0 < Pow2(r + 1)
  {
    hide Bits, Pow2;
    var l, x := -1, x0;
    BitsMean(x0);
    while x >= 256
      invariant l + Bits(x) == Bits(x0) - 1
    {
      EightMoreBits(x);
      l := l + 8;
      x := x / 256;
    }
    r := l + Bits(x);
  }

  /** The interval of integers that the i-th counter counts is (Low(i), Pow2(i)]. */
  function Low(i: nat): (r: nat)
    ensures r < Pow2(i)
  {
    if i == 0 then 0 else Pow2(i - 1)
  }

  lemma SliceOrder(k: int, i: nat, j: nat)
    requires k <= Pow2(i) && Low(j) < k
    ensures j <= i
  {
    if 0 < j { if i <= j - 1 { Pow2Monotone(i, j - 1); } }
  }

  lemma SliceUnique(k: int, i: nat, j: nat)
    requires Low(i) < k <= Pow2(i) && Low(j) < k <= Pow2(j)
    ensures i == j
  {
    SliceOrder(k, i, j);
    SliceOrder(k, j, i);
  }

  method CeilLog2(x: nat) returns (r: nat)
    requires x > 0
    ensures Low(r) < x <= Pow2(r)
  {
    var l := Log2(x - 1);
    r := l + 1;
  }

  // ----- counting

  /** The number of entries of ks in (lo, hi]. */
  ghost function Cnt(ks: seq<int>, lo: int, hi: int): nat {
    if ks == [] then 0
    else Cnt(ks[..|ks| - 1], lo, hi) + if lo < ks[|ks| - 1] <= hi then 1 else 0
  }

  ghost predicate Distinct(ks: seq<int>) { forall i, j :: 0 <= i < j < |ks| ==> ks[i] != ks[j] }

  ghost predicate Within(ks: seq<int>, lo: int, hi: int) { forall i :: 0 <= i < |ks| ==> lo < ks[i] <= hi }

  lemma CntSnoc(ks: seq<int>, k: int, lo: int, hi: int)
    ensures Cnt(ks + [k], lo, hi) == Cnt(ks, lo, hi) + if lo < k <= hi then 1 else 0
  {
    assert (ks + [k])[..|ks|] == ks;
  }

  lemma {:induction false} CntSplit(ks: seq<int>, lo: int, mid: int, hi: int)
    requires lo <= mid <= hi
    ensures Cnt(ks, lo, hi) == Cnt(ks, lo, mid) + Cnt(ks, mid, hi)
  {
    if ks != [] { CntSplit(ks[..|ks| - 1], lo, mid, hi); }
  }

  lemma {:induction false} CntConcat(a: seq<int>, b: seq<int>, lo: int, hi: int)
    ensures Cnt(a + b, lo, hi) == Cnt(a, lo, hi) + Cnt(b, lo, hi)
  {
    if b == [] { assert a + b == a; } else {
      var c := b[..|b| - 1];
      CntConcat(a, c, lo, hi);
      CntSnoc(a + c, b[|b| - 1], lo, hi);
      assert a + b == a + c + [b[|b| - 1]];
    }
  }

  lemma {:induction false} CntAll(ks: seq<int>, lo: int, hi: int)
    requires Within(ks, lo, hi)
    ensures Cnt(ks, lo, hi) == |ks|
  {
    if ks != [] { CntAll(ks[..|ks| - 1], lo, hi); }
  }

  lemma {:induction false} CntNone(ks: seq<int>, lo: int, hi: int)
    requires forall i :: 0 <= i < |ks| ==> !(lo < ks[i] <= hi)
    ensures Cnt(ks, lo, hi) == 0
  {
    if ks != [] { CntNone(ks[..|ks| - 1], lo, hi); }
  }

  lemma {:induction false} CntBounded(ks: seq<int>, lo: int, hi: int)
    ensures Cnt(ks, lo, hi) <= |ks|
  {
    if ks != [] { CntBounded(ks[..|ks| - 1], lo, hi); }
  }

  /** Counting distinct numbers is taking the size of a set. */
  lemma {:induction false} CntIsCardinality(ks: seq<int>, lo: int, hi: int)
    requires Distinct(ks)
    ensures Cnt(ks, lo, hi) == |set i | i in ks && lo < i <= hi|
  {
    hide Cnt;
    if ks == [] {
      CntNone(ks, lo, hi);
      assert (set i | i in ks && lo < i <= hi) == {};
    } else {
      var c, k := ks[..|ks| - 1], ks[|ks| - 1];
      CntIsCardinality(c, lo, hi);
      CntSnoc(c, k, lo, hi);
      assert ks == c + [k];
      LastIsNew(ks);
      RangeSnoc(c, k, lo, hi);
    }
  }

  lemma LastIsNew(ks: seq<int>)
    requires ks != [] && Distinct(ks)
    ensures ks[|ks| - 1] !in ks[..|ks| - 1]
  {
  }

  lemma RangeSnoc(c: seq<int>, k: int, lo: int, hi: int)
    requires k !in c
    ensures |set i | i in c + [k] && lo < i <= hi| == |set i | i in c && lo < i <= hi| + if lo < k <= hi then 1 else 0
  {
    var a, b := (set i | i in c && lo < i <= hi), (set i | i in c + [k] && lo < i <= hi);
    if lo < k <= hi { assert b == a + {k}; } else { assert b == a; }
  }

  ghost function Interval(lo: int, hi: int): (s: set<int>)
    requires lo <= hi
    ensures |s| == hi - lo && forall i :: i in s <==> lo < i <= hi
    decreases hi - lo
  {
    if lo == hi then {} else Interval(lo, hi - 1) + {hi}
  }

  lemma CntFits(ks: seq<int>, lo: int, hi: int)
    requires Distinct(ks) && lo <= hi
    ensures Cnt(ks, lo, hi) <= hi - lo
  {
    CntIsCardinality(ks, lo, hi);
    Smaller((set i | i in ks && lo < i <= hi), Interval(lo, hi));
  }

  // ----- the counters

  /** Counter i holds how many entries of ks lie in (Low(i), Pow2(i)]. */
  ghost predicate CountersOf(nums: seq<nat>, ks: seq<int>) {
    |nums| == MAXBITS + 1 && forall i :: 0 <= i <= MAXBITS ==> nums[i] == Cnt(ks, Low(i), Pow2(i))
  }

  lemma CountOne(nums: seq<nat>, ks: seq<int>, k: int, i: nat)
    requires CountersOf(nums, ks) && i <= MAXBITS && Low(i) < k <= Pow2(i)
    ensures CountersOf(nums[i := nums[i] + 1], ks + [k])
  {
    forall j | 0 <= j <= MAXBITS ensures nums[i := nums[i] + 1][j] == Cnt(ks + [k], Low(j), Pow2(j)) {
      CntSnoc(ks, k, Low(j), Pow2(j));
      if Low(j) < k <= Pow2(j) { SliceUnique(k, i, j); }
    }
  }

  /** What a key adds to the integers counted. */
  function ArrayIndexes(k: Key): (r: seq<int>) {
    if k.Int? && 0 < k.i <= MAXASIZE then [k.i] else []
  }

  method CountInt(k: Key, nums: seq<nat>, ghost ks: seq<int>) returns (counted: nat, nums': seq<nat>)
    requires CountersOf(nums, ks)
    ensures CountersOf(nums', ks + ArrayIndexes(k)) && counted == |ArrayIndexes(k)|
  {
    if k.Int? && 0 < k.i <= MAXASIZE {
      MaxSize();
      var lg := CeilLog2(k.i);
      if lg > MAXBITS { Pow2Monotone(MAXBITS, lg - 1); }
      CountOne(nums, ks, k.i, lg);
      counted, nums' := 1, nums[lg := nums[lg] + 1];
    } else {
      assert ks + [] == ks;
      counted, nums' := 0, nums;
    }
  }

  /** The used slots among the first n of the array part, as keys. */
  ghost function UsedSlots(arr: seq<Value>, n: nat): (r: seq<int>)
    requires n <= |arr|
    ensures Within(r, 0, n) && Distinct(r)
  {
    if n == 0 then [] else UsedSlots(arr, n - 1) + if arr[n - 1].Nil? then [] else [n]
  }

  lemma CountSlot(nums: seq<nat>, arr: seq<Value>, i: nat, lg: nat, lc: nat)
    requires 0 < i <= |arr| && lg <= MAXBITS && |nums| == MAXBITS + 1 && Low(lg) < i <= Pow2(lg)
    requires CountersOf(nums[lg := nums[lg] + lc], UsedSlots(arr, i - 1))
    ensures CountersOf(nums[lg := nums[lg] + lc + if arr[i - 1].Nil? then 0 else 1], UsedSlots(arr, i))
    ensures |UsedSlots(arr, i)| == |UsedSlots(arr, i - 1)| + if arr[i - 1].Nil? then 0 else 1
  {
    var m := nums[lg := nums[lg] + lc];
    if !arr[i - 1].Nil? {
      CountOne(m, UsedSlots(arr, i - 1), i, lg);
      assert m[lg := m[lg] + 1] == nums[lg := nums[lg] + lc + 1];
    } else {
      assert UsedSlots(arr, i - 1) + [] == UsedSlots(arr, i - 1);
    }
  }

  function Min(a: nat, b: nat): nat { if a < b then a else b }

  /** numusearray, on counters that were reset: it counts exactly the used slots that lie within the first MAXASIZE. */
  method NumUseArray(arr: seq<Value>, nums0: seq<nat>) returns (ause: nat, nums: seq<nat>)
    requires CountersOf(nums0, [])
    ensures CountersOf(nums, UsedSlots(arr, Min(|arr|, MAXASIZE)))
    ensures ause == |UsedSlots(arr, Min(|arr|, MAXASIZE))|
  {
    hide CountersOf, UsedSlots, Within, Distinct, Pow2;
    Begin(arr, nums0);
    ause, nums := 0, nums0;
    var i, lg, ttlg := 1, 0, 1;
    while lg <= MAXBITS
      invariant 0 <= lg <= MAXBITS + 1 && |nums| == MAXBITS + 1 && ttlg == Pow2(lg) && i - 1 == Min(Low(lg), |arr|)
      invariant CountersOf(nums, UsedSlots(arr, i - 1)) && ause == |UsedSlots(arr, i - 1)|
      decreases MAXBITS + 1 - lg
    {
      var lc, lim := 0, ttlg;
      if lim > |arr| {
        lim := |arr|;
        if i > lim {
          Pow2Monotone(lg, MAXBITS);
          return;
        }
      }
      assert nums[lg := nums[lg] + 0] == nums;
      while i <= lim
        invariant Low(lg) < i <= lim + 1
        invariant CountersOf(nums[lg := nums[lg] + lc], UsedSlots(arr, i - 1)) && ause + lc == |UsedSlots(arr, i - 1)|
      {
        CountSlot(nums, arr, i, lg, lc);
        if !arr[i - 1].Nil? { lc := lc + 1; }
        i := i + 1;
      }
      nums := nums[lg := nums[lg] + lc];
      ause := ause + lc;
      NextPow2(lg);
      lg, ttlg := lg + 1, ttlg * 2;
    }
  }

  lemma NextPow2(i: nat)
    ensures Pow2(i + 1) == 2 * Pow2(i)
  {
  }

  lemma Begin(arr: seq<Value>, nums: seq<nat>)
    requires CountersOf(nums, [])
    ensures |nums| == MAXBITS + 1 && UsedSlots(arr, 0) == [] && Pow2(0) == 1 && Pow2(MAXBITS) == MAXASIZE
  {
    MaxSize();
  }

  /** No slot beyond MAXASIZE is in use. */
  ghost predicate NoneBeyond(arr: seq<Value>) { forall i :: MAXASIZE <= i < |arr| ==> arr[i].Nil? }

  /** The array part is counted in full exactly when no slot beyond MAXASIZE is in use. */
  lemma CountedInFull(arr: seq<Value>)
    ensures UsedSlots(arr, Min(|arr|, MAXASIZE)) == UsedSlots(arr, |arr|) <==> NoneBeyond(arr)
  {
    if |arr| > MAXASIZE { UsedSlotsPrefix(arr, MAXASIZE, |arr|); }
  }

  lemma {:induction false} UsedSlotsPrefix(arr: seq<Value>, m: nat, n: nat)
    requires m <= n <= |arr|
    ensures |UsedSlots(arr, m)| <= |UsedSlots(arr, n)|
    ensures |UsedSlots(arr, m)| == |UsedSlots(arr, n)| <==> forall i :: m <= i < n ==> arr[i].Nil?
    ensures UsedSlots(arr, m) == UsedSlots(arr, n) <==> forall i :: m <= i < n ==> arr[i].Nil?
  {
    hide Within, Distinct;
    if m < n {
      UsedSlotsPrefix(arr, m, n - 1);
      if arr[n - 1].Nil? {
        assert UsedSlots(arr, n) == UsedSlots(arr, n - 1);
        assert (forall i :: m <= i < n ==> arr[i].Nil?) <==> (forall i :: m <= i < n - 1 ==> arr[i].Nil?);
      } else {
        assert |UsedSlots(arr, n)| == |UsedSlots(arr, n - 1)| + 1;
      }
    }
  }

  // ----- numusehash

  /** The array indexes among the keys with values of the nodes from i on, last node first. */
  ghost function NodeInts(nd: seq<Node>, i: nat): (r: seq<int>)
    requires i <= |nd|
    decreases |nd| - i
  {
    if i == |nd| then []
    else NodeInts(nd, i + 1) + if nd[i].val.Nil? || nd[i].key.Free? then [] else ArrayIndexes(nd[i].key.k)
  }

  /** How many of the nodes from i on have values. */
  ghost function Valued(nd: seq<Node>, i: nat): nat
    requires i <= |nd|
    decreases |nd| - i
  {
    if i == |nd| then 0 else Valued(nd, i + 1) + if nd[i].val.Nil? then 0 else 1
  }

  method NumUseHash(nd: seq<Node>, nums0: seq<nat>, ghost ks: seq<int>) returns (totaluse: nat, ause: nat,
      nums: seq<nat>)
    requires CountersOf(nums0, ks) && forall x :: 0 <= x < |nd| && !nd[x].val.Nil? ==> nd[x].key.Live?
    ensures CountersOf(nums, ks + NodeInts(nd, 0)) && ause == |NodeInts(nd, 0)| && totaluse == Valued(nd, 0)
  {
    totaluse, ause, nums := 0, 0, nums0;
    var i := |nd|;
    assert ks + [] == ks;
    while i > 0
      invariant 0 <= i <= |nd|
      invariant CountersOf(nums, ks + NodeInts(nd, i)) && ause == |NodeInts(nd, i)| && totaluse == Valued(nd, i)
    {
      i := i - 1;
      if !nd[i].val.Nil? {
        var c;
        c, nums := CountInt(nd[i].key.k, nums, ks + NodeInts(nd, i + 1));
        assert ks + NodeInts(nd, i + 1) + ArrayIndexes(nd[i].key.k) == ks + NodeInts(nd, i);
        ause := ause + c;
        totaluse := totaluse + 1;
      } else {
        assert NodeInts(nd, i) == NodeInts(nd, i + 1);
      }
    }
  }

  // ----- computesizes

  /** More than half of the slots 1..n would be used. */
  ghost predicate MoreThanHalf(ks: seq<int>, n: nat) { Cnt(ks, 0, n) > n / 2 }

  /** n is the largest power of two with more than half of 1..n in ks; 0 when there is none. */
  ghost predicate Optimal(ks: seq<int>, n: nat) {
    && (n == 0 || exists i: nat :: n == Pow2(i) && MoreThanHalf(ks, Pow2(i)))
    && forall i: nat :: MoreThanHalf(ks, Pow2(i)) ==> Pow2(i) <= n
  }

  /** n is the best of the first i powers. */
  ghost predicate OptimalSoFar(ks: seq<int>, n: nat, i: nat) {
    && (n == 0 || exists j: nat :: j < i && n == Pow2(j) && MoreThanHalf(ks, Pow2(j)))
    && forall j: nat :: j < i && MoreThanHalf(ks, Pow2(j)) ==> Pow2(j) <= n
  }

  lemma NextPower(ks: seq<int>, n: nat, i: nat, n': nat)
    requires OptimalSoFar(ks, n, i) && n' == if MoreThanHalf(ks, Pow2(i)) then Pow2(i) else n
    ensures OptimalSoFar(ks, n', i + 1)
  {
    hide Pow2, MoreThanHalf;
    forall j: nat | j <= i ensures Pow2(j) <= Pow2(i) { Pow2Monotone(j, i); }
    forall j: nat | j < i + 1 && MoreThanHalf(ks, Pow2(j)) ensures Pow2(j) <= n' {}
    if MoreThanHalf(ks, Pow2(i)) {
      assert i < i + 1 && n' == Pow2(i);
    } else if n != 0 {
      var j: nat :| j < i && n == Pow2(j) && MoreThanHalf(ks, Pow2(j));
      assert j < i + 1 && n' == Pow2(j);
    }
  }

  /** An empty interval of keys cannot take the count past half. */
  lemma EmptySlice(ks: seq<int>, i: nat)
    requires Distinct(ks) && Cnt(ks, Low(i), Pow2(i)) == 0
    ensures !MoreThanHalf(ks, Pow2(i))
  {
    CntSplit(ks, 0, Low(i), Pow2(i));
    CntFits(ks, 0, Low(i));
  }

  /** From the i-th power on nothing qualifies: half of it is already too much, or all keys lie below. */
  lemma NoLaterPower(ks: seq<int>, n: nat, i: nat)
    requires Distinct(ks) && OptimalSoFar(ks, n, i)
    requires Pow2(i) / 2 >= |ks| || (i > 0 && Cnt(ks, 0, Pow2(i - 1)) == |ks|)
    ensures Optimal(ks, n)
  {
    forall j: nat | j >= i ensures !MoreThanHalf(ks, Pow2(j)) {
      Pow2Monotone(i, j);
      CntBounded(ks, 0, Pow2(j));
      if i > 0 {
        Pow2Monotone(i - 1, j - 1);
        CntFits(ks, 0, Pow2(i - 1));
      }
    }
  }

  /** computesizes: the best size for the array part, and how many of the keys will then live there. */
  method ComputeSizes(nums: seq<nat>, narray: nat, ghost ks: seq<int>) returns (n: nat, na: nat)
    requires CountersOf(nums, ks) && narray == |ks| && Distinct(ks) && Within(ks, 0, MAXASIZE)
    ensures Optimal(ks, n) && na == Cnt(ks, 0, n) && n <= MAXASIZE
  {
    hide Cnt, Pow2, CountersOf, Distinct, Within, Optimal, OptimalSoFar;
    CntAll(ks, 0, MAXASIZE);
    CntFits(ks, 0, MAXASIZE);
    var i, twotoi, a := 0, 1, 0;
    n, na := 0, 0;
    CntZero(ks);
    NoPowerYet(ks);
    while twotoi / 2 < narray
      invariant twotoi == Pow2(i) && a == Cnt(ks, 0, Low(i)) && na == Cnt(ks, 0, n) && OptimalSoFar(ks, n, i)
      invariant n <= MAXASIZE
      decreases |ks| - twotoi / 2
    {
      InBounds(i, narray);
      CntSplit(ks, 0, Low(i), Pow2(i));
      CounterAt(nums, ks, i);
      NextPow2(i);
      if nums[i] > 0 {
        a := a + nums[i];
        NextPower(ks, n, i, if a > twotoi / 2 then twotoi else n);
        if a > twotoi / 2 { n, na := twotoi, a; }
      } else {
        EmptySlice(ks, i);
        NextPower(ks, n, i, n);
      }
      if a == narray {
        NoLaterPower(ks, n, i + 1);
        return;
      }
      i, twotoi := i + 1, twotoi * 2;
    }
    NoLaterPower(ks, n, i);
  }

  lemma NoPowerYet(ks: seq<int>)
    ensures OptimalSoFar(ks, 0, 0) && Pow2(0) == 1
  {
  }

  lemma CounterAt(nums: seq<nat>, ks: seq<int>, i: nat)
    requires CountersOf(nums, ks) && i <= MAXBITS
    ensures i < |nums| && nums[i] == Cnt(ks, Low(i), Pow2(i))
  {
  }

  lemma CntZero(ks: seq<int>)
    ensures Cnt(ks, 0, 0) == 0
  {
    CntNone(ks, 0, 0);
  }

  lemma BigPower(i: nat)
    requires i > MAXBITS
    ensures Pow2(i) / 2 >= Pow2(MAXBITS)
  {
    hide Pow2;
    Pow2Monotone(MAXBITS, i - 1);
    NextPow2(i - 1);
  }

  /** computesizes never reads past the counters. */
  lemma InBounds(i: nat, narray: nat)
    requires Pow2(i) / 2 < narray <= MAXASIZE
    ensures i <= MAXBITS && Pow2(i) <= MAXASIZE
  {
    MaxSize();
    if i > MAXBITS { BigPower(i); } else { Pow2Monotone(i, MAXBITS); }
  }
}
