/**
 threads/barrier.c: merging the ranges that the threads have sorted, for any number of
 ranges of any length. The inner loop looks for a number below LONG_MAX; once only that
 value is left it finds none, and the merge goes on with the range it took from last.
 */
module Merge {

  const LONG_MAX: int := 0x7FFF_FFFF_FFFF_FFFF

  predicate Sorted(s: seq<int>) {
    forall i, j :: 0 <= i < j < |s| ==> s[i] <= s[j]
  }

  /** Where range i starts. */
  function Start(i: nat, tnum: nat): nat {
    if i == 0 then 0 else Start(i - 1, tnum) + tnum
  }

  lemma {:induction false} StartIs(i: nat, tnum: nat)
    ensures Start(i, tnum) == i * tnum
  {
    if i > 0 {
      StartIs(i - 1, tnum);
    }
  }

  lemma StartNext(i: nat, tnum: nat)
    ensures Start(i + 1, tnum) == Start(i, tnum) + tnum
  {
  }

  lemma {:induction false} StartWithin(i: nat, n: nat, tnum: nat)
    requires i <= n
    ensures Start(i, tnum) <= Start(n, tnum)
  {
    if i < n {
      StartWithin(i, n - 1, tnum);
    }
  }

  /** Each range has its own index into it. */
  ghost predicate Inside(idx: seq<nat>, tnum: nat) {
    forall i {:trigger idx[i]} :: 0 <= i < |idx| ==> Start(i, tnum) <= idx[i] <= Start(i + 1, tnum)
  }

  /** What is still to be merged. */
  ghost function Rest(nums: seq<int>, idx: seq<nat>, tnum: nat): multiset<int>
    requires Inside(idx, tnum) && Start(|idx|, tnum) <= |nums|
  {
    if idx == [] then multiset{}
    else
      var n := |idx| - 1;
      StartNext(n, tnum);
      Rest(nums, idx[..n], tnum) + multiset(nums[idx[n]..Start(n + 1, tnum)])
  }

  lemma {:induction false} RestAll(nums: seq<int>, idx: seq<nat>, tnum: nat)
    requires Inside(idx, tnum) && Start(|idx|, tnum) <= |nums|
    requires forall i {:trigger idx[i]} :: 0 <= i < |idx| ==> idx[i] == Start(i, tnum)
    ensures Rest(nums, idx, tnum) == multiset(nums[..Start(|idx|, tnum)])
  {
    if idx != [] {
      var n := |idx| - 1;
      StartNext(n, tnum);
      RestAll(nums, idx[..n], tnum);
      assert nums[..Start(n + 1, tnum)] == nums[..Start(n, tnum)] + nums[idx[n]..Start(n + 1, tnum)];
    }
  }

  lemma RestStep(nums: seq<int>, idx: seq<nat>, tnum: nat)
    requires Inside(idx, tnum) && Start(|idx|, tnum) <= |nums| && idx != []
    ensures var n := |idx| - 1;
      && Inside(idx[..n], tnum) && Start(n, tnum) <= idx[n] <= Start(n + 1, tnum) <= |nums|
      && Rest(nums, idx, tnum) == Rest(nums, idx[..n], tnum) + multiset(nums[idx[n]..Start(n + 1, tnum)])
  {
  }

  lemma {:induction false} RestTake(nums: seq<int>, idx: seq<nat>, tnum: nat, m: nat)
    requires Inside(idx, tnum) && Start(|idx|, tnum) <= |nums|
    requires m < |idx| && idx[m] < Start(m + 1, tnum)
    ensures Inside(idx[m := idx[m] + 1], tnum) && idx[m] < |nums|
    ensures Rest(nums, idx, tnum) == Rest(nums, idx[m := idx[m] + 1], tnum) + multiset{nums[idx[m]]}
  {
    hide Start, Rest;
    var n := |idx| - 1;
    StartWithin(m + 1, |idx|, tnum);
    var next := idx[m := idx[m] + 1];
    assert Inside(next, tnum);
    RestStep(nums, idx, tnum);
    RestStep(nums, next, tnum);
    hide Inside;
    if m < n {
      RestTake(nums, idx[..n], tnum, m);
      assert next[..n] == idx[..n][m := idx[m] + 1];
      Swapped(Rest(nums, next[..n], tnum), multiset(nums[idx[n]..Start(n + 1, tnum)]), multiset{nums[idx[m]]});
    } else {
      assert next[..n] == idx[..n];
      TakeFront(nums, idx[n], Start(n + 1, tnum));
      Swapped(Rest(nums, idx[..n], tnum), multiset(nums[next[n]..Start(n + 1, tnum)]), multiset{nums[idx[m]]});
    }
  }

  lemma TakeFront(nums: seq<int>, from: nat, to: nat)
    requires from < to <= |nums|
    ensures multiset(nums[from..to]) == multiset(nums[from + 1..to]) + multiset{nums[from]}
  {
    assert nums[from..to] == [nums[from]] + nums[from + 1..to];
  }

  lemma Swapped(a: multiset<int>, b: multiset<int>, c: multiset<int>)
    ensures (a + c) + b == (a + b) + c == a + (c + b)
  {
  }

  lemma {:induction false} RestEmpty(nums: seq<int>, idx: seq<nat>, tnum: nat)
    requires Inside(idx, tnum) && Start(|idx|, tnum) <= |nums|
    requires forall i {:trigger idx[i]} :: 0 <= i < |idx| ==> idx[i] == Start(i + 1, tnum)
    ensures Rest(nums, idx, tnum) == multiset{}
  {
    if idx != [] {
      StartNext(|idx| - 1, tnum);
      RestEmpty(nums, idx[..|idx| - 1], tnum);
    }
  }

  ghost predicate RangeSorted(nums: seq<int>, i: nat, tnum: nat) {
    forall j, k :: Start(i, tnum) <= j < k < Start(i + 1, tnum) && k < |nums| ==> nums[j] <= nums[k]
  }

  /** Nums is ranges of tnum numbers of type long, each in order. */
  ghost predicate Ranges(nums: seq<int>, nthr: nat, tnum: nat) {
    && |nums| == Start(nthr, tnum)
    && (forall i :: 0 <= i < |nums| ==> nums[i] <= LONG_MAX)
    && (forall i :: 0 <= i < nthr ==> RangeSorted(nums, i, tnum))
  }

  // ---------- Which inputs are merged ----------

  function Maxima(nums: seq<int>): nat {
    multiset(nums)[LONG_MAX]
  }

  /** The last place of the largest number below LONG_MAX. */
  ghost predicate LastOfLargest(nums: seq<int>, p: nat) {
    && p < |nums| && nums[p] < LONG_MAX
    && forall i :: 0 <= i < |nums| && nums[i] < LONG_MAX ==> nums[i] <= nums[p] && (nums[i] == nums[p] ==> i <= p)
  }

  /** There are as many numbers behind that place as there are values LONG_MAX. */
  ghost predicate Reads(nums: seq<int>) {
    LONG_MAX in nums ==> exists p: nat :: LastOfLargest(nums, p) && p + Maxima(nums) < |nums|
  }

  /** All values LONG_MAX stand directly behind the last of the largest other numbers. */
  ghost predicate MaximaBehind(nums: seq<int>) {
    LONG_MAX in nums ==> exists p: nat ::
      LastOfLargest(nums, p) && p + Maxima(nums) < |nums| && AllMax(nums[p + 1..p + 1 + Maxima(nums)])
  }

  ghost predicate AllMax(s: seq<int>) {
    forall i :: 0 <= i < |s| ==> s[i] == LONG_MAX
  }

  lemma OneLast(nums: seq<int>, p: nat, q: nat)
    requires LastOfLargest(nums, p) && LastOfLargest(nums, q)
    ensures p == q
  {
  }

  lemma {:induction false} CountMax(s: seq<int>)
    ensures multiset(s)[LONG_MAX] <= |s|
    ensures multiset(s)[LONG_MAX] == |s| <==> AllMax(s)
  {
    if s != [] {
      var n := |s| - 1;
      CountMax(s[..n]);
      assert s == s[..n] + [s[n]];
      assert AllMax(s) <==> AllMax(s[..n]) && s[n] == LONG_MAX;
    }
  }

  // ---------- Half-way through ----------

  /** What was merged is in order and below LONG_MAX, and nothing to come is smaller. */
  ghost predicate Ahead(done: seq<int>, nums: seq<int>, idx: seq<nat>, tnum: nat)
    requires Start(|idx|, tnum) <= |nums|
  {
    && Sorted(done) && (forall k :: 0 <= k < |done| ==> done[k] < LONG_MAX)
    && forall k, i, j: nat {:trigger done[k], idx[i], nums[j]} ::
         0 <= k < |done| && 0 <= i < |idx| && idx[i] <= j < Start(i + 1, tnum) && j < |nums| ==>
         done[k] <= nums[j]
  }

  /** The number at q is taken: it lies in range j, in front of its index. */
  ghost predicate IsTaken(idx: seq<nat>, tnum: nat, j: nat, q: nat)
    requires j < |idx|
  {
    Start(j, tnum) <= q < idx[j]
  }

  /** The number at q is still to come in range i. */
  ghost predicate ToCome(idx: seq<nat>, tnum: nat, i: nat, q: nat)
    requires i < |idx|
  {
    idx[i] <= q < Start(i + 1, tnum)
  }

  /** Of equal numbers those of lower ranges are taken first; what is taken is among what is done. */
  ghost predicate Stable(done: seq<int>, nums: seq<int>, idx: seq<nat>, tnum: nat) {
    && (forall i, j, q: nat, r: nat {:trigger IsTaken(idx, tnum, j, q), ToCome(idx, tnum, i, r)} ::
          0 <= i < j < |idx| && IsTaken(idx, tnum, j, q) && ToCome(idx, tnum, i, r) && q < |nums| && r < |nums| ==>
          nums[q] < nums[r])
    && (forall j, q: nat {:trigger IsTaken(idx, tnum, j, q)} ::
          0 <= j < |idx| && IsTaken(idx, tnum, j, q) && q < |nums| ==> nums[q] in done)
  }

  /** What is done and what is left make up the numbers. */
  ghost predicate Merging(nums: seq<int>, done: seq<int>, idx: seq<nat>, nthr: nat, tnum: nat) {
    && Ranges(nums, nthr, tnum) && |idx| == nthr && Inside(idx, tnum)
    && multiset(nums) == multiset(done) + Rest(nums, idx, tnum)
    && Ahead(done, nums, idx, tnum) && Stable(done, nums, idx, tnum)
  }

  /** The last number done came from range m, and what was taken is not larger, and smaller in higher ranges. */
  ghost predicate LastFrom(nums: seq<int>, done: seq<int>, idx: seq<nat>, tnum: nat, m: nat) {
    && m < |idx| && Start(m, tnum) < idx[m] <= |nums| && done != [] && done[|done| - 1] == nums[idx[m] - 1]
    && forall j, q: nat {:trigger IsTaken(idx, tnum, j, q)} ::
         0 <= j < |idx| && IsTaken(idx, tnum, j, q) && q < |nums| ==>
         nums[q] <= nums[idx[m] - 1] && (j > m ==> nums[q] < nums[idx[m] - 1])
  }

  /** Before the first number the index of a range is not set. */
  ghost predicate LastTaken(nums: seq<int>, done: seq<int>, idx: seq<nat>, tnum: nat, m: nat) {
    if done == [] then m >= |idx| else LastFrom(nums, done, idx, tnum, m)
  }

  /** The first range whose next number is the smallest of all, and below LONG_MAX. */
  ghost predicate Smallest(nums: seq<int>, idx: seq<nat>, tnum: nat, m: nat) {
    && m < |idx| && idx[m] < Start(m + 1, tnum) && idx[m] < |nums| && nums[idx[m]] < LONG_MAX
    && forall i {:trigger idx[i]} :: 0 <= i < |idx| && idx[i] < Start(i + 1, tnum) && idx[i] < |nums| ==>
         nums[idx[m]] <= nums[idx[i]] && (i < m ==> nums[idx[m]] < nums[idx[i]])
  }

  /** No range has a next number below LONG_MAX. */
  ghost predicate NoneSmall(nums: seq<int>, idx: seq<nat>, tnum: nat) {
    forall i {:trigger idx[i]} :: 0 <= i < |idx| && idx[i] < Start(i + 1, tnum) && idx[i] < |nums| ==> nums[idx[i]] >= LONG_MAX
  }

  lemma AtStarts(nums: seq<int>, idx: seq<nat>, nthr: nat, tnum: nat)
    requires Ranges(nums, nthr, tnum) && |idx| == nthr
    requires forall i {:trigger idx[i]} :: 0 <= i < nthr ==> idx[i] == Start(i, tnum)
    ensures Merging(nums, [], idx, nthr, tnum)
  {
    hide Start, Rest;
    forall k | 0 <= k < nthr
      ensures Start(k, tnum) <= Start(k + 1, tnum)
    {
      StartNext(k, tnum);
    }
    RestAll(nums, idx, tnum);
    assert nums == nums[..Start(nthr, tnum)];
  }

  lemma MergeOne(nums: seq<int>, done: seq<int>, idx: seq<nat>, nthr: nat, tnum: nat, m: nat)
    requires Merging(nums, done, idx, nthr, tnum) && Smallest(nums, idx, tnum, m)
    ensures var done', idx' := done + [nums[idx[m]]], idx[m := idx[m] + 1];
      Merging(nums, done', idx', nthr, tnum) && LastTaken(nums, done', idx', tnum, m)
  {
    hide Start, Rest, Ahead, Smallest, Inside, Stable, LastFrom;
    SmallestIs(nums, idx, tnum, m);
    RestTake(nums, idx, tnum, m);
    StaysAhead(done, nums, idx, tnum, nthr, m);
    StaysStable(done, nums, idx, tnum, nthr, m);
    BecomesLast(done, nums, idx, tnum, nthr, m);
  }

  lemma SmallestIs(nums: seq<int>, idx: seq<nat>, tnum: nat, m: nat)
    requires Smallest(nums, idx, tnum, m)
    ensures m < |idx| && idx[m] < Start(m + 1, tnum) && idx[m] < |nums|
  {
  }

  /** The smallest head of all ranges may be next. */
  lemma StaysAhead(done: seq<int>, nums: seq<int>, idx: seq<nat>, tnum: nat, nthr: nat, m: nat)
    requires |idx| == nthr && Ranges(nums, nthr, tnum) && Inside(idx, tnum) && Ahead(done, nums, idx, tnum)
    requires Smallest(nums, idx, tnum, m)
    ensures Ahead(done + [nums[idx[m]]], nums, idx[m := idx[m] + 1], tnum)
  {
    hide Start;
    var next, idx' := done + [nums[idx[m]]], idx[m := idx[m] + 1];
    forall k, i, j: nat | 0 <= k < |next| && 0 <= i < nthr && idx'[i] <= j < Start(i + 1, tnum) && j < |nums|
      ensures next[k] <= nums[j]
    {
      assert RangeSorted(nums, i, tnum);
      assert Start(i, tnum) <= idx[i] <= j;
      assert nums[idx[m]] <= nums[idx[i]] <= nums[j];
    }
  }

  /** What is to come in a lower range is larger than the number taken. */
  lemma LowerIsLarger(nums: seq<int>, idx: seq<nat>, tnum: nat, nthr: nat, m: nat, i: nat, r: nat)
    requires |idx| == nthr && Ranges(nums, nthr, tnum) && Inside(idx, tnum) && Smallest(nums, idx, tnum, m)
    requires i < m && ToCome(idx, tnum, i, r) && r < |nums|
    ensures nums[idx[m]] < nums[r]
  {
    hide Start;
    assert RangeSorted(nums, i, tnum);
    assert Start(i, tnum) <= idx[i] <= r;
    assert nums[idx[m]] < nums[idx[i]] <= nums[r];
  }

  lemma StaysStable(done: seq<int>, nums: seq<int>, idx: seq<nat>, tnum: nat, nthr: nat, m: nat)
    requires |idx| == nthr && Ranges(nums, nthr, tnum) && Inside(idx, tnum) && Stable(done, nums, idx, tnum)
    requires Smallest(nums, idx, tnum, m)
    ensures Stable(done + [nums[idx[m]]], nums, idx[m := idx[m] + 1], tnum)
  {
    hide Start, Smallest, Ranges, Inside;
    SmallestIs(nums, idx, tnum, m);
    var idx' := idx[m := idx[m] + 1];
    forall i, j, q: nat, r: nat |
      0 <= i < j < nthr && IsTaken(idx', tnum, j, q) && ToCome(idx', tnum, i, r) && q < |nums| && r < |nums|
      ensures nums[q] < nums[r]
    {
      assert ToCome(idx, tnum, i, r);
      if IsTaken(idx, tnum, j, q) {
      } else {
        assert j == m && q == idx[m];
        LowerIsLarger(nums, idx, tnum, nthr, m, i, r);
      }
    }
    forall j, q: nat | 0 <= j < nthr && IsTaken(idx', tnum, j, q) && q < |nums|
      ensures nums[q] in done + [nums[idx[m]]]
    {
      assert IsTaken(idx, tnum, j, q) || q == idx[m];
    }
  }

  lemma BecomesLast(done: seq<int>, nums: seq<int>, idx: seq<nat>, tnum: nat, nthr: nat, m: nat)
    requires |idx| == nthr && Ranges(nums, nthr, tnum) && Inside(idx, tnum)
    requires Ahead(done, nums, idx, tnum) && Stable(done, nums, idx, tnum) && Smallest(nums, idx, tnum, m)
    ensures LastFrom(nums, done + [nums[idx[m]]], idx[m := idx[m] + 1], tnum, m)
  {
    hide Start, Ranges, Smallest;
    SmallestIs(nums, idx, tnum, m);
    var idx' := idx[m := idx[m] + 1];
    assert Start(m, tnum) <= idx[m];
    assert ToCome(idx, tnum, m, idx[m]);
    forall j, q: nat | 0 <= j < nthr && IsTaken(idx', tnum, j, q) && q < |nums|
      ensures nums[q] <= nums[idx[m]] && (j > m ==> nums[q] < nums[idx[m]])
    {
      if q != idx[m] || j != m {
        assert IsTaken(idx, tnum, j, q);
        var k :| 0 <= k < |done| && done[k] == nums[q];
        assert done[k] <= nums[idx[m]];
      }
    }
  }

  // ---------- Only LONG_MAX is left ----------

  lemma {:induction false} RangeOf(nums: seq<int>, nthr: nat, tnum: nat, q: nat) returns (i: nat)
    requires q < Start(nthr, tnum)
    ensures i < nthr && Start(i, tnum) <= q < Start(i + 1, tnum)
  {
    if q >= Start(nthr - 1, tnum) {
      i := nthr - 1;
    } else {
      i := RangeOf(nums, nthr - 1, tnum, q);
    }
  }

  lemma LeftIsMax(nums: seq<int>, idx: seq<nat>, nthr: nat, tnum: nat, i: nat, r: nat)
    requires Ranges(nums, nthr, tnum) && |idx| == nthr && Inside(idx, tnum) && NoneSmall(nums, idx, tnum)
    requires i < nthr && ToCome(idx, tnum, i, r) && r < |nums|
    ensures nums[r] == LONG_MAX
  {
    hide Start;
    assert RangeSorted(nums, i, tnum);
    assert Start(i, tnum) <= idx[i] <= r;
    assert nums[idx[i]] <= nums[r];
  }

  lemma {:induction false} RestIsMax(nums: seq<int>, idx: seq<nat>, tnum: nat)
    requires Inside(idx, tnum) && Start(|idx|, tnum) <= |nums|
    requires forall i, r: nat {:trigger ToCome(idx, tnum, i, r)} ::
      0 <= i < |idx| && ToCome(idx, tnum, i, r) && r < |nums| ==> nums[r] == LONG_MAX
    ensures Rest(nums, idx, tnum)[LONG_MAX] == |Rest(nums, idx, tnum)|
  {
    hide Start, Rest;
    if idx == [] {
      RestNone(nums, tnum);
    } else {
      var n := |idx| - 1;
      RestStep(nums, idx, tnum);
      forall i, r: nat | 0 <= i < n && ToCome(idx[..n], tnum, i, r) && r < |nums|
        ensures nums[r] == LONG_MAX
      {
        assert ToCome(idx, tnum, i, r);
      }
      RestIsMax(nums, idx[..n], tnum);
      var tail := nums[idx[n]..Start(n + 1, tnum)];
      forall k | 0 <= k < |tail|
        ensures tail[k] == LONG_MAX
      {
        assert ToCome(idx, tnum, n, idx[n] + k);
      }
      CountMax(tail);
    }
  }

  lemma RestNone(nums: seq<int>, tnum: nat)
    ensures Rest(nums, [], tnum) == multiset{}
  {
  }

  /** When only LONG_MAX is left, all the others are done. */
  lemma OthersDone(nums: seq<int>, done: seq<int>, idx: seq<nat>, nthr: nat, tnum: nat)
    requires Merging(nums, done, idx, nthr, tnum) && NoneSmall(nums, idx, tnum)
    ensures |done| + Maxima(nums) == |nums| && multiset(done)[LONG_MAX] == 0
    ensures multiset(nums) == multiset(done) + Rest(nums, idx, tnum)
    ensures Rest(nums, idx, tnum)[LONG_MAX] == |Rest(nums, idx, tnum)| == Maxima(nums)
  {
    hide Start, Rest, Ahead, Stable, NoneSmall;
    forall i, r: nat | 0 <= i < nthr && ToCome(idx, tnum, i, r) && r < |nums|
      ensures nums[r] == LONG_MAX
    {
      LeftIsMax(nums, idx, nthr, tnum, i, r);
    }
    RestIsMax(nums, idx, tnum);
    DoneBelow(done, nums, idx, tnum);
    assert |multiset(nums)| == |multiset(done)| + |Rest(nums, idx, tnum)|;
  }

  lemma DoneBelow(done: seq<int>, nums: seq<int>, idx: seq<nat>, tnum: nat)
    requires Start(|idx|, tnum) <= |nums| && Ahead(done, nums, idx, tnum)
    ensures LONG_MAX !in done && multiset(done)[LONG_MAX] == 0
  {
    hide Start;
  }

  /** The number taken last is then the last of the largest. */
  lemma TurningPoint(nums: seq<int>, done: seq<int>, idx: seq<nat>, nthr: nat, tnum: nat, m: nat)
    requires Merging(nums, done, idx, nthr, tnum) && NoneSmall(nums, idx, tnum) && LastFrom(nums, done, idx, tnum, m)
    ensures LastOfLargest(nums, idx[m] - 1)
  {
    hide Start, Rest, Stable;
    var p := idx[m] - 1;
    assert Inside(idx, tnum) && Start(m, tnum) <= p;
    forall x | 0 <= x < |nums| && nums[x] < LONG_MAX
      ensures nums[x] <= nums[p] && (nums[x] == nums[p] ==> x <= p)
    {
      var i := RangeOf(nums, nthr, tnum, x);
      if idx[i] <= x {
        assert ToCome(idx, tnum, i, x);
        LeftIsMax(nums, idx, nthr, tnum, i, x);
      } else {
        assert IsTaken(idx, tnum, i, x);
        if i < m {
          StartWithin(i + 1, m, tnum);
        }
      }
    }
  }

  // ---------- The code ----------

  /** The inner loop; minidx keeps its old value when no number below LONG_MAX is found. */
  method FindSmallest(nums: array<int>, idx: array<nat>, tnum: nat, last: nat) returns (minidx: nat)
    requires nums.Length == Start(idx.Length, tnum)
    ensures if NoneSmall(nums[..], idx[..], tnum) then minidx == last else Smallest(nums[..], idx[..], tnum, minidx)
  {
    hide Start;
    var nthr := idx.Length;
    var num := LONG_MAX;
    minidx := last;
    ghost var found := false;
    var i := 0;
    while i < nthr
      invariant 0 <= i <= nthr
      invariant !found ==> minidx == last && num == LONG_MAX
      invariant found ==> minidx < i && idx[minidx] < Start(minidx + 1, tnum) && idx[minidx] < nums.Length
      invariant found ==> num == nums[idx[minidx]] < LONG_MAX
      invariant forall k {:trigger idx[k]} :: 0 <= k < i && idx[k] < Start(k + 1, tnum) && idx[k] < nums.Length ==>
        num <= nums[idx[k]] && (found && k < minidx ==> num < nums[idx[k]])
    {
      StartWithin(i + 1, nthr, tnum);
      StartIs(i + 1, tnum);
      if idx[i] < (i + 1) * tnum && nums[idx[i]] < num {
        num := nums[idx[i]];
        minidx := i;
        found := true;
      }
      i := i + 1;
    }
    assert found ==> idx[..][minidx] < Start(minidx + 1, tnum);
    assert found ==> !NoneSmall(nums[..], idx[..], tnum) by {
      if found {
        assert idx[..][minidx] < nums.Length;
      }
    }
  }

  /** What the loop knows: numbers below LONG_MAX are being merged, or it reads on behind place p. */
  ghost predicate Going(nums: seq<int>, done: seq<int>, idx: seq<nat>, nthr: nat, tnum: nat, m: nat, on: bool, p: nat, small: seq<int>) {
    if !on then Merging(nums, done, idx, nthr, tnum) && LastTaken(nums, done, idx, tnum, m)
    else ReadingOn(nums, done, idx, nthr, tnum, m, p, small)
  }

  /** The numbers below LONG_MAX are done, and the numbers behind the last of the largest follow as they stand. */
  ghost predicate ReadingOn(nums: seq<int>, done: seq<int>, idx: seq<nat>, nthr: nat, tnum: nat, m: nat, p: nat, small: seq<int>) {
    && |idx| == nthr && m < nthr && Start(m, tnum) <= idx[m] && LastOfLargest(nums, p) && LONG_MAX in nums
    && Others(nums, small) && |small| <= |done| && p < idx[m] <= |nums| && idx[m] - (p + 1) == |done| - |small|
    && done == small + nums[p + 1..idx[m]]
    && NoneSmall(nums, idx, tnum)
  }

  /** These are the numbers below LONG_MAX, in order. */
  ghost predicate Others(nums: seq<int>, small: seq<int>) {
    && Sorted(small) && (forall k :: 0 <= k < |small| ==> small[k] < LONG_MAX)
    && |small| + Maxima(nums) == |nums|
    && forall x :: x != LONG_MAX ==> multiset(nums)[x] == multiset(small)[x]
  }

  lemma OthersAre(nums: seq<int>, done: seq<int>, idx: seq<nat>, nthr: nat, tnum: nat)
    requires Merging(nums, done, idx, nthr, tnum) && NoneSmall(nums, idx, tnum)
    ensures Others(nums, done)
  {
    hide Start, Rest, Stable, NoneSmall;
    OthersDone(nums, done, idx, nthr, tnum);
    OnlyMax(Rest(nums, idx, tnum));
  }

  lemma OnlyMax(m: multiset<int>)
    requires m[LONG_MAX] == |m|
    ensures forall x :: x != LONG_MAX ==> m[x] == 0
  {
    assert m == m[LONG_MAX := 0] + multiset{}[LONG_MAX := m[LONG_MAX]];
    assert |m[LONG_MAX := 0]| == 0;
  }

  /** Nothing below LONG_MAX is left: from here on the merge reads on. */
  lemma Turns(nums: seq<int>, done: seq<int>, idx: seq<nat>, nthr: nat, tnum: nat, m: nat)
    requires Merging(nums, done, idx, nthr, tnum) && LastTaken(nums, done, idx, tnum, m) && NoneSmall(nums, idx, tnum)
    requires |done| < |nums|
    ensures LONG_MAX in nums
    ensures done == [] ==> m >= |idx| && forall i :: 0 <= i < |nums| ==> nums[i] == LONG_MAX
    ensures done != [] ==> m < nthr && idx[m] > 0 && ReadingOn(nums, done, idx, nthr, tnum, m, idx[m] - 1, done)
  {
    hide Start, Rest, Stable, NoneSmall, Ahead;
    OthersDone(nums, done, idx, nthr, tnum);
    OthersAre(nums, done, idx, nthr, tnum);
    if done == [] {
      CountMax(nums);
    } else {
      TurningPoint(nums, done, idx, nthr, tnum, m);
    }
  }

  lemma StillNone(nums: seq<int>, done: seq<int>, idx: seq<nat>, nthr: nat, tnum: nat, m: nat, p: nat, small: seq<int>)
    requires ReadingOn(nums, done, idx, nthr, tnum, m, p, small)
    ensures NoneSmall(nums, idx, tnum) && m < |idx| == nthr
  {
  }

  lemma RangesLength(nums: seq<int>, nthr: nat, tnum: nat)
    requires Ranges(nums, nthr, tnum)
    ensures |nums| == Start(nthr, tnum)
  {
  }

  /** Reading on takes the next number where it stands, whatever it is. */
  lemma ReadsOn(nums: seq<int>, done: seq<int>, idx: seq<nat>, nthr: nat, tnum: nat, m: nat, p: nat, small: seq<int>)
    requires Ranges(nums, nthr, tnum) && ReadingOn(nums, done, idx, nthr, tnum, m, p, small) && idx[m] < |nums|
    ensures ReadingOn(nums, done + [nums[idx[m]]], idx[m := idx[m] + 1], nthr, tnum, m, p, small)
  {
    hide Start, Others, LastOfLargest;
    assert nums[p + 1..idx[m] + 1] == nums[p + 1..idx[m]] + [nums[idx[m]]];
    var idx' := idx[m := idx[m] + 1];
    assert RangeSorted(nums, m, tnum);
  }

  // ---------- How it ends ----------

  lemma EndsMerged(nums: seq<int>, done: seq<int>, idx: seq<nat>, nthr: nat, tnum: nat)
    requires Merging(nums, done, idx, nthr, tnum) && |done| == |nums|
    ensures Sorted(done) && multiset(done) == multiset(nums) && Reads(nums) && MaximaBehind(nums)
  {
    hide Start, Rest, Stable;
    assert |multiset(nums)| == |multiset(done)| + |Rest(nums, idx, tnum)|;
    DoneBelow(done, nums, idx, tnum);
    assert LONG_MAX in nums ==> LONG_MAX in multiset(nums);
  }

  lemma EndsReading(nums: seq<int>, done: seq<int>, idx: seq<nat>, nthr: nat, tnum: nat, m: nat, p: nat, small: seq<int>)
    requires ReadingOn(nums, done, idx, nthr, tnum, m, p, small) && |done| == |nums|
    ensures Reads(nums)
    ensures Sorted(done) && multiset(done) == multiset(nums) <==> MaximaBehind(nums)
  {
    hide Start, NoneSmall, Sorted, LastOfLargest;
    var tail := nums[p + 1..idx[m]];
    assert tail == nums[p + 1..p + 1 + Maxima(nums)];
    CountMax(tail);
    SmallAndTail(nums, small, tail);
    if MaximaBehind(nums) {
      var q: nat :| LastOfLargest(nums, q) && q + Maxima(nums) < |nums| && AllMax(nums[q + 1..q + 1 + Maxima(nums)]);
      OneLast(nums, p, q);
    }
  }

  lemma SmallAndTail(nums: seq<int>, small: seq<int>, tail: seq<int>)
    requires Others(nums, small) && |small| + |tail| == |nums|
    ensures Sorted(small + tail) && multiset(small + tail) == multiset(nums) <==> AllMax(tail)
  {
    hide LastOfLargest;
    CountMax(tail);
    CountMax(small);
    assert multiset(small)[LONG_MAX] == 0 by { assert LONG_MAX !in small; }
    assert multiset(small + tail) == multiset(small) + multiset(tail);
    if AllMax(tail) {
      OnlyMax(multiset(tail));
      forall x
        ensures multiset(small + tail)[x] == multiset(nums)[x]
      {
      }
    }
  }

  /** The reads come to the end of the numbers too soon. */
  lemma RunsOut(nums: seq<int>, done: seq<int>, idx: seq<nat>, nthr: nat, tnum: nat, m: nat, p: nat, small: seq<int>)
    requires ReadingOn(nums, done, idx, nthr, tnum, m, p, small) && |done| < |nums| && idx[m] >= |nums|
    ensures !Reads(nums) && !MaximaBehind(nums)
  {
    hide Start, NoneSmall, LastOfLargest;
    forall q: nat | LastOfLargest(nums, q)
      ensures q == p && q + Maxima(nums) >= |nums|
    {
      OneLast(nums, p, q);
    }
  }

  lemma NeverStarts(nums: seq<int>)
    requires nums != [] && forall i :: 0 <= i < |nums| ==> nums[i] == LONG_MAX
    ensures !Reads(nums) && !MaximaBehind(nums)
  {
    assert nums[0] == LONG_MAX;
  }

  /**
   The result is in order and has the same numbers as the ranges exactly when all values
   LONG_MAX, if there are any, stand directly behind the last of the largest other numbers.
   Not defined: an index that was never set is used, or a place behind the numbers is read.
   */
  method MergeRanges(nums: array<int>, snums: array<int>, nthr: nat, tnum: nat) returns (defined: bool)
    requires Ranges(nums[..], nthr, tnum) && snums.Length == nums.Length && nums != snums
    modifies snums
    ensures defined <==> Reads(nums[..])
    ensures defined && Sorted(snums[..]) && multiset(snums[..]) == multiset(nums[..]) <==> MaximaBehind(nums[..])
  {
    hide Start, Rest, Ranges, Smallest, NoneSmall, Merging, ReadingOn, LastFrom, Reads, MaximaBehind, Sorted;
    var idx := new nat[nthr];
    var i := 0;
    while i < nthr
      modifies idx
      invariant 0 <= i <= nthr && forall k {:trigger idx[k]} :: 0 <= k < i ==> idx[k] == Start(k, tnum)
    {
      StartIs(i, tnum);
      idx[i] := i * tnum;
      i := i + 1;
    }
    ghost var s := nums[..];
    RangesLength(s, nthr, tnum);
    AtStarts(s, idx[..], nthr, tnum);
    ghost var on, p, small := false, 0, [];
    var minidx, sidx := nthr, 0;
    while sidx < nums.Length
      modifies snums, idx
      invariant 0 <= sidx <= nums.Length
      invariant Going(s, snums[..sidx], idx[..], nthr, tnum, minidx, on, p, small)
    {
      ghost var was, done := idx[..], snums[..sidx];
      if on {
        StillNone(s, done, was, nthr, tnum, minidx, p, small);
      }
      minidx := FindSmallest(nums, idx, tnum, minidx);
      if !NoneSmall(s, was, tnum) {
        SmallestIs(s, was, tnum, minidx);
      }
      if !on && NoneSmall(s, was, tnum) {
        Turns(s, done, was, nthr, tnum, minidx);
        if done == [] {
          NeverStarts(s);
        } else {
          on, p, small := true, was[minidx] - 1, done;
        }
      }
      if minidx >= nthr {
        return false;
      }
      if idx[minidx] >= nums.Length {
        RunsOut(s, done, was, nthr, tnum, minidx, p, small);
        return false;
      }
      if on {
        ReadsOn(s, done, was, nthr, tnum, minidx, p, small);
      } else {
        MergeOne(s, done, was, nthr, tnum, minidx);
      }
      snums[sidx] := nums[idx[minidx]];
      idx[minidx] := idx[minidx] + 1;
      assert idx[..] == was[minidx := was[minidx] + 1];
      assert snums[..sidx + 1] == done + [s[was[minidx]]];
      sidx := sidx + 1;
    }
    assert snums[..] == snums[..sidx];
    if on {
      EndsReading(s, snums[..], idx[..], nthr, tnum, minidx, p, small);
    } else {
      EndsMerged(s, snums[..], idx[..], nthr, tnum);
    }
    return true;
  }

  /** One number LONG_MAX in front of a smaller one: the merge reads behind the end of the numbers. */
  method MaximumInFront() returns (defined: bool)
    ensures !defined
  {
    var nums, snums := new int[2][LONG_MAX, 5], new int[2];
    ghost var s := nums[..];
    assert s == [LONG_MAX, 5];
    assert Start(1, 1) == 1 && Start(2, 1) == 2;
    assert Maxima(s) == 1;
    assert !Reads(s) by {
      assert s[0] == LONG_MAX;
      assert LastOfLargest(s, 1);
      forall q: nat | LastOfLargest(s, q)
        ensures q == 1
      {
        OneLast(s, 1, q);
      }
    }
    hide Reads;
    defined := MergeRanges(nums, snums, 2, 1);
  }
}
