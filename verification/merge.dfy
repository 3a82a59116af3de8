/** The k-way merge of apue.3e/threads/barrier.c. */
module Merge {

  const LONG_MAX: int := 0x7fff_ffff_ffff_ffff

  /** Where run i begins; TNUM is t. */
  function Start(i: nat, t: nat): (r: nat) {
    i * t
  }

  /** Where it ends. */
  function End(i: nat, t: nat): (r: nat) {
    Start(i + 1, t)
  }

  lemma StartStep(i: nat, t: nat)
    ensures Start(i + 1, t) == Start(i, t) + t && Start(0, t) == 0
  {
  }

  lemma EndIs(i: nat, t: nat)
    ensures End(i, t) == Start(i + 1, t) >= Start(i, t)
  {
    StartStep(i, t);
  }

  lemma {:induction false} StartMono(i: nat, n: nat, t: nat)
    requires i <= n
    ensures Start(i, t) <= Start(n, t)
    decreases n - i
  {
    hide Start, End;
    if i < n {
      StartStep(i, t);
      StartMono(i + 1, n, t);
    }
  }

  ghost predicate Sorted(s: seq<int>) {
    forall i, j :: 0 <= i < j < |s| ==> s[i] <= s[j]
  }

  ghost predicate RunSorted(a: seq<int>, lo: nat, hi: nat) {
    forall j, k :: lo <= j < k < hi && k < |a| ==> a[j] <= a[k]
  }

  ghost predicate RunsSorted(a: seq<int>, n: nat, t: nat) {
    forall i :: 0 <= i < n ==> RunSorted(a, Start(i, t), End(i, t))
  }

  ghost predicate Cursors(idx: seq<nat>, t: nat) {
    forall i :: 0 <= i < |idx| ==> Start(i, t) <= idx[i] <= End(i, t)
  }

  /** What the first k runs have left. */
  ghost function Left(a: seq<int>, idx: seq<nat>, t: nat, k: nat): (m: multiset<int>)
    requires k <= |idx| && Cursors(idx, t) && Start(k, t) <= |a|
  {
    if k == 0 then multiset{}
    else EndIs(k - 1, t); Left(a, idx, t, k - 1) + multiset(a[idx[k - 1]..End(k - 1, t)])
  }

  lemma {:induction false} LeftAll(a: seq<int>, idx: seq<nat>, t: nat, k: nat)
    requires k <= |idx| && Cursors(idx, t) && Start(k, t) <= |a| && forall i :: 0 <= i < |idx| ==> idx[i] == Start(i, t)
    ensures Left(a, idx, t, k) == multiset(a[..Start(k, t)])
  {
    hide Start, End;
    if k == 0 {
      StartStep(0, t);
    } else {
      EndIs(k - 1, t);
      LeftAll(a, idx, t, k - 1);
      assert a[..Start(k, t)] == a[..Start(k - 1, t)] + a[Start(k - 1, t)..Start(k, t)];
    }
  }

  lemma {:induction false} LeftNone(a: seq<int>, idx: seq<nat>, t: nat, k: nat)
    requires k <= |idx| && Cursors(idx, t) && Start(k, t) <= |a|
    requires forall i :: 0 <= i < k ==> idx[i] == End(i, t)
    ensures Left(a, idx, t, k) == multiset{}
  {
    hide Start, End;
    if k > 0 {
      EndIs(k - 1, t);
      LeftNone(a, idx, t, k - 1);
    }
  }

  lemma {:induction false} LeftTake(a: seq<int>, idx: seq<nat>, t: nat, k: nat, m: nat)
    requires k <= |idx| && Cursors(idx, t) && Start(k, t) <= |a| && m < |idx| && idx[m] < End(m, t)
    ensures Cursors(idx[m := idx[m] + 1], t)
    ensures m < k ==> idx[m] < |a| && Left(a, idx, t, k) == Left(a, idx[m := idx[m] + 1], t, k) + multiset{a[idx[m]]}
    ensures m >= k ==> Left(a, idx, t, k) == Left(a, idx[m := idx[m] + 1], t, k)
  {
    hide Start, End;
    if k > 0 {
      EndIs(k - 1, t);
      LeftTake(a, idx, t, k - 1, m);
      if m == k - 1 {
        assert a[idx[m]..Start(k, t)] == [a[idx[m]]] + a[idx[m] + 1..Start(k, t)];
      }
    }
  }

  ghost predicate Above(a: seq<int>, lo: nat, hi: nat, x: int) {
    forall k :: lo <= k < hi && k < |a| ==> x <= a[k]
  }

  /** Nothing that is left is below x. */
  ghost predicate AllAbove(a: seq<int>, idx: seq<nat>, t: nat, x: int) {
    forall i :: 0 <= i < |idx| ==> Above(a, idx[i], End(i, t), x)
  }

  /** The numbers out so far are sorted, nothing left is below them, and nothing is lost. */
  ghost predicate Merging(a: seq<int>, idx: seq<nat>, out: seq<int>, t: nat) {
    && Cursors(idx, t) && Start(|idx|, t) == |a|
    && multiset(out) + Left(a, idx, t, |idx|) == multiset(a)
    && Sorted(out) && (out != [] ==> AllAbove(a, idx, t, out[|out| - 1]))
  }

  /** While numbers are missing some run has one left. */
  lemma SomeLeft(a: seq<int>, idx: seq<nat>, out: seq<int>, t: nat)
    requires Merging(a, idx, out, t) && |a| > |out|
    ensures Cursors(idx, t) && Start(|idx|, t) == |a|
    ensures exists i :: 0 <= i < |idx| && idx[i] < End(i, t)
  {
    hide Start, End;
    var left := Left(a, idx, t, |idx|);
    assert |multiset(out) + left| == |multiset(out)| + |left| && |multiset(out)| == |out| && |multiset(a)| == |a|;
    assert (forall i :: 0 <= i < |idx| ==> idx[i] == End(i, t)) ==> left == multiset{} by {
      if forall i :: 0 <= i < |idx| ==> idx[i] == End(i, t) {
        LeftNone(a, idx, t, |idx|);
      }
    }
  }

  /** Taking the least number leaves nothing below it. */
  lemma Advanced(a: seq<int>, idx: seq<nat>, t: nat, last: int, x: int, m: nat)
    requires m < |idx| && idx[m] < End(m, t) && idx[m] < |a| && a[idx[m]] == x
    requires AllAbove(a, idx, t, last) && AllAbove(a, idx, t, x)
    ensures last <= x && AllAbove(a, idx[m := idx[m] + 1], t, x)
  {
    hide Start, End;
    assert Above(a, idx[m], End(m, t), last);
    forall i | 0 <= i < |idx|
      ensures Above(a, idx[m := idx[m] + 1][i], End(i, t), x)
    {
      assert Above(a, idx[i], End(i, t), x);
    }
  }

  lemma Complete(a: seq<int>, idx: seq<nat>, out: seq<int>, t: nat)
    requires Merging(a, idx, out, t) && |out| == |a|
    ensures Sorted(out) && multiset(out) == multiset(a)
  {
    var left := Left(a, idx, t, |idx|);
    assert |multiset(out)| == |out| && |multiset(a)| == |a|;
    assert |multiset(out) + left| == |multiset(out)| + |left|;
    assert left == multiset{};
  }

  lemma SortedSnoc(s: seq<int>, x: int)
    requires Sorted(s) && (s != [] ==> s[|s| - 1] <= x)
    ensures Sorted(s + [x])
  {
  }

  /** The inner loop: the run with the least next number. */
  method Least(nums: array<int>, idx: array<nat>, t: nat) returns (min: nat, num: int)
    requires Cursors(idx[..], t) && Start(idx.Length, t) == nums.Length && RunsSorted(nums[..], idx.Length, t)
    requires forall k :: 0 <= k < nums.Length ==> nums[k] < LONG_MAX
    requires exists i :: 0 <= i < idx.Length && idx[i] < End(i, t)
    ensures min < idx.Length && idx[min] < End(min, t) && idx[min] < nums.Length && nums[idx[min]] == num
    ensures AllAbove(nums[..], idx[..], t, num)
  {
    hide Start, End, RunSorted, Above;
    num, min := LONG_MAX, 0;
    for i := 0 to idx.Length
      invariant num == LONG_MAX || (min < i && idx[min] < End(min, t) && idx[min] < nums.Length && nums[idx[min]] == num)
      invariant forall j :: 0 <= j < i && idx[j] < End(j, t) ==> idx[j] < nums.Length && num <= nums[idx[j]] < LONG_MAX
    {
      assert idx[..][i] == idx[i];
      StartMono(i + 1, idx.Length, t);
      EndIs(i, t);
      if idx[i] < End(i, t) && nums[idx[i]] < num {
        num, min := nums[idx[i]], i;
      }
    }
    ghost var a := nums[..];
    forall i | 0 <= i < idx.Length
      ensures Above(a, idx[..][i], End(i, t), num)
    {
      RunAbove(a, idx[i], Start(i, t), End(i, t), num);
    }
  }

  lemma RunAbove(a: seq<int>, at: nat, lo: nat, hi: nat, x: int)
    requires RunSorted(a, lo, hi) && lo <= at && (at < hi && at < |a| ==> x <= a[at])
    ensures Above(a, at, hi, x)
  {
  }

  lemma MergeStart(a: seq<int>, idx: seq<nat>, t: nat)
    requires Start(|idx|, t) == |a| && forall i :: 0 <= i < |idx| ==> idx[i] == Start(i, t)
    ensures Merging(a, idx, [], t)
  {
    hide Start, End;
    forall i | 0 <= i < |idx|
      ensures Start(i, t) <= idx[i] <= End(i, t)
    {
      EndIs(i, t);
    }
    LeftAll(a, idx, t, |idx|);
    assert a[..|a|] == a;
  }

  lemma MergeStep(a: seq<int>, idx: seq<nat>, out: seq<int>, t: nat, m: nat, x: int)
    requires Merging(a, idx, out, t) && m < |idx| && idx[m] < End(m, t) && idx[m] < |a| && a[idx[m]] == x
    requires AllAbove(a, idx, t, x)
    ensures Merging(a, idx[m := idx[m] + 1], out + [x], t)
  {
    hide Start, End, Sorted, Above, AllAbove, Left;
    LeftTake(a, idx, t, |idx|, m);
    Advanced(a, idx, t, if out != [] then out[|out| - 1] else x, x, m);
    SortedSnoc(out, x);
    assert multiset(out + [x]) == multiset(out) + multiset{x};
  }

  /** merge: all the numbers, sorted, for any number of sorted runs of equal length below LONG_MAX. */
  method MergeRuns(nums: array<int>, n: nat, t: nat) returns (s: seq<int>)
    requires nums.Length == Start(n, t) && RunsSorted(nums[..], n, t)
    requires forall k :: 0 <= k < nums.Length ==> nums[k] < LONG_MAX
    ensures Sorted(s) && multiset(s) == multiset(nums[..])
  {
    hide Start, End, Sorted, Above, AllAbove, RunSorted, RunsSorted, Left, Cursors, Merging;
    var idx := new nat[n](i requires 0 <= i < n => Start(i, t));
    var snums := new int[nums.Length];
    ghost var a := nums[..];
    assert snums[..0] == [];
    MergeStart(a, idx[..], t);
    for sidx := 0 to nums.Length
      invariant idx.Length == n && nums[..] == a && Merging(a, idx[..], snums[..sidx], t)
    {
      ghost var before, out := idx[..], snums[..sidx];
      SomeLeft(a, before, out, t);
      assert exists i :: 0 <= i < idx.Length && idx[i] < End(i, t);
      var min, num := Least(nums, idx, t);
      MergeStep(a, before, out, t, min, num);
      snums[sidx] := nums[idx[min]];
      idx[min] := idx[min] + 1;
      assert snums[..sidx + 1] == out + [num] && idx[..] == before[min := before[min] + 1];
    }
    s := snums[..];
    assert snums[..nums.Length] == s;
    Complete(a, idx[..], s, t);
  }
}
