/** `Array.prototype.forEach` over an array that the callback shrinks with
    `splice(index, 1)`, as the reaping passes of the game loop do (script.js:745-768).

    `forEach` fixes its bound at the starting length and visits index `k` only while
    `k` is below the current length. When the callback removes the element at `k`,
    the next element moves into `k` and the walk goes on at `k + 1`: that element is
    skipped, neither stepped nor tested, this time round. */
module Splice {

  /** The array after a pass that applies `step` to each visited element in place
      and removes it when `drop` holds of the stepped value, read from index `i` of
      the original array on, where `i` is the next original element to be visited. */
  function SpliceFrom<T>(s: seq<T>, step: T -> T, drop: T -> bool, i: nat): (r: seq<T>)
    requires i <= |s|
    ensures |r| <= |s| - i
    decreases |s| - i
  {
    if i >= |s| then []
    else if drop(step(s[i])) then
      if i + 1 < |s| then [s[i + 1]] + SpliceFrom(s, step, drop, i + 2) else []
    else [step(s[i])] + SpliceFrom(s, step, drop, i + 1)
  }

  /** The whole pass: `s.forEach((x, k) => { x = step(x); if (drop(x)) s.splice(k, 1); })`. */
  function SplicePass<T>(s: seq<T>, step: T -> T, drop: T -> bool): seq<T>
  {
    SpliceFrom(s, step, drop, 0)
  }

  /** The pass as the source runs it: an index walk with the bound fixed at the start,
      stepping the element at the current index in place and splicing it out when
      `drop` holds. */
  method ForEachSplice<T>(a: seq<T>, step: T -> T, drop: T -> bool) returns (c: seq<T>)
    ensures c == SplicePass(a, step, drop)
  {
    c := a;
    var n := |c|;
    var k := 0;
    ghost var done: seq<T> := [];
    ghost var j: nat := 0;
    while k < n
      invariant n == |a| && Walking(a, step, drop, c, k, done, j)
    {
      c, done, j := VisitIndex(a, step, drop, c, k, done, j);
      k := k + 1;
    }
    assert j == |a|;
  }

  /** The walk before visiting index `k`: the array is the finished front `done`
      followed by the original elements from `j` on, and the pass still to run from
      `j` completes the front to the whole result. */
  ghost predicate Walking<T>(a: seq<T>, step: T -> T, drop: T -> bool, c: seq<T>, k: nat, done: seq<T>, j: nat)
  {
    j <= |a| && k <= |a| &&
    c == done + a[j..] &&
    SplicePass(a, step, drop) == done + SpliceFrom(a, step, drop, j) &&
    |done| <= k && |done| <= j &&
    (j < |a| ==> |done| == k)
  }

  /** One callback of the walk at index `k`, when `k` is still below the length. */
  method VisitIndex<T>(a: seq<T>, step: T -> T, drop: T -> bool, c: seq<T>, k: nat,
                       ghost done: seq<T>, ghost j: nat)
    returns (c': seq<T>, ghost done': seq<T>, ghost j': nat)
    requires k < |a| && Walking(a, step, drop, c, k, done, j)
    ensures Walking(a, step, drop, c', k + 1, done', j')
  {
    c', done', j' := c, done, j;
    if k < |c| {
      var x := step(c[k]);
      c' := c[k := x];
      if drop(x) {
        c' := c'[..k] + c'[k + 1..];
        if j + 1 < |a| {
          VisitDropped(a, step, drop, done, j);
          done' := done + [a[j + 1]];
          j' := j + 2;
        } else {
          VisitDroppedLast(a, step, drop, done, j);
          j' := j + 1;
        }
      } else {
        VisitKept(a, step, drop, done, j);
        done' := done + [x];
        j' := j + 1;
      }
    }
  }

  /** A visit that keeps the stepped element: it takes its place in the finished front. */
  lemma VisitKept<T>(a: seq<T>, step: T -> T, drop: T -> bool, done: seq<T>, j: nat)
    requires j < |a| && !drop(step(a[j]))
    requires SplicePass(a, step, drop) == done + SpliceFrom(a, step, drop, j)
    ensures (done + a[j..])[|done| := step(a[j])] == (done + [step(a[j])]) + a[j + 1..]
    ensures SplicePass(a, step, drop) == (done + [step(a[j])]) + SpliceFrom(a, step, drop, j + 1)
  {
    ReplaceAt(done, a[j..], step(a[j]));
    assert a[j..][1..] == a[j + 1..];
    KeptStep(a, step, drop, j);
    Regroup(done, step(a[j]), SpliceFrom(a, step, drop, j + 1));
  }

  /** A visit that removes the stepped element: the next one moves into its place and
      joins the finished front unvisited. */
  lemma VisitDropped<T>(a: seq<T>, step: T -> T, drop: T -> bool, done: seq<T>, j: nat)
    requires j + 1 < |a| && drop(step(a[j]))
    requires SplicePass(a, step, drop) == done + SpliceFrom(a, step, drop, j)
    ensures var c := (done + a[j..])[|done| := step(a[j])];
      c[..|done|] + c[|done| + 1..] == (done + [a[j + 1]]) + a[j + 2..]
    ensures SplicePass(a, step, drop) == (done + [a[j + 1]]) + SpliceFrom(a, step, drop, j + 2)
  {
    DroppedArray(a, done, j, step(a[j]));
    DroppedStep(a, step, drop, j);
    Regroup(done, a[j + 1], SpliceFrom(a, step, drop, j + 2));
  }

  /** The array after the removal at `|done|`. */
  lemma DroppedArray<T>(a: seq<T>, done: seq<T>, j: nat, x: T)
    requires j + 1 < |a|
    ensures var c := (done + a[j..])[|done| := x];
      c[..|done|] + c[|done| + 1..] == (done + [a[j + 1]]) + a[j + 2..]
  {
    ReplaceThenRemove(done, a, j, x);
    assert a[j + 1..] == [a[j + 1]] + a[j + 2..];
    Regroup(done, a[j + 1], a[j + 2..]);
  }

  lemma KeptStep<T>(a: seq<T>, step: T -> T, drop: T -> bool, j: nat)
    requires j < |a| && !drop(step(a[j]))
    ensures SpliceFrom(a, step, drop, j) == [step(a[j])] + SpliceFrom(a, step, drop, j + 1)
  {
  }

  lemma DroppedStep<T>(a: seq<T>, step: T -> T, drop: T -> bool, j: nat)
    requires j + 1 < |a| && drop(step(a[j]))
    ensures SpliceFrom(a, step, drop, j) == [a[j + 1]] + SpliceFrom(a, step, drop, j + 2)
  {
  }

  lemma Regroup<T>(done: seq<T>, x: T, rest: seq<T>)
    ensures done + ([x] + rest) == (done + [x]) + rest
  {
  }

  /** A visit that removes the last element ends the walk. */
  lemma VisitDroppedLast<T>(a: seq<T>, step: T -> T, drop: T -> bool, done: seq<T>, j: nat)
    requires j + 1 == |a| && drop(step(a[j]))
    requires SplicePass(a, step, drop) == done + SpliceFrom(a, step, drop, j)
    ensures var c := (done + a[j..])[|done| := step(a[j])];
      c[..|done|] + c[|done| + 1..] == done + a[j + 1..]
    ensures SplicePass(a, step, drop) == done + SpliceFrom(a, step, drop, j + 1)
  {
    var x := step(a[j]);
    ReplaceAt(done, a[j..], x);
    assert a[j..][1..] == a[j + 1..];
    RemoveAt(done, x, a[j + 1..]);
  }

  lemma ReplaceThenRemove<T>(done: seq<T>, a: seq<T>, j: nat, x: T)
    requires j < |a|
    ensures var c := (done + a[j..])[|done| := x]; c[..|done|] + c[|done| + 1..] == done + a[j + 1..]
  {
    ReplaceAt(done, a[j..], x);
    assert a[j..][1..] == a[j + 1..];
    RemoveAt(done, x, a[j + 1..]);
  }

  lemma ReplaceAt<T>(done: seq<T>, rest: seq<T>, x: T)
    requires rest != []
    ensures (done + rest)[|done| := x] == done + [x] + rest[1..]
  {
  }

  lemma RemoveAt<T>(done: seq<T>, x: T, rest: seq<T>)
    ensures var c := done + [x] + rest; c[..|done|] + c[|done| + 1..] == done + rest
  {
    var c := done + [x] + rest;
    assert c[..|done|] == done;
    assert c[|done| + 1..] == rest;
  }

  /** `s.splice(k, 1)`: removes the element at `k`, or nothing when `k` is past the end. */
  function SpliceAt<T>(s: seq<T>, k: nat): (r: seq<T>)
    ensures k < |s| ==> |r| == |s| - 1 && r == s[..k] + s[k + 1..]
    ensures k >= |s| ==> r == s
    ensures multiset(r) <= multiset(s)
  {
    if k < |s| then
      assert s == s[..k] + [s[k]] + s[k + 1..];
      s[..k] + s[k + 1..]
    else s
  }

  /** The original indices of the elements that survive the pass from `i` on. */
  function KeptFrom<T>(s: seq<T>, step: T -> T, drop: T -> bool, i: nat): seq<nat>
    requires i <= |s|
    decreases |s| - i
  {
    if i >= |s| then []
    else if drop(step(s[i])) then
      if i + 1 < |s| then [i + 1] + KeptFrom(s, step, drop, i + 2) else []
    else [i] + KeptFrom(s, step, drop, i + 1)
  }

  /** Whether the survivor at original index `k` was skipped: its predecessor in the
      walk from `i` was removed, so it was neither stepped nor tested. */
  predicate Skipped(idx: seq<nat>, i: nat, k: nat)
  {
    k > i && k - 1 !in idx
  }

  /** Indices in [lo, hi), strictly increasing. */
  predicate Increasing(idx: seq<nat>, lo: nat, hi: nat)
  {
    (forall m :: 0 <= m < |idx| ==> lo <= idx[m] < hi) &&
    (forall m, m' :: 0 <= m < m' < |idx| ==> idx[m] < idx[m'])
  }

  /** A skipped survivor is the original element, any other the stepped one. */
  ghost predicate SurvivorValues<T>(s: seq<T>, step: T -> T, i: nat, idx: seq<nat>, r: seq<T>)
  {
    |idx| == |r| &&
    forall m :: 0 <= m < |idx| && idx[m] < |s| ==>
      r[m] == if Skipped(idx, i, idx[m]) then s[idx[m]] else step(s[idx[m]])
  }

  /** A survivor that was visited was not dropped. */
  predicate VisitedKept<T>(s: seq<T>, step: T -> T, drop: T -> bool, i: nat, idx: seq<nat>)
  {
    forall m :: 0 <= m < |idx| && idx[m] < |s| && !Skipped(idx, i, idx[m]) ==> !drop(step(s[idx[m]]))
  }

  /** Every removed element was dropped after its step. */
  predicate RemovedDropped<T>(s: seq<T>, step: T -> T, drop: T -> bool, i: nat, idx: seq<nat>)
  {
    forall k :: i <= k < |s| && k !in idx ==> drop(step(s[k]))
  }

  /** No two removed elements are neighbours: the one after a removal is skipped. */
  predicate RemovedApart(idx: seq<nat>, i: nat, n: nat)
  {
    forall k, k' :: i <= k < k' < n && k !in idx && k' !in idx ==> k + 1 < k'
  }

  /** `idx` and `r` describe the pass from `i` on: the survivors `r` are the original
      elements at the strictly increasing indices `idx`; a survivor right after a
      removed element was skipped and is unstepped, any other survivor is stepped and
      its stepped value is not dropped; every removed element was dropped after its
      step; and no two removed elements are neighbours. Together these fix which
      elements survive and what they hold. */
  ghost predicate DescribesPass<T>(s: seq<T>, step: T -> T, drop: T -> bool, i: nat, idx: seq<nat>, r: seq<T>)
  {
    Increasing(idx, i, |s|) && SurvivorValues(s, step, i, idx, r) && VisitedKept(s, step, drop, i, idx) &&
    RemovedDropped(s, step, drop, i, idx) && RemovedApart(idx, i, |s|)
  }

  /** The survivors of the pass from `i` on are described by `KeptFrom`. */
  lemma {:induction false} SurvivorsFrom<T>(s: seq<T>, step: T -> T, drop: T -> bool, i: nat)
    requires i <= |s|
    ensures DescribesPass(s, step, drop, i, KeptFrom(s, step, drop, i), SpliceFrom(s, step, drop, i))
    decreases |s| - i
  {
    if i < |s| {
      if drop(step(s[i])) {
        if i + 1 < |s| {
          SurvivorsFrom(s, step, drop, i + 2);
          DescribesCons(s, step, drop, i, i + 1, KeptFrom(s, step, drop, i + 2), SpliceFrom(s, step, drop, i + 2), s[i + 1]);
        }
      } else {
        SurvivorsFrom(s, step, drop, i + 1);
        DescribesCons(s, step, drop, i, i, KeptFrom(s, step, drop, i + 1), SpliceFrom(s, step, drop, i + 1), step(s[i]));
      }
    }
  }

  /** Extending a description from `first + 1` on by the survivor `first`, when at most
      the one element `i` before it was removed. */
  lemma DescribesCons<T>(s: seq<T>, step: T -> T, drop: T -> bool, i: nat, first: nat, tail: seq<nat>, rest: seq<T>, head: T)
    requires i <= first <= i + 1 && first < |s|
    requires DescribesPass(s, step, drop, first + 1, tail, rest)
    requires first == i + 1 ==> drop(step(s[i])) && head == s[first]
    requires first == i ==> !drop(step(s[i])) && head == step(s[first])
    ensures DescribesPass(s, step, drop, i, [first] + tail, [head] + rest)
  {
    var idx := [first] + tail;
    assert Increasing(idx, i, |s|) by {
      assert forall m :: 0 < m < |idx| ==> idx[m] == tail[m - 1];
    }
    assert Skipped(idx, i, first) == (first == i + 1) by {
      assert forall m :: 0 <= m < |tail| ==> tail[m] > first;
    }
    SkippedCons(first, tail, i);
    SurvivorValuesCons(s, step, i, first, tail, rest, head);
    VisitedKeptCons(s, step, drop, i, first, tail);
    RemovedCons(s, step, drop, i, first, tail);
  }

  lemma SkippedCons(first: nat, tail: seq<nat>, i: nat)
    requires i <= first
    ensures forall k :: first < k ==> (Skipped([first] + tail, i, k) <==> Skipped(tail, first + 1, k))
  {
    forall k | first < k
      ensures Skipped([first] + tail, i, k) <==> Skipped(tail, first + 1, k)
    {
      assert k - 1 in [first] + tail <==> k - 1 == first || k - 1 in tail;
    }
  }

  lemma SurvivorValuesCons<T>(s: seq<T>, step: T -> T, i: nat, first: nat, tail: seq<nat>, rest: seq<T>, head: T)
    requires i <= first < |s| && Increasing(tail, first + 1, |s|)
    requires SurvivorValues(s, step, first + 1, tail, rest)
    requires head == if Skipped([first] + tail, i, first) then s[first] else step(s[first])
    requires forall k :: first < k ==> (Skipped([first] + tail, i, k) <==> Skipped(tail, first + 1, k))
    ensures SurvivorValues(s, step, i, [first] + tail, [head] + rest)
  {
    var idx, r := [first] + tail, [head] + rest;
    forall m | 0 <= m < |idx| && idx[m] < |s|
      ensures r[m] == if Skipped(idx, i, idx[m]) then s[idx[m]] else step(s[idx[m]])
    {
      if m > 0 {
        assert idx[m] == tail[m - 1] && r[m] == rest[m - 1];
      }
    }
  }

  lemma VisitedKeptCons<T>(s: seq<T>, step: T -> T, drop: T -> bool, i: nat, first: nat, tail: seq<nat>)
    requires i <= first < |s| && Increasing(tail, first + 1, |s|)
    requires VisitedKept(s, step, drop, first + 1, tail)
    requires !Skipped([first] + tail, i, first) ==> !drop(step(s[first]))
    requires forall k :: first < k ==> (Skipped([first] + tail, i, k) <==> Skipped(tail, first + 1, k))
    ensures VisitedKept(s, step, drop, i, [first] + tail)
  {
    var idx := [first] + tail;
    forall m | 0 <= m < |idx| && idx[m] < |s| && !Skipped(idx, i, idx[m])
      ensures !drop(step(s[idx[m]]))
    {
      if m > 0 {
        assert idx[m] == tail[m - 1];
      }
    }
  }

  lemma RemovedCons<T>(s: seq<T>, step: T -> T, drop: T -> bool, i: nat, first: nat, tail: seq<nat>)
    requires i <= first <= i + 1 && first < |s| && Increasing(tail, first + 1, |s|)
    requires RemovedDropped(s, step, drop, first + 1, tail) && RemovedApart(tail, first + 1, |s|)
    requires first == i + 1 ==> drop(step(s[i]))
    ensures RemovedDropped(s, step, drop, i, [first] + tail) && RemovedApart([first] + tail, i, |s|)
  {
    var idx := [first] + tail;
    assert forall k :: k in idx <==> k == first || k in tail;
    assert i !in tail;
  }

  /** The whole pass, from the first element: see `DescribesPass`. In particular the
      pass never lengthens the array and keeps the survivors in their original order. */
  lemma SplicePassSurvivors<T>(s: seq<T>, step: T -> T, drop: T -> bool)
    ensures |SplicePass(s, step, drop)| <= |s|
    ensures DescribesPass(s, step, drop, 0, KeptFrom(s, step, drop, 0), SplicePass(s, step, drop))
  {
    SurvivorsFrom(s, step, drop, 0);
  }
}
