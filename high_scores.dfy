/** The high-score table: `getHighScore` and `updateHighScores` (script.js:71-114). */
module HighScores {
  import opened Wrappers

  datatype Entry = Entry(score: int, name: string)

  /** `slice(0, 5)`: the table keeps at most this many entries. */
  const MaxEntries: nat := 5

  /** The table before anything is loaded: five zero scores. */
  const InitialTable: seq<Entry> :=
    [Entry(0, "---"), Entry(0, "---"), Entry(0, "---"), Entry(0, "---"), Entry(0, "---")]

  /** `highScores.some((entry) => entry.score === s)` */
  predicate ScoreExists(t: seq<Entry>, s: int)
  {
    exists i :: 0 <= i < |t| && t[i].score == s
  }

  /** Non-increasing by score. */
  predicate SortedDesc(t: seq<Entry>)
  {
    forall i, j :: 0 <= i < j < |t| ==> t[i].score >= t[j].score
  }

  /** The entries of `t` whose score is `k`, in table order. A sort is stable when it
      keeps every one of these subsequences. */
  function WithScore(t: seq<Entry>, k: int): seq<Entry>
  {
    if t == [] then [] else (if t[0].score == k then [t[0]] else []) + WithScore(t[1..], k)
  }

  /** Inserts `e` after every leading entry whose score is at least `e.score`. */
  function Insert(t: seq<Entry>, e: Entry): (r: seq<Entry>)
    ensures |r| == |t| + 1
    ensures multiset(r) == multiset(t) + multiset{e}
  {
    if t == [] then [e]
    else if t[0].score >= e.score then
      assert t == [t[0]] + t[1..];
      [t[0]] + Insert(t[1..], e)
    else [e] + t
  }

  /** The stable descending sort `sort((a, b) => b.score - a.score)`, as insertion sort. */
  function SortDesc(t: seq<Entry>): (r: seq<Entry>)
    ensures |r| == |t| && SortedDesc(r)
    ensures multiset(r) == multiset(t)
  {
    if t == [] then []
    else
      assert t == t[..|t| - 1] + [t[|t| - 1]];
      var sortedInit := SortDesc(t[..|t| - 1]);
      InsertKeepsSorted(sortedInit, t[|t| - 1]);
      Insert(sortedInit, t[|t| - 1])
  }

  /** `highScores.slice(0, 5)` */
  function Top(t: seq<Entry>): (r: seq<Entry>)
    ensures |r| <= |t| && |r| <= MaxEntries && r == t[..|r|]
    ensures |r| == if |t| < MaxEntries then |t| else MaxEntries
  {
    if |t| <= MaxEntries then t else t[..MaxEntries]
  }

  /** `updateHighScores(newScore, name)`: when the score is already in the table the
      table is left as it is; otherwise the entry is pushed, the table sorted by score
      descending and cut to five entries. */
  function UpdatedTable(t: seq<Entry>, newScore: int, name: string): (r: seq<Entry>)
    ensures ScoreExists(t, newScore) ==> r == t
    ensures !ScoreExists(t, newScore) ==>
      |r| <= MaxEntries && |r| == (if |t| < MaxEntries then |t| + 1 else MaxEntries) &&
      SortedDesc(r) && multiset(r) <= multiset(t + [Entry(newScore, name)])
  {
    if ScoreExists(t, newScore) then t
    else
      var sorted := SortDesc(t + [Entry(newScore, name)]);
      assert sorted == Top(sorted) + sorted[|Top(sorted)|..];
      Top(sorted)
  }

  /** `Math.max(...highScores.map((entry) => entry.score))`; `None` stands for the
      `-Infinity` that `Math.max` returns for an empty table. */
  function GetHighScore(t: seq<Entry>): (r: Option<int>)
    ensures r.None? <==> t == []
    ensures r.Some? ==> ScoreExists(t, r.value) && forall i :: 0 <= i < |t| ==> t[i].score <= r.value
  {
    if t == [] then None
    else
      match GetHighScore(t[1..])
      case None => Some(t[0].score)
      case Some(m) => Some(if t[0].score < m then m else t[0].score)
  }

  /** `score > getHighScore() && getHighScore() > 0`; false for an empty table, whose
      maximum `-Infinity` is not above 0. */
  predicate BeatsPositiveHighScore(t: seq<Entry>, score: int)
  {
    match GetHighScore(t)
    case None => false
    case Some(best) => score > best && best > 0
  }

  // ---------------------------------------------------------------------------
  // The sort is the stable descending sort

  lemma {:induction false} WithScoreAppend(t: seq<Entry>, u: seq<Entry>, k: int)
    ensures WithScore(t + u, k) == WithScore(t, k) + WithScore(u, k)
  {
    if t != [] {
      var head := if t[0].score == k then [t[0]] else [];
      assert (t + u)[0] == t[0];
      assert (t + u)[1..] == t[1..] + u;
      WithScoreAppend(t[1..], u, k);
      assert WithScore(t + u, k) == head + WithScore(t[1..] + u, k);
      assert WithScore(t, k) == head + WithScore(t[1..], k);
    } else {
      assert t + u == u;
    }
  }

  lemma WithScoreOfOne(e: Entry, k: int)
    ensures WithScore([e], k) == if e.score == k then [e] else []
  {
    assert [e][1..] == [];
    assert WithScore([], k) == [];
  }

  lemma {:induction false} WithScoreOfLower(t: seq<Entry>, k: int)
    requires forall i :: 0 <= i < |t| ==> t[i].score < k
    ensures WithScore(t, k) == []
  {
    if t != [] {
      WithScoreOfLower(t[1..], k);
    }
  }

  /** Inserting into a sorted table puts the new entry after the older ones of equal score. */
  lemma {:induction false} InsertIsStable(u: seq<Entry>, e: Entry, k: int)
    requires SortedDesc(u)
    ensures WithScore(Insert(u, e), k) == WithScore(u, k) + WithScore([e], k)
  {
    var p := LeadingAtLeast(u, e.score);
    InsertedWithScore(u, e, k);
    SplitWithScore(u, p, k);
    NoTieBehindInserted(u, e, k);
    SwapEmpty(WithScore(u[..p], k), WithScore([e], k), WithScore(u[p..], k));
  }

  /** The per-score subsequence of an insertion, split where the entry went in. */
  lemma InsertedWithScore(u: seq<Entry>, e: Entry, k: int)
    ensures var p := LeadingAtLeast(u, e.score);
      WithScore(Insert(u, e), k) == WithScore(u[..p], k) + WithScore([e], k) + WithScore(u[p..], k)
  {
    var p := LeadingAtLeast(u, e.score);
    InsertSplits(u, e);
    WithScoreAppend(u[..p] + [e], u[p..], k);
    WithScoreAppend(u[..p], [e], k);
  }

  lemma SplitWithScore(u: seq<Entry>, p: nat, k: int)
    requires p <= |u|
    ensures WithScore(u, k) == WithScore(u[..p], k) + WithScore(u[p..], k)
  {
    assert u[..p] + u[p..] == u;
    WithScoreAppend(u[..p], u[p..], k);
  }

  /** In a sorted table nothing behind an inserted entry shares its score. */
  lemma NoTieBehindInserted(u: seq<Entry>, e: Entry, k: int)
    requires SortedDesc(u)
    ensures WithScore(u[LeadingAtLeast(u, e.score)..], k) == [] || WithScore([e], k) == []
  {
    if e.score == k {
      LaterAreLower(u, e.score);
      WithScoreOfLower(u[LeadingAtLeast(u, e.score)..], k);
    } else {
      WithScoreOfOne(e, k);
    }
  }

  lemma SwapEmpty(x: seq<Entry>, m: seq<Entry>, y: seq<Entry>)
    requires y == [] || m == []
    ensures x + m + y == x + y + m
  {
  }

  /** Entries of equal score keep their relative order through the sort. */
  lemma {:induction false} SortDescIsStable(t: seq<Entry>, k: int)
    ensures WithScore(SortDesc(t), k) == WithScore(t, k)
  {
    if t != [] {
      var init, last := t[..|t| - 1], t[|t| - 1];
      assert t == init + [last];
      SortDescIsStable(init, k);
      InsertIsStable(SortDesc(init), last, k);
      WithScoreAppend(init, [last], k);
    }
  }

  lemma {:induction false} WithScoreFinds(t: seq<Entry>, k: int)
    ensures WithScore(t, k) != [] <==> ScoreExists(t, k)
  {
    if t != [] {
      WithScoreFinds(t[1..], k);
      if ScoreExists(t[1..], k) {
        var i :| 0 <= i < |t[1..]| && t[1..][i].score == k;
        assert t[i + 1].score == k;
      }
      if ScoreExists(t, k) && t[0].score != k {
        var i :| 0 <= i < |t| && t[i].score == k;
        assert t[1..][i - 1].score == k;
      }
    }
  }

  lemma WithScoreOfFirst(t: seq<Entry>)
    ensures t == [] ==> forall k :: WithScore(t, k) == []
    ensures t != [] ==> WithScore(t, t[0].score) != []
  {
  }

  /** A table sorted by score is determined by its per-score subsequences: two sorted
      tables that agree on every score's entries, in order, are equal. So any stable
      descending sort of a table is `SortDesc` of it. */
  lemma {:induction false} StableSortIsUnique(a: seq<Entry>, b: seq<Entry>)
    requires SortedDesc(a) && SortedDesc(b)
    requires forall k :: WithScore(a, k) == WithScore(b, k)
    ensures a == b
  {
    if a == [] || b == [] {
      WithScoreOfFirst(a);
      WithScoreOfFirst(b);
      if a != b {
        assert false;
      }
    } else {
      SameLeadingEntry(a, b);
      forall k
        ensures WithScore(a[1..], k) == WithScore(b[1..], k)
      {
        WithScoreOfTail(a, k);
        WithScoreOfTail(b, k);
      }
      StableSortIsUnique(a[1..], b[1..]);
      assert a == [a[0]] + a[1..] && b == [b[0]] + b[1..];
    }
  }

  /** Two sorted tables with the same per-score subsequences start with the same entry. */
  lemma SameLeadingEntry(a: seq<Entry>, b: seq<Entry>)
    requires a != [] && b != []
    requires SortedDesc(a) && SortedDesc(b)
    requires forall k :: WithScore(a, k) == WithScore(b, k)
    ensures a[0] == b[0]
  {
    var m, n := a[0].score, b[0].score;
    assert WithScore(a, m) != [];
    assert WithScore(b, n) != [];
    assert n >= m by {
      WithScoreFinds(b, m);
      var j :| 0 <= j < |b| && b[j].score == m;
    }
    assert m >= n by {
      WithScoreFinds(a, n);
      var i :| 0 <= i < |a| && a[i].score == n;
    }
    assert WithScore(a, m)[0] == a[0] && WithScore(b, m)[0] == b[0];
  }

  /** Dropping the first entry drops it from its score's subsequence. */
  lemma WithScoreOfTail(a: seq<Entry>, k: int)
    requires a != []
    ensures WithScore(a[1..], k) == WithScore(a, k)[(if a[0].score == k then 1 else 0)..]
  {
  }

  /** When the score is new, the table becomes the first five entries of the stable
      descending sort of the old table with the new entry pushed at its end. */
  lemma UpdatedTableIsTopOfStableSort(t: seq<Entry>, newScore: int, name: string, v: seq<Entry>)
    requires !ScoreExists(t, newScore)
    requires SortedDesc(v)
    requires forall k :: WithScore(v, k) == WithScore(t + [Entry(newScore, name)], k)
    ensures UpdatedTable(t, newScore, name) == v[..if |v| < MaxEntries then |v| else MaxEntries]
  {
    var pushed := t + [Entry(newScore, name)];
    forall k
      ensures WithScore(SortDesc(pushed), k) == WithScore(v, k)
    {
      SortDescIsStable(pushed, k);
    }
    StableSortIsUnique(SortDesc(pushed), v);
  }

  // ---------------------------------------------------------------------------
  // Recording the same score twice

  /** How many leading entries have a score of at least `s`. */
  function LeadingAtLeast(u: seq<Entry>, s: int): (p: nat)
    ensures p <= |u|
    ensures forall i :: 0 <= i < p ==> u[i].score >= s
    ensures p < |u| ==> u[p].score < s
  {
    if u == [] || u[0].score < s then 0 else 1 + LeadingAtLeast(u[1..], s)
  }

  /** In a sorted table every entry after the leading run is below `s`. */
  lemma LaterAreLower(u: seq<Entry>, s: int)
    requires SortedDesc(u)
    ensures forall i :: LeadingAtLeast(u, s) <= i < |u| ==> u[i].score < s
  {
  }

  lemma {:induction false} InsertKeepsSorted(u: seq<Entry>, e: Entry)
    requires SortedDesc(u)
    ensures SortedDesc(Insert(u, e))
  {
    if u == [] {
    } else if u[0].score >= e.score {
      var rest := Insert(u[1..], e);
      InsertKeepsSorted(u[1..], e);
      InsertIsBounded(u[1..], e, u[0].score);
      SortedCons(u[0], rest);
    } else {
      SortedCons(e, u);
    }
  }

  /** Inserting below a bound stays below it. */
  lemma {:induction false} InsertIsBounded(u: seq<Entry>, e: Entry, b: int)
    requires forall i :: 0 <= i < |u| ==> u[i].score <= b
    requires e.score <= b
    ensures forall i :: 0 <= i < |Insert(u, e)| ==> Insert(u, e)[i].score <= b
  {
    if u != [] && u[0].score >= e.score {
      InsertIsBounded(u[1..], e, b);
      assert Insert(u, e) == [u[0]] + Insert(u[1..], e);
    }
  }

  /** A sorted table stays sorted below an entry at least as good as all of it. */
  lemma SortedCons(x: Entry, r: seq<Entry>)
    requires SortedDesc(r)
    requires forall i :: 0 <= i < |r| ==> r[i].score <= x.score
    ensures SortedDesc([x] + r)
  {
    var c := [x] + r;
    forall i, j | 0 <= i < j < |c|
      ensures c[i].score >= c[j].score
    {
      assert c[j] == r[j - 1];
      if i > 0 {
        assert c[i] == r[i - 1];
      }
    }
  }

  lemma {:induction false} InsertSplits(u: seq<Entry>, e: Entry)
    ensures Insert(u, e) == u[..LeadingAtLeast(u, e.score)] + [e] + u[LeadingAtLeast(u, e.score)..]
  {
    var p := LeadingAtLeast(u, e.score);
    if u != [] && u[0].score >= e.score {
      var tail := u[1..];
      var q := LeadingAtLeast(tail, e.score);
      assert p == q + 1;
      InsertSplits(tail, e);
      assert Insert(u, e) == [u[0]] + (tail[..q] + [e] + tail[q..]);
      SplitAfterHead(u, q);
      Regroup3(u[0], tail[..q], e, tail[q..]);
    } else {
      assert p == 0;
      assert u[..0] == [] && u[0..] == u;
    }
  }

  lemma SplitAfterHead(u: seq<Entry>, q: nat)
    requires q < |u|
    ensures [u[0]] + u[1..][..q] == u[..q + 1] && u[1..][q..] == u[q + 1..]
  {
  }

  lemma Regroup3(a: Entry, x: seq<Entry>, e: Entry, y: seq<Entry>)
    ensures [a] + (x + [e] + y) == ([a] + x) + [e] + y
  {
  }

  /** Sorting a sorted table changes nothing. */
  lemma {:induction false} SortOfSorted(t: seq<Entry>)
    requires SortedDesc(t)
    ensures SortDesc(t) == t
  {
    if t != [] {
      var init, last := t[..|t| - 1], t[|t| - 1];
      assert t == init + [last];
      assert SortedDesc(init);
      SortOfSorted(init);
      SortOfPushed(init, last);
      InsertBelowAll(init, last);
    }
  }

  lemma SortOfPushed(t: seq<Entry>, e: Entry)
    ensures SortDesc(t + [e]) == Insert(SortDesc(t), e)
  {
    assert (t + [e])[..|t|] == t;
  }

  /** The sort of a table with a pushed entry, split at the new entry. */
  lemma PushedSplits(t: seq<Entry>, e: Entry)
    ensures var u := SortDesc(t); var p := LeadingAtLeast(u, e.score);
      SortDesc(t + [e]) == u[..p] + [e] + u[p..]
  {
    SortOfPushed(t, e);
    InsertSplits(SortDesc(t), e);
  }

  /** Sorting neither adds nor loses a score. */
  lemma SortKeepsScores(t: seq<Entry>, s: int)
    ensures ScoreExists(SortDesc(t), s) == ScoreExists(t, s)
  {
    SortDescIsStable(t, s);
    WithScoreFinds(t, s);
    WithScoreFinds(SortDesc(t), s);
  }

  /** After recording a score, either the score is in the table or the table holds five
      entries that all beat it. */
  lemma RecordedOrOutranked(t: seq<Entry>, newScore: int, name: string)
    ensures var r := UpdatedTable(t, newScore, name);
      ScoreExists(r, newScore) ||
      (|r| == MaxEntries && forall i :: 0 <= i < |r| ==> r[i].score > newScore)
  {
    if !ScoreExists(t, newScore) {
      var e := Entry(newScore, name);
      var u := SortDesc(t);
      var p := LeadingAtLeast(u, newScore);
      if p < MaxEntries {
        NewScoreKeptWhenFewAbove(t, e);
      } else {
        NewScoreDroppedWhenFiveAbove(t, e);
      }
    }
  }

  lemma NewScoreKeptWhenFewAbove(t: seq<Entry>, e: Entry)
    requires !ScoreExists(t, e.score)
    requires LeadingAtLeast(SortDesc(t), e.score) < MaxEntries
    ensures ScoreExists(UpdatedTable(t, e.score, e.name), e.score)
  {
    var p := LeadingAtLeast(SortDesc(t), e.score);
    var v := SortDesc(t + [e]);
    PushedSplits(t, e);
    assert v[p] == e;
    assert UpdatedTable(t, e.score, e.name)[p] == e;
  }

  lemma NewScoreDroppedWhenFiveAbove(t: seq<Entry>, e: Entry)
    requires !ScoreExists(t, e.score)
    requires LeadingAtLeast(SortDesc(t), e.score) >= MaxEntries
    ensures var r := UpdatedTable(t, e.score, e.name);
      |r| == MaxEntries && forall i :: 0 <= i < |r| ==> r[i].score > e.score
  {
    var u := SortDesc(t);
    DroppedTableIsPrefix(t, e);
    SortKeepsScores(t, e.score);
    LeadingAboveNew(u, e.score, LeadingAtLeast(u, e.score));
  }

  /** A new score with five or more entries at or above it leaves the first five
      entries of the sorted table. */
  lemma DroppedTableIsPrefix(t: seq<Entry>, e: Entry)
    requires !ScoreExists(t, e.score)
    requires LeadingAtLeast(SortDesc(t), e.score) >= MaxEntries
    ensures UpdatedTable(t, e.score, e.name) == SortDesc(t)[..MaxEntries]
  {
    var u := SortDesc(t);
    assert UpdatedTable(t, e.score, e.name) == Top(SortDesc(t + [e]));
    PushedSplits(t, e);
    PrefixBeforeSplit(u, e, LeadingAtLeast(u, e.score));
  }

  /** When `s` is absent, the leading run of entries of at least `s` is strictly above it. */
  lemma LeadingAboveNew(u: seq<Entry>, s: int, p: nat)
    requires !ScoreExists(u, s)
    requires p == LeadingAtLeast(u, s)
    ensures forall i :: 0 <= i < p ==> u[i].score > s
  {
  }

  /** Cutting a table that was split at `p` to its first `MaxEntries <= p` entries
      drops the inserted entry. */
  lemma PrefixBeforeSplit(u: seq<Entry>, e: Entry, p: nat)
    requires MaxEntries <= p <= |u|
    ensures Top(u[..p] + [e] + u[p..]) == u[..MaxEntries]
  {
  }

  /** Recording the same score twice gives the same table as recording it once. */
  lemma UpdateTwiceIsUpdateOnce(t: seq<Entry>, newScore: int, name: string)
    ensures var once := UpdatedTable(t, newScore, name);
      UpdatedTable(once, newScore, name) == once
  {
    var once := UpdatedTable(t, newScore, name);
    RecordedOrOutranked(t, newScore, name);
    if !ScoreExists(once, newScore) {
      OutrankedScoreIsDropped(once, Entry(newScore, name));
    }
  }

  /** A full sorted table whose every entry beats the new score is left as it is. */
  lemma OutrankedScoreIsDropped(u: seq<Entry>, e: Entry)
    requires SortedDesc(u) && |u| == MaxEntries
    requires forall i :: 0 <= i < |u| ==> u[i].score > e.score
    ensures UpdatedTable(u, e.score, e.name) == u
  {
    PushedLowestStaysLast(u, e);
    assert !ScoreExists(u, e.score);
    assert Top(u + [e]) == u;
  }

  /** Sorting a sorted table with an entry no better than any of it pushed at its end
      changes nothing. */
  lemma PushedLowestStaysLast(u: seq<Entry>, e: Entry)
    requires SortedDesc(u)
    requires forall i :: 0 <= i < |u| ==> u[i].score >= e.score
    ensures SortDesc(u + [e]) == u + [e]
  {
    SortOfPushed(u, e);
    SortOfSorted(u);
    InsertBelowAll(u, e);
  }

  /** An entry no better than any in the table is inserted at its end. */
  lemma {:induction false} InsertBelowAll(u: seq<Entry>, e: Entry)
    requires forall i :: 0 <= i < |u| ==> u[i].score >= e.score
    ensures Insert(u, e) == u + [e]
  {
    if u != [] {
      InsertBelowAll(u[1..], e);
      assert u == [u[0]] + u[1..];
    }
  }

  // ---------------------------------------------------------------------------
  // The best score

  /** In a sorted table the best score is the first one. */
  lemma SortedHighScore(t: seq<Entry>)
    requires SortedDesc(t) && t != []
    ensures GetHighScore(t) == Some(t[0].score)
  {
  }

  /** After recording a score the best score is the larger of the old best and it. */
  lemma RecordingKeepsTheBest(t: seq<Entry>, newScore: int, name: string)
    ensures GetHighScore(UpdatedTable(t, newScore, name)) ==
      Some(if t == [] then newScore else Max(GetHighScore(t).value, newScore))
  {
    if !ScoreExists(t, newScore) {
      var pushed := t + [Entry(newScore, name)];
      var r := UpdatedTable(t, newScore, name);
      assert r[0] == SortDesc(pushed)[0];
      SortedHighScore(r);
      SortedHeadIsBest(pushed);
      HighScoreOfPushed(t, Entry(newScore, name));
    } else {
      HighScoreOfPresent(t, newScore);
    }
  }

  /** The first entry of the sorted table carries the best score of the table. */
  lemma SortedHeadIsBest(x: seq<Entry>)
    requires x != []
    ensures SortDesc(x)[0].score == GetHighScore(x).value
  {
    var v := SortDesc(x);
    var best := GetHighScore(x).value;
    assert v[0].score >= best by {
      SortKeepsScores(x, best);
      var j :| 0 <= j < |v| && v[j].score == best;
    }
    assert ScoreExists(x, v[0].score) by {
      SortKeepsScores(x, v[0].score);
    }
  }

  /** The best score of a table with an entry pushed at its end. */
  lemma {:induction false} HighScoreOfPushed(t: seq<Entry>, e: Entry)
    ensures GetHighScore(t + [e]) ==
      Some(if t == [] then e.score else Max(GetHighScore(t).value, e.score))
  {
    if t == [] {
      assert t + [e] == [e] && [e][1..] == [];
    } else {
      assert (t + [e])[0] == t[0] && (t + [e])[1..] == t[1..] + [e];
      HighScoreOfPushed(t[1..], e);
    }
  }

  /** A score already in the table is at most its best. */
  lemma HighScoreOfPresent(t: seq<Entry>, s: int)
    requires ScoreExists(t, s)
    ensures t != [] && GetHighScore(t).value >= s
  {
  }

  function Max(a: int, b: int): int
  {
    if a < b then b else a
  }

  /** The starting table holds the same score five times: the table is not free of
      duplicate scores, and recording 0 into it changes nothing. */
  lemma InitialTableHasDuplicates()
    ensures InitialTable[0].score == InitialTable[1].score
    ensures UpdatedTable(InitialTable, 0, "A") == InitialTable
    ensures GetHighScore(InitialTable) == Some(0)
  {
    assert InitialTable[0].score == 0;
  }
}
