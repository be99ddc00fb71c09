/** How `vmp/ml_api_server.py` ranks trained models by R²: Python's
    `max(..., key=...)`, which keeps the first of several equal maxima, and
    `list.sort(key=..., reverse=True)`, which is stable, so models with equal
    R² keep the order in which they were trained. */
module Ranking {
  import opened Common

  /* ---------- Python's max with a key ---------- */

  /** `i` is where `max` stops: no key is greater, and every element before
      it has a strictly smaller key. */
  predicate IsFirstMax<T>(xs: seq<T>, key: T -> real, i: int) {
    && 0 <= i < |xs|
    && (forall j :: 0 <= j < |xs| ==> key(xs[j]) <= key(xs[i]))
    && (forall j :: 0 <= j < i ==> key(xs[j]) < key(xs[i]))
  }

  /** `max(xs, key=key)` as an index; `None` for an empty sequence, where
      Python raises. The scan replaces its candidate only on a strictly
      greater key. */
  function FirstMax<T>(xs: seq<T>, key: T -> real): (r: Option<nat>)
    ensures r.None? <==> |xs| == 0
    ensures r.Some? ==> IsFirstMax(xs, key, r.value)
    decreases |xs|
  {
    if |xs| == 0 then None
    else
      var n := |xs| - 1;
      var prefix := xs[..n];
      match FirstMax(prefix, key)
      case None => Some(0)
      case Some(b) =>
        assert forall j :: 0 <= j < n ==> prefix[j] == xs[j];
        if key(xs[n]) > key(xs[b]) then Some(n) else Some(b)
  }

  /** The first maximum is the only index that is one. */
  lemma FirstMaxUnique<T>(xs: seq<T>, key: T -> real, i: int, j: int)
    requires IsFirstMax(xs, key, i) && IsFirstMax(xs, key, j)
    ensures i == j
  {
    assert key(xs[i]) <= key(xs[j]) && key(xs[j]) <= key(xs[i]);
  }

  /* ---------- stable descending sort ---------- */

  predicate Descending<T>(s: seq<T>, key: T -> real) {
    forall i, j :: 0 <= i < j < |s| ==> key(s[i]) >= key(s[j])
  }

  /** Puts `x` after every element whose key is not smaller. */
  function InsertDesc<T>(s: seq<T>, x: T, key: T -> real): (r: seq<T>)
    ensures |r| == |s| + 1
    ensures r[0] == (if |s| == 0 || key(s[0]) < key(x) then x else s[0])
    decreases |s|
  {
    if |s| == 0 then [x]
    else if key(s[0]) < key(x) then [x] + s
    else [s[0]] + InsertDesc(s[1..], x, key)
  }

  /** Inserting adds exactly `x`. */
  lemma {:induction false} InsertDescMultiset<T>(s: seq<T>, x: T, key: T -> real)
    ensures multiset(InsertDesc(s, x, key)) == multiset(s) + multiset{x}
    decreases |s|
  {
    if |s| > 0 && key(s[0]) >= key(x) {
      InsertDescMultiset(s[1..], x, key);
      assert s == [s[0]] + s[1..];
    }
  }

  /** Inserting into a descending sequence keeps it descending. */
  lemma {:induction false} InsertDescSorted<T>(s: seq<T>, x: T, key: T -> real)
    requires Descending(s, key)
    ensures Descending(InsertDesc(s, x, key), key)
    decreases |s|
  {
    if |s| > 0 && key(s[0]) >= key(x) {
      var rest := InsertDesc(s[1..], x, key);
      assert Descending(s[1..], key);
      InsertDescSorted(s[1..], x, key);
      InsertDescMultiset(s[1..], x, key);
      HeadDominates(s, x, key, rest);
      ConsDescending(s[0], rest, key);
    } else if |s| > 0 {
      ConsDescending(x, s, key);
    }
  }

  /** The head of a descending sequence has a key no smaller than those of
      the other elements and of anything inserted behind it. */
  lemma HeadDominates<T>(s: seq<T>, x: T, key: T -> real, rest: seq<T>)
    requires Descending(s, key) && |s| > 0 && key(s[0]) >= key(x)
    requires multiset(rest) == multiset(s[1..]) + multiset{x}
    ensures forall j :: 0 <= j < |rest| ==> key(s[0]) >= key(rest[j])
  {
    forall j | 0 <= j < |rest|
      ensures key(s[0]) >= key(rest[j])
    {
      assert rest[j] in multiset(rest);
      if rest[j] != x {
        assert rest[j] in multiset(s[1..]);
        var m :| 0 <= m < |s[1..]| && s[1..][m] == rest[j];
        assert s[m + 1] == rest[j];
      }
    }
  }

  lemma ConsDescending<T>(h: T, t: seq<T>, key: T -> real)
    requires Descending(t, key)
    requires forall j :: 0 <= j < |t| ==> key(h) >= key(t[j])
    ensures Descending([h] + t, key)
  {
    var r := [h] + t;
    forall i, j | 0 <= i < j < |r|
      ensures key(r[i]) >= key(r[j])
    {
      assert r[j] == t[j - 1];
      if i > 0 {
        assert r[i] == t[i - 1];
      }
    }
  }

  /** `sort(key=key, reverse=True)`: an insertion sort over the elements in
      their original order. */
  function SortDesc<T>(xs: seq<T>, key: T -> real): (r: seq<T>)
    ensures Descending(r, key)
    ensures multiset(r) == multiset(xs)
    ensures |r| == |xs|
    decreases |xs|
  {
    if |xs| == 0 then []
    else
      var n := |xs| - 1;
      var sorted := SortDesc(xs[..n], key);
      InsertDescSorted(sorted, xs[n], key);
      InsertDescMultiset(sorted, xs[n], key);
      assert xs == xs[..n] + [xs[n]];
      InsertDesc(sorted, xs[n], key)
  }

  /** The elements whose key is `v`, in order. */
  function WithKey<T>(s: seq<T>, key: T -> real, v: real): seq<T>
    decreases |s|
  {
    if |s| == 0 then [] else (if key(s[0]) == v then [s[0]] else []) + WithKey(s[1..], key, v)
  }

  lemma {:induction false} WithKeyAppend<T>(a: seq<T>, b: seq<T>, key: T -> real, v: real)
    ensures WithKey(a + b, key, v) == WithKey(a, key, v) + WithKey(b, key, v)
    decreases |a|
  {
    if |a| > 0 {
      assert (a + b)[1..] == a[1..] + b;
      WithKeyAppend(a[1..], b, key, v);
    } else {
      assert a + b == b;
    }
  }

  /** In a descending sequence `x` lands after all elements with its key. */
  lemma {:induction false} WithKeyInsert<T>(s: seq<T>, x: T, key: T -> real, v: real)
    requires Descending(s, key)
    ensures WithKey(InsertDesc(s, x, key), key, v) == WithKey(s, key, v) + (if key(x) == v then [x] else [])
    decreases |s|
  {
    if |s| == 0 {
    } else if key(s[0]) < key(x) {
      var r := InsertDesc(s, x, key);
      assert r == [x] + s;
      assert r[1..] == s;
      if key(x) == v {
        WithKeyNone(s, key, v);
      }
    } else {
      assert Descending(s[1..], key);
      var rest := InsertDesc(s[1..], x, key);
      assert InsertDesc(s, x, key) == [s[0]] + rest;
      WithKeyInsert(s[1..], x, key, v);
      WithKeyCons(s[0], rest, key, v);
      WithKeyCons(s[0], s[1..], key, v);
      assert [s[0]] + s[1..] == s;
    }
  }

  lemma WithKeyCons<T>(h: T, t: seq<T>, key: T -> real, v: real)
    ensures WithKey([h] + t, key, v) == (if key(h) == v then [h] else []) + WithKey(t, key, v)
  {
    assert ([h] + t)[1..] == t;
  }

  /** No element of a descending sequence whose head is below `v` has key `v`. */
  lemma {:induction false} WithKeyNone<T>(s: seq<T>, key: T -> real, v: real)
    requires Descending(s, key)
    requires forall i :: 0 <= i < |s| ==> key(s[i]) < v
    ensures WithKey(s, key, v) == []
    decreases |s|
  {
    if |s| > 0 {
      WithKeyNone(s[1..], key, v);
    }
  }

  /** Stability: among the elements with any one key, the sorted sequence
      keeps their original order. */
  lemma {:induction false} SortDescStable<T>(xs: seq<T>, key: T -> real, v: real)
    ensures WithKey(SortDesc(xs, key), key, v) == WithKey(xs, key, v)
    decreases |xs|
  {
    if |xs| > 0 {
      var n := |xs| - 1;
      SortDescStable(xs[..n], key, v);
      WithKeyInsert(SortDesc(xs[..n], key), xs[n], key, v);
      assert xs == xs[..n] + [xs[n]];
      WithKeyAppend(xs[..n], [xs[n]], key, v);
      assert WithKey([xs[n]], key, v) == (if key(xs[n]) == v then [xs[n]] else []) by {
        assert [xs[n]][1..] == [];
      }
    }
  }

  /** The head of the stably sorted sequence is the element `max` picks. */
  lemma {:induction false} SortHeadIsFirstMax<T>(xs: seq<T>, key: T -> real)
    requires |xs| > 0
    ensures SortDesc(xs, key)[0] == xs[FirstMax(xs, key).value]
    decreases |xs|
  {
    var n := |xs| - 1;
    if n > 0 {
      SortHeadIsFirstMax(xs[..n], key);
    }
  }

  /* ---------- counting ---------- */

  /** How many elements satisfy `p`. */
  function Count<T>(s: seq<T>, p: T -> bool): (c: nat)
    ensures c <= |s|
    decreases |s|
  {
    if |s| == 0 then 0 else (if p(s[0]) then 1 else 0) + Count(s[1..], p)
  }

  lemma {:induction false} CountInsert<T>(s: seq<T>, x: T, key: T -> real, p: T -> bool)
    ensures Count(InsertDesc(s, x, key), p) == Count(s, p) + (if p(x) then 1 else 0)
    decreases |s|
  {
    if |s| > 0 && key(s[0]) >= key(x) {
      var r := InsertDesc(s, x, key);
      assert r[1..] == InsertDesc(s[1..], x, key);
      CountInsert(s[1..], x, key, p);
    } else if |s| > 0 {
      assert InsertDesc(s, x, key)[1..] == s;
    }
  }

  lemma {:induction false} CountAppendOne<T>(s: seq<T>, x: T, p: T -> bool)
    ensures Count(s + [x], p) == Count(s, p) + (if p(x) then 1 else 0)
    decreases |s|
  {
    if |s| > 0 {
      assert (s + [x])[1..] == s[1..] + [x];
      CountAppendOne(s[1..], x, p);
    } else {
      assert s + [x] == [x];
    }
  }

  /** Sorting keeps the number of elements with any property. */
  lemma {:induction false} CountSort<T>(xs: seq<T>, key: T -> real, p: T -> bool)
    ensures Count(SortDesc(xs, key), p) == Count(xs, p)
    decreases |xs|
  {
    if |xs| > 0 {
      var n := |xs| - 1;
      CountSort(xs[..n], key, p);
      CountInsert(SortDesc(xs[..n], key), xs[n], key, p);
      assert xs == xs[..n] + [xs[n]];
      CountAppendOne(xs[..n], xs[n], p);
    }
  }

  /** A count of one means exactly one position has the property. */
  lemma {:induction false} CountOne<T>(s: seq<T>, p: T -> bool)
    requires Count(s, p) == 1
    ensures exists i :: 0 <= i < |s| && p(s[i])
    ensures forall i, j :: 0 <= i < |s| && 0 <= j < |s| && p(s[i]) && p(s[j]) ==> i == j
    decreases |s|
  {
    if p(s[0]) {
      CountZero(s[1..], p);
      forall i | 1 <= i < |s| ensures !p(s[i]) {
        assert s[i] == s[1..][i - 1];
      }
    } else {
      CountOne(s[1..], p);
      var k :| 0 <= k < |s[1..]| && p(s[1..][k]);
      assert p(s[k + 1]);
      forall i, j | 0 <= i < |s| && 0 <= j < |s| && p(s[i]) && p(s[j]) ensures i == j {
        assert i > 0 && j > 0;
        assert s[i] == s[1..][i - 1] && s[j] == s[1..][j - 1];
      }
    }
  }

  lemma {:induction false} CountZero<T>(s: seq<T>, p: T -> bool)
    requires Count(s, p) == 0
    ensures forall i :: 0 <= i < |s| ==> !p(s[i])
    decreases |s|
  {
    if |s| > 0 {
      CountZero(s[1..], p);
      forall i | 1 <= i < |s| ensures !p(s[i]) {
        assert s[i] == s[1..][i - 1];
      }
    }
  }

  /* ---------- the performance summary ---------- */

  /** One model's test metrics, as `train_models` records them. */
  datatype Scored = Scored(name: string, mse: real, r2: real, mae: real)

  function R2Of(s: Scored): real { s.r2 }

  /** No two results share a name, as the keys of a dict. */
  predicate DistinctNames(results: seq<Scored>) {
    forall i, j :: 0 <= i < j < |results| ==> results[i].name != results[j].name
  }

  /** One element of `performance_metrics`. */
  datatype PerfEntry = PerfEntry(modelName: string, mse: real, r2Score: real, mae: real, bestModel: bool)

  function PerfR2(e: PerfEntry): real { e.r2Score }

  function IsFlagged(e: PerfEntry): bool { e.bestModel }

  /** Lines 83-91: one entry per result, flagged when its name is the name
      `max` picks. */
  function Entries(results: seq<Scored>): (r: seq<PerfEntry>)
    ensures |r| == |results|
    ensures forall i :: 0 <= i < |r| ==>
              && r[i].modelName == results[i].name
              && r[i].r2Score == results[i].r2
              && (r[i].bestModel <==> results[i].name == results[FirstMax(results, R2Of).value].name)
  {
    if |results| == 0 then []
    else
      var best := results[FirstMax(results, R2Of).value].name;
      seq(|results|, i requires 0 <= i < |results| =>
        PerfEntry(results[i].name, results[i].mse, results[i].r2, results[i].mae, results[i].name == best))
  }

  /** The answer of `get_performance_metrics` on success. */
  datatype PerformanceReport = PerformanceReport(metrics: seq<PerfEntry>, bestModel: Option<string>)

  /** Lines 82-100: the entries sorted by R², best first, and the name at
      the head. */
  function Summary(results: seq<Scored>): (r: PerformanceReport)
    ensures |r.metrics| == |results|
    ensures Descending(r.metrics, PerfR2)
    ensures multiset(r.metrics) == multiset(Entries(results))
    ensures r.bestModel.None? <==> |results| == 0
    ensures r.bestModel.Some? ==>
              && r.bestModel.value == results[FirstMax(results, R2Of).value].name
              && r.metrics[0].bestModel
              && r.metrics[0].r2Score == results[FirstMax(results, R2Of).value].r2
  {
    var entries := Entries(results);
    var sorted := SortDesc(entries, PerfR2);
    if |sorted| == 0 then PerformanceReport(sorted, None)
    else
      SortHeadIsFirstMax(entries, PerfR2);
      assert FirstMax(entries, PerfR2) == FirstMax(results, R2Of) by {
        var a := FirstMax(entries, PerfR2).value;
        var b := FirstMax(results, R2Of).value;
        assert IsFirstMax(results, R2Of, a);
        FirstMaxUnique(results, R2Of, a, b);
      }
      PerformanceReport(sorted, Some(sorted[0].modelName))
  }

  /** With distinct names exactly one entry is flagged best, before and
      after sorting. */
  lemma ExactlyOneBest(results: seq<Scored>)
    requires DistinctNames(results) && |results| > 0
    ensures Count(Entries(results), IsFlagged) == 1
    ensures Count(Summary(results).metrics, IsFlagged) == 1
  {
    var entries := Entries(results);
    var b := FirstMax(results, R2Of).value;
    assert forall i :: 0 <= i < |entries| ==> (IsFlagged(entries[i]) <==> i == b);
    CountExactlyAt(entries, IsFlagged, b);
    CountSort(entries, PerfR2, IsFlagged);
  }

  lemma {:induction false} CountExactlyAt<T>(s: seq<T>, p: T -> bool, b: nat)
    requires b < |s|
    requires forall i :: 0 <= i < |s| ==> (p(s[i]) <==> i == b)
    ensures Count(s, p) == 1
    decreases |s|
  {
    if b == 0 {
      CountNone(s[1..], p);
    } else {
      CountExactlyAt(s[1..], p, b - 1);
    }
  }

  lemma {:induction false} CountNone<T>(s: seq<T>, p: T -> bool)
    requires forall i :: 0 <= i < |s| ==> !p(s[i])
    ensures Count(s, p) == 0
    decreases |s|
  {
    if |s| > 0 {
      CountNone(s[1..], p);
    }
  }
}
