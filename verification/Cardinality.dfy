/** Cardinality limits: the collector that keeps only the largest series of one metric vector, and the gatherer that
    truncates metric families. */
module Cardinality {

  type Labels = string

  /** One series of a vector, with the value the limiter compares. */
  datatype Series = Series(labels: Labels, value: real)

  // ----- the collector

  ghost predicate Descending(s: seq<Series>) {
    forall i, j :: 0 <= i < j < |s| ==> s[i].value >= s[j].value
  }

  lemma DescendingAt(s: seq<Series>, i: nat, j: nat)
    requires Descending(s) && i <= j < |s|
    ensures s[i].value >= s[j].value
  {}

  ghost predicate Permuted(s: seq<Series>, t: seq<Series>) {
    multiset(s) == multiset(t)
  }

  ghost function Swap(s: seq<Series>, j: nat): (r: seq<Series>)
    requires 0 < j < |s|
  {
    s[j - 1 := s[j]][j := s[j - 1]]
  }

  lemma SwapPermutes(s: seq<Series>, j: nat)
    requires 0 < j < |s|
    ensures Permuted(Swap(s, j), s)
  {}

  lemma PermutedTrans(a: seq<Series>, b: seq<Series>, c: seq<Series>)
    requires Permuted(a, b) && Permuted(b, c)
    ensures Permuted(a, c)
  {}

  lemma PermutedRefl(s: seq<Series>)
    ensures Permuted(s, s)
  {}

  /** The first `i + 1` series are in descending order but for the one at `j`, which is still on its way down. */
  ghost predicate Sinking(s: seq<Series>, i: nat, j: nat)
    requires j <= i < |s|
  {
    && (forall a, b :: 0 <= a < b <= i && a != j && b != j ==> s[a].value >= s[b].value)
    && (forall b :: j < b <= i ==> s[j].value >= s[b].value)
  }

  lemma SwapSinks(s: seq<Series>, i: nat, j: nat)
    requires 0 < j <= i < |s| && Sinking(s, i, j) && s[j].value > s[j - 1].value
    ensures Sinking(Swap(s, j), i, j - 1)
  {}

  lemma Sunk(s: seq<Series>, i: nat, j: nat)
    requires j <= i < |s| && Sinking(s, i, j) && (j > 0 ==> s[j].value <= s[j - 1].value)
    ensures Descending(s[..i + 1])
  {
    forall a | 0 <= a < j
      ensures s[a].value >= s[j].value
    {
      assert a < j - 1 ==> s[a].value >= s[j - 1].value;
    }
  }

  method Sink(m: array<Series>, i: nat)
    requires i < m.Length && Descending(m[..i])
    modifies m
    ensures Descending(m[..i + 1]) && Permuted(m[..], old(m[..]))
  {
    ghost var was := m[..];
    assert Sinking(was, i, i) by {
      assert was[..i] == m[..i];
      assert forall a :: 0 <= a < i ==> was[..i][a] == was[a];
    }
    hide Permuted, Swap, Sinking, Descending;
    PermutedRefl(was);
    var j: nat := i;
    while j > 0 && m[j].value > m[j - 1].value
      invariant j <= i && Permuted(m[..], was) && Sinking(m[..], i, j)
    {
      ghost var before := m[..];
      SwapElements(m, j);
      SwapPermutes(before, j);
      SwapSinks(before, i, j);
      PermutedTrans(m[..], before, was);
      j := j - 1;
    }
    Sunk(m[..], i, j);
    assert m[..][..i + 1] == m[..i + 1];
  }

  method SwapElements(m: array<Series>, j: nat)
    requires 0 < j < m.Length
    modifies m
    ensures m[..] == Swap(old(m[..]), j)
  {
    m[j], m[j - 1] := m[j - 1], m[j];
  }

  /** sort.Slice with `>` on values: any arrangement in descending order; insertion sort is one way to get it. */
  method SortDescending(m: array<Series>)
    modifies m
    ensures Descending(m[..]) && Permuted(m[..], old(m[..]))
  {
    hide Permuted;
    PermutedRefl(m[..]);
    for i := 0 to m.Length
      invariant Descending(m[..i])
      invariant Permuted(m[..], old(m[..]))
    {
      ghost var before := m[..];
      Sink(m, i);
      PermutedTrans(m[..], before, old(m[..]));
    }
    assert m[..m.Length] == m[..];
  }

  /** A metric vector: the value of each label set. */
  class MetricVec {
    var series: map<Labels, real>

    method Delete(labels: Labels)
      modifies this
      ensures series == old(series) - {labels}
    {
      series := series - {labels};
    }
  }

  /** `s` lists the series of `vec`, each once. */
  ghost predicate Lists(s: seq<Series>, vec: map<Labels, real>) {
    && (forall i :: 0 <= i < |s| ==> s[i].labels in vec && vec[s[i].labels] == s[i].value)
    && (forall l :: l in vec ==> Series(l, vec[l]) in s)
    && (forall i, j :: 0 <= i < j < |s| ==> s[i].labels != s[j].labels)
  }

  ghost predicate Distinct(s: seq<Series>) {
    forall i, j :: 0 <= i < j < |s| ==> s[i] != s[j]
  }

  lemma {:induction false} DistinctCounts(s: seq<Series>, x: Series)
    ensures Distinct(s) ==> multiset(s)[x] <= 1
  {
    if s != [] {
      var init, y := s[..|s| - 1], s[|s| - 1];
      assert s == init + [y];
      DistinctCounts(init, x);
      if Distinct(s) && x == y {
        assert x !in init;
      }
    }
  }

  lemma {:induction false} CountsDistinct(s: seq<Series>)
    requires forall x :: multiset(s)[x] <= 1
    ensures Distinct(s)
  {
    forall i, j | 0 <= i < j < |s|
      ensures s[i] != s[j]
    {
      assert s == s[..j] + [s[j]] + s[j + 1..];
      assert multiset(s) == multiset(s[..j]) + multiset{s[j]} + multiset(s[j + 1..]);
      assert s[..j][i] in multiset(s[..j]);
      assert multiset(s)[s[j]] <= 1;
    }
  }

  /** Reordering a listing gives a listing. */
  lemma ListsPermuted(s: seq<Series>, t: seq<Series>, vec: map<Labels, real>)
    requires Lists(s, vec) && Permuted(t, s)
    ensures Lists(t, vec) && |t| == |s|
  {
    forall x
      ensures x in t <==> x in s
    {
      assert x in multiset(t) <==> x in multiset(s);
    }
    forall x: Series
      ensures multiset(t)[x] <= 1
    {
      DistinctCounts(s, x);
    }
    CountsDistinct(t);
    assert |multiset(t)| == |multiset(s)|;
    forall i, j | 0 <= i < j < |t|
      ensures t[i].labels != t[j].labels
    {
      assert t[i] in s && t[j] in s;
    }
    forall i | 0 <= i < |t|
      ensures t[i].labels in vec && vec[t[i].labels] == t[i].value
    {
      assert t[i] in s;
    }
  }

  /** What Collect does above its limit: the emitted series are the largest, at most `limit` of them and all above one,
      and the vector is left with exactly those. */
  ghost predicate KeepsLargest(emitted: seq<Series>, limit: int, before: map<Labels, real>, after: map<Labels, real>) {
    && Lists(emitted, after)
    && (forall l :: l in after ==> l in before && before[l] == after[l])
    && (emitted == [] || |emitted| <= limit)
    && (forall e :: e in emitted ==> e.value > 1.0)
    && (forall e, l :: e in emitted && l in before && l !in after ==> e.value >= before[l])
    // a series above one goes only when the limit is used up
    && (forall l :: l in before && l !in after && before[l] > 1.0 ==> |emitted| >= limit)
  }

  /** The series of `m` from position `k` on are gone from the vector, the others are still there. */
  ghost predicate Cut(m: seq<Series>, k: nat, n: nat, before: map<Labels, real>, after: map<Labels, real>)
    requires k <= n <= |m|
  {
    && (forall l :: l in after <==> l in before && forall j :: k <= j < n ==> m[j].labels != l)
    && (forall l :: l in after ==> after[l] == before[l])
  }

  lemma CutLists(m: seq<Series>, k: nat, before: map<Labels, real>, after: map<Labels, real>)
    requires Lists(m, before) && k <= |m| && Cut(m, k, |m|, before, after)
    ensures Lists(m[..k], after)
  {
    forall i | 0 <= i < k
      ensures m[i].labels in after && after[m[i].labels] == m[i].value
    {
      assert m[i].labels in before;
    }
    forall l | l in after
      ensures Series(l, after[l]) in m[..k]
    {
      assert Series(l, before[l]) in m;
      var i :| 0 <= i < |m| && m[i] == Series(l, before[l]);
      assert m[..k][i] == m[i];
    }
  }

  lemma CutGone(m: seq<Series>, k: nat, before: map<Labels, real>, after: map<Labels, real>, l: Labels) returns (j: nat)
    requires Lists(m, before) && k <= |m| && Cut(m, k, |m|, before, after)
    requires l in before && l !in after
    ensures k <= j < |m| && m[j].labels == l && m[j].value == before[l]
  {
    j :| k <= j < |m| && m[j].labels == l;
  }

  lemma CutKeeps(m: seq<Series>, k: nat, before: map<Labels, real>, after: map<Labels, real>)
    requires k <= |m| && Cut(m, k, |m|, before, after)
    ensures forall l :: l in after ==> l in before && before[l] == after[l]
  {}

  lemma CutKeepsLargest(m: seq<Series>, k: nat, limit: int, before: map<Labels, real>, after: map<Labels, real>)
    requires Lists(m, before) && Descending(m) && k <= |m| && (k == 0 || k <= limit)
    requires forall i :: 0 <= i < k ==> m[i].value > 1.0
    requires k < |m| ==> m[k].value <= 1.0 || k >= limit
    requires Cut(m, k, |m|, before, after)
    ensures KeepsLargest(m[..k], limit, before, after)
  {
    hide Lists, Cut, Descending;
    CutLists(m, k, before, after);
    CutKeeps(m, k, before, after);
    forall e, l | e in m[..k] && l in before && l !in after
      ensures e.value >= before[l]
    {
      var i :| 0 <= i < k && m[i] == e;
      var j := CutGone(m, k, before, after, l);
      DescendingAt(m, i, j);
    }
    forall l | l in before && l !in after && before[l] > 1.0
      ensures k >= limit
    {
      var j := CutGone(m, k, before, after, l);
      DescendingAt(m, k, j);
    }
  }

  lemma CutNone(m: seq<Series>, k: nat, before: map<Labels, real>, after: map<Labels, real>)
    requires k <= |m|
    ensures Cut(m, k, k, before, after) <==> after == before
  {}

  lemma CutOne(m: seq<Series>, k: nat, n: nat, before: map<Labels, real>, after: map<Labels, real>)
    requires k <= n < |m| && Cut(m, k, n, before, after)
    ensures Cut(m, k, n + 1, before, after - {m[n].labels})
  {}

  class LimitCardinalityCollector {
    const metricCollector: MetricVec
    const limit: int

    constructor (metricCollector: MetricVec, limit: int)
      ensures this.metricCollector == metricCollector && this.limit == limit
    {
      this.metricCollector, this.limit := metricCollector, limit;
    }

    /** `results` is what the wrapped vector's own Collect sent. The emitted series go out in no particular order. */
    method Collect(results: seq<Series>) returns (emitted: seq<Series>)
      requires Lists(results, metricCollector.series)
      modifies metricCollector
      ensures |results| <= limit ==> emitted == results && metricCollector.series == old(metricCollector.series)
      ensures |results| > limit ==> KeepsLargest(emitted, limit, old(metricCollector.series), metricCollector.series)
    {
      if |results| <= limit {
        return results;
      }
      ghost var before := metricCollector.series;
      hide Lists, KeepsLargest, Permuted, Descending;
      var m := new Series[|results|](i requires 0 <= i < |results| => results[i]);
      assert m[..] == results;
      SortDescending(m);
      ListsPermuted(results, m[..], before);
      emitted := DeleteSmall(m);
    }

    /** Goes through the sorted series and deletes from the vector those not worth more than one and those beyond the
        limit. */
    method DeleteSmall(m: array<Series>) returns (emitted: seq<Series>)
      requires Descending(m[..]) && Lists(m[..], metricCollector.series)
      modifies metricCollector
      ensures KeepsLargest(emitted, limit, old(metricCollector.series), metricCollector.series)
    {
      hide Descending, Lists, KeepsLargest, Cut;
      ghost var before, sorted := metricCollector.series, m[..];
      ghost var k := 0;
      emitted := [];
      CutNone(sorted, 0, before, before);
      for i := 0 to m.Length
        invariant k == |emitted| <= i && (k == 0 || k <= limit)
        invariant forall j :: 0 <= j < k ==> emitted[j] == sorted[j] && sorted[j].value > 1.0
        invariant k < i ==> sorted[k].value <= 1.0 || k >= limit
        invariant Cut(sorted, k, i, before, metricCollector.series)
      {
        var shouldDelete := m[i].value <= 1.0 || i >= limit;
        if shouldDelete {
          CutOne(sorted, k, i, before, metricCollector.series);
          metricCollector.Delete(m[i].labels);
        } else {
          DescendingAt(sorted, k, i);
          CutNone(sorted, i, before, metricCollector.series);
          CutNone(sorted, i + 1, before, metricCollector.series);
          emitted := emitted + [m[i]];
          k := k + 1;
        }
      }
      assert emitted == sorted[..k];
      CutKeepsLargest(sorted, k, limit, before, metricCollector.series);
    }
  }

  // ----- the gatherer

  datatype Family = Family(name: string, metrics: seq<int>)

  function Oversized(f: Family, perMetricLimit: int): (r: bool) {
    perMetricLimit > 0 && |f.metrics| > perMetricLimit
  }

  /** The first metrics stay, as many as the limit allows. */
  function Truncate(f: Family, perMetricLimit: int): (r: Family)
    ensures r.name == f.name && r.metrics <= f.metrics
    ensures perMetricLimit <= 0 || |f.metrics| <= perMetricLimit ==> r == f
    ensures 0 < perMetricLimit <= |f.metrics| ==> |r.metrics| == perMetricLimit
  {
    if Oversized(f, perMetricLimit) then f.(metrics := f.metrics[..perMetricLimit]) else f
  }

  function TruncateAll(fs: seq<Family>, perMetricLimit: int): (r: seq<Family>)
    ensures |r| == |fs|
  {
    seq(|fs|, i requires 0 <= i < |fs| => Truncate(fs[i], perMetricLimit))
  }

  /** The metrics in the first `n` families after truncation. */
  function Total(fs: seq<Family>, perMetricLimit: int, n: nat): (r: nat)
    requires n <= |fs|
  {
    if n == 0 then 0 else Total(fs, perMetricLimit, n - 1) + |Truncate(fs[n - 1], perMetricLimit).metrics|
  }

  lemma {:induction false} TotalMonotone(fs: seq<Family>, perMetricLimit: int, n: nat, k: nat)
    requires n <= k <= |fs|
    ensures Total(fs, perMetricLimit, n) <= Total(fs, perMetricLimit, k)
    decreases k
  {
    if n < k {
      TotalMonotone(fs, perMetricLimit, n, k - 1);
    }
  }

  /** A longer prefix would exceed the limit. */
  ghost predicate LongestPrefix(fs: seq<Family>, perMetricLimit: int, totalLimit: int, n: nat)
    requires n <= |fs|
  {
    totalLimit > 0 ==>
      && Total(fs, perMetricLimit, n) <= totalLimit
      && forall k :: n < k <= |fs| ==> Total(fs, perMetricLimit, k) > totalLimit
  }

  /** Some family among the first `n` is over its limit and belongs to the group. */
  ghost predicate SawOversized(fs: seq<Family>, perMetricLimit: int, group: string, n: nat)
    requires n <= |fs|
  {
    exists i :: 0 <= i < n && 0 < perMetricLimit < |fs[i].metrics| && group <= fs[i].name
  }

  const CLIENT := "rpc_client"
  const SERVER := "rpc_server"

  lemma TruncatedAt(fs: seq<Family>, perMetricLimit: int, n: nat, kept: seq<Family>)
    requires n <= |fs| && |kept| == n
    requires forall k :: 0 <= k < n ==> kept[k] == Truncate(fs[k], perMetricLimit)
    ensures kept == TruncateAll(fs[..n], perMetricLimit)
  {}

  lemma TooLong(fs: seq<Family>, perMetricLimit: int, totalLimit: int, n: nat)
    requires n < |fs| && Total(fs, perMetricLimit, n) <= totalLimit < Total(fs, perMetricLimit, n + 1)
    ensures LongestPrefix(fs, perMetricLimit, totalLimit, n)
  {
    forall k | n < k <= |fs|
      ensures Total(fs, perMetricLimit, k) > totalLimit
    {
      TotalMonotone(fs, perMetricLimit, n + 1, k);
    }
  }

  lemma TotalNone(fs: seq<Family>, perMetricLimit: int)
    ensures Total(fs, perMetricLimit, 0) == 0
    ensures forall group :: !SawOversized(fs, perMetricLimit, group, 0)
  {}

  lemma TotalNext(fs: seq<Family>, perMetricLimit: int, n: nat)
    requires n < |fs|
    ensures Total(fs, perMetricLimit, n + 1)
         == Total(fs, perMetricLimit, n) + |Truncate(fs[n], perMetricLimit).metrics|
  {}

  lemma WholePrefix(fs: seq<Family>, perMetricLimit: int, totalLimit: int)
    requires totalLimit > 0 ==> Total(fs, perMetricLimit, |fs|) <= totalLimit
    ensures LongestPrefix(fs, perMetricLimit, totalLimit, |fs|)
  {}

  lemma SawNext(fs: seq<Family>, perMetricLimit: int, group: string, n: nat)
    requires n < |fs|
    ensures SawOversized(fs, perMetricLimit, group, n + 1)
         <==> SawOversized(fs, perMetricLimit, group, n) || (Oversized(fs[n], perMetricLimit) && group <= fs[n].name)
  {}

  /** Truncates the families in place, in order, and stops at the first that pushes the total over its limit. `n` is
      the number of families returned; each group of counters is reset at most once, namely when an oversized family
      of the group was seen. */
  method Gather(res: array<Family>, perMetricLimit: int, totalLimit: int, processor: seq<Family> -> seq<Family>)
      returns (out: seq<Family>, n: nat, clientResets: nat, serverResets: nat)
    modifies res
    ensures n <= res.Length == |old(res[..])|
    ensures LongestPrefix(old(res[..]), perMetricLimit, totalLimit, n)
    ensures totalLimit <= 0 ==> n == res.Length
    ensures var kept := TruncateAll(old(res[..n]), perMetricLimit);
      out == if n == res.Length then processor(kept) else kept
    ensures var seen := if n < res.Length then n + 1 else n;
      && clientResets == (if SawOversized(old(res[..]), perMetricLimit, "rpc_client", seen) then 1 else 0)
      && serverResets == (if SawOversized(old(res[..]), perMetricLimit, "rpc_server", seen) then 1 else 0)
    ensures var seen := if n < res.Length then n + 1 else n;
      forall k :: 0 <= k < res.Length ==>
        res[k] == if k < seen then Truncate(old(res[..])[k], perMetricLimit) else old(res[..])[k]
  {
    ghost var was := res[..];
    hide Total, SawOversized, LongestPrefix, TruncateAll;
    var total := 0;
    clientResets, serverResets := 0, 0;
    var clientOnce, serverOnce := false, false;
    TotalNone(was, perMetricLimit);
    for i := 0 to res.Length
      invariant total == Total(was, perMetricLimit, i) && (totalLimit > 0 ==> total <= totalLimit)
      invariant forall k :: 0 <= k < i ==> res[k] == Truncate(was[k], perMetricLimit)
      invariant forall k :: i <= k < res.Length ==> res[k] == was[k]
      invariant clientOnce == SawOversized(was, perMetricLimit, CLIENT, i)
      invariant serverOnce == SawOversized(was, perMetricLimit, SERVER, i)
      invariant clientResets == if clientOnce then 1 else 0
      invariant serverResets == if serverOnce then 1 else 0
    {
      SawNext(was, perMetricLimit, CLIENT, i);
      SawNext(was, perMetricLimit, SERVER, i);
      if perMetricLimit > 0 && |res[i].metrics| > perMetricLimit {
        res[i] := res[i].(metrics := res[i].metrics[..perMetricLimit]);
        if CLIENT <= res[i].name && !clientOnce {
          clientOnce, clientResets := true, clientResets + 1;
        }
        if SERVER <= res[i].name && !serverOnce {
          serverOnce, serverResets := true, serverResets + 1;
        }
      }
      total := total + |res[i].metrics|;
      TotalNext(was, perMetricLimit, i);
      if totalLimit > 0 && total > totalLimit {
        n := i;
        out := res[..i];
        TooLong(was, perMetricLimit, totalLimit, i);
        TruncatedAt(was, perMetricLimit, i, out);
        return;
      }
    }
    n := res.Length;
    TruncatedAt(was, perMetricLimit, n, res[..]);
    WholePrefix(was, perMetricLimit, totalLimit);
    out := processor(res[..]);
  }
}
