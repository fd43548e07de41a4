/** The vectors the metrics sink creates on first use and finds again by hash. What a vector is called is settled by
    the first report with its hash; what it holds is settled by all of them. */
module MetricCache {
  import opened Prelude
  import opened LabelHash

  datatype Kind = Counter | Gauge

  /** One multi-dimension report: the record it belongs to, the metric, the dimensions, the value. */
  datatype Report = Report(record: Bytes, name: Bytes, labels: seq<Bytes>, values: seq<Bytes>, amount: real)

  /** A vector: its constant label `_name`, the metric and label names, and the value of each series. */
  datatype Vec = Vec(constName: Bytes, name: Bytes, labels: seq<Bytes>, samples: map<seq<Bytes>, real>)

  /** The record's name, an underscore and the metric's. */
  function ConstName(r: Report): (s: Bytes) {
    r.record + [0x5F] + r.name
  }

  ghost function Key(r: Report): (res: Hash) {
    Fnv(OFFSET64, Stream(r.name, r.labels))
  }

  ghost predicate Seen(history: seq<Report>, h: Hash) {
    exists i :: 0 <= i < |history| && Key(history[i]) == h
  }

  /** `i` is the first report with the hash. */
  ghost predicate IsFirst(history: seq<Report>, h: Hash, i: int) {
    0 <= i < |history| && Key(history[i]) == h && forall j :: 0 <= j < i ==> Key(history[j]) != h
  }

  ghost predicate SeenAt(history: seq<Report>, h: Hash, values: seq<Bytes>) {
    exists i :: 0 <= i < |history| && Key(history[i]) == h && history[i].values == values
  }

  /** What one series holds after a history: the sum of a counter's reports, the last report of a gauge. */
  ghost function Folded(kind: Kind, history: seq<Report>, h: Hash, values: seq<Bytes>): (r: real) {
    if history == [] then 0.0
    else
      var before, r := Folded(kind, history[..|history| - 1], h, values), history[|history| - 1];
      if Key(r) != h || r.values != values then before
      else if kind.Counter? then before + r.amount
      else r.amount
  }

  ghost predicate VecMatches(kind: Kind, history: seq<Report>, h: Hash, vec: Vec) {
    && (exists i :: IsFirst(history, h, i) && NamedAfter(vec, history[i]))
    && (forall v :: v in vec.samples <==> |v| == |vec.labels| && SeenAt(history, h, v))
    && (forall v :: v in vec.samples ==> vec.samples[v] == Folded(kind, history, h, v))
  }

  ghost predicate NamedAfter(vec: Vec, r: Report) {
    vec.constName == ConstName(r) && vec.name == r.name && vec.labels == r.labels
  }

  // ----- one more report

  lemma FoldedNext(kind: Kind, history: seq<Report>, r: Report, h: Hash, values: seq<Bytes>)
    ensures Folded(kind, history + [r], h, values)
         == if Key(r) != h || r.values != values then Folded(kind, history, h, values)
            else if kind.Counter? then Folded(kind, history, h, values) + r.amount
            else r.amount
  {
    assert (history + [r])[..|history|] == history;
  }

  /** A counter's series over two stretches of reports is the sum of what it is over each, and one report counts for its
      amount. */
  lemma {:induction false} CounterAdds(a: seq<Report>, b: seq<Report>, r: Report, h: Hash, values: seq<Bytes>)
    ensures Folded(Counter, a + b, h, values) == Folded(Counter, a, h, values) + Folded(Counter, b, h, values)
    ensures Folded(Counter, [r], Key(r), r.values) == r.amount
    decreases |b|
  {
    FoldedNext(Counter, [], r, Key(r), r.values);
    assert [] + [r] == [r];
    hide Key;
    if b == [] {
      assert a + b == a;
    } else {
      var init, last := b[..|b| - 1], b[|b| - 1];
      CounterAdds(a, init, r, h, values);
      FoldedNext(Counter, a + init, last, h, values);
      FoldedNext(Counter, init, last, h, values);
      assert a + b == a + init + [last] && b == init + [last];
    }
  }

  /** A gauge's series is its last report, whatever came before, and other series do not matter. */
  lemma {:induction false} GaugeKeepsLast(a: seq<Report>, r: Report, b: seq<Report>)
    requires !SeenAt(b, Key(r), r.values)
    ensures Folded(Gauge, a + [r] + b, Key(r), r.values) == r.amount
    decreases |b|
  {
    hide Key;
    if b == [] {
      FoldedNext(Gauge, a, r, Key(r), r.values);
      assert a + [r] + b == a + [r];
    } else {
      var init, last := b[..|b| - 1], b[|b| - 1];
      assert b == init + [last];
      SeenNext(init, last, Key(r));
      GaugeKeepsLast(a, r, init);
      FoldedNext(Gauge, a + [r] + init, last, Key(r), r.values);
      assert a + [r] + b == a + [r] + init + [last];
    }
  }

  lemma SeenNext(history: seq<Report>, r: Report, h: Hash)
    ensures Seen(history + [r], h) <==> Seen(history, h) || Key(r) == h
    ensures forall v :: SeenAt(history + [r], h, v) <==> SeenAt(history, h, v) || (Key(r) == h && r.values == v)
    ensures forall i :: IsFirst(history, h, i) ==> IsFirst(history + [r], h, i) && history[i] == (history + [r])[i]
    ensures !Seen(history, h) && Key(r) == h ==> IsFirst(history + [r], h, |history|)
  {
    hide Key;
    var next := history + [r];
    assert forall i :: 0 <= i < |history| ==> next[i] == history[i];
    assert next[|history|] == r;
  }

  lemma {:induction false} FoldedUnseen(kind: Kind, history: seq<Report>, h: Hash, values: seq<Bytes>)
    requires !SeenAt(history, h, values)
    ensures Folded(kind, history, h, values) == 0.0
  {
    hide Key;
    if history != [] {
      var init, last := history[..|history| - 1], history[|history| - 1];
      assert history == init + [last];
      SeenNext(init, last, h);
      FoldedUnseen(kind, init, h, values);
    }
  }

  lemma MatchesOther(kind: Kind, history: seq<Report>, r: Report, h: Hash, vec: Vec)
    requires VecMatches(kind, history, h, vec) && Key(r) != h
    ensures VecMatches(kind, history + [r], h, vec)
  {
    hide Key, Folded, SeenAt, IsFirst, NamedAfter;
    SeenNext(history, r, h);
    forall v | v in vec.samples
      ensures vec.samples[v] == Folded(kind, history + [r], h, v)
    {
      FoldedNext(kind, history, r, h, v);
    }
  }

  /** The vector before any sample, right after its first report. */
  lemma MatchesNew(kind: Kind, history: seq<Report>, r: Report, vec: Vec)
    requires !Seen(history, Key(r)) && NamedAfter(vec, r)
    requires vec.samples == Added(kind, map[], r, |vec.labels|)
    ensures VecMatches(kind, history + [r], Key(r), vec)
  {
    var h := Key(r);
    hide Key, Folded;
    SeenNext(history, r, h);
    assert IsFirst(history + [r], h, |history|) && (history + [r])[|history|] == r;
    FoldedUnseen(kind, history, h, r.values);
    FoldedNext(kind, history, r, h, r.values);
  }

  /** The samples after WithLabelValues and the update; the wrong number of values panics before that. */
  function Added(kind: Kind, samples: map<seq<Bytes>, real>, r: Report, width: nat): (res: map<seq<Bytes>, real>) {
    if |r.values| != width then samples
    else
      var before := if r.values in samples then samples[r.values] else 0.0;
      samples[r.values := if kind.Counter? then before + r.amount else r.amount]
  }

  lemma MatchesAgain(kind: Kind, history: seq<Report>, r: Report, vec: Vec)
    requires VecMatches(kind, history, Key(r), vec)
    ensures VecMatches(kind, history + [r], Key(r), vec.(samples := Added(kind, vec.samples, r, |vec.labels|)))
  {
    var h := Key(r);
    hide Key, Folded, SeenAt;
    SeenNext(history, r, h);
    var i :| IsFirst(history, h, i) && NamedAfter(vec, history[i]);
    var after := vec.(samples := Added(kind, vec.samples, r, |vec.labels|));
    assert NamedAfter(after, (history + [r])[i]);
    if r.values !in vec.samples && |r.values| == |vec.labels| {
      FoldedUnseen(kind, history, h, r.values);
    }
    forall v | v in after.samples
      ensures after.samples[v] == Folded(kind, history + [r], h, v)
    {
      FoldedNext(kind, history, r, h, v);
    }
  }

  class ComposeMetricVec {
    const kind: Kind
    var vecs: map<Hash, Vec>
    ghost var history: seq<Report>

    /** Every hash reported has its vector, named after the first report with the hash and holding, series by series,
        what all reports with the hash amount to. */
    ghost predicate Valid()
      reads this
    {
      && (forall h :: h in vecs <==> Seen(history, h))
      && (forall h :: h in vecs ==> VecMatches(kind, history, h, vecs[h]))
    }

    constructor (kind: Kind)
      ensures Valid() && this.kind == kind && history == []
    {
      this.kind, vecs, history := kind, map[], [];
    }

    /** In any state of the cache a report it has seen is counted under its own `_name` exactly if the first report with
        its hash has the same `_name`. Unless the hash collides by accident, a report whose metric has the name of that
        first one's is counted under its own labels, and under its own `_name` exactly if the record is the same too. */
    lemma OwnNameIff(r: Report) returns (i: nat)
      requires Valid() && Seen(history, Key(r))
      ensures Key(r) in vecs && IsFirst(history, Key(r), i)
      ensures vecs[Key(r)].constName == ConstName(r) <==> ConstName(history[i]) == ConstName(r)
      ensures NamedAfter(vecs[Key(r)], r) <==>
        ConstName(history[i]) == ConstName(r) && history[i].name == r.name && history[i].labels == r.labels
      ensures SameMetricName(history[i], r) ==>
        && vecs[Key(r)].labels == r.labels
        && (vecs[Key(r)].constName == ConstName(r) <==> history[i].record == r.record)
    {
      hide Key, Seen, VecMatches, ConstName;
      i := FirstExists(history, Key(r));
      CountedUnder(kind, history, r, vecs[Key(r)], i);
    }

    /** The multi-dimension branch of a report. Another goroutine may store the vector between the load and the store;
        the one already there is then used, so the two act as one step. */
    method Add(r: Report) returns (panicked: bool)
      requires Valid()
      modifies this
      ensures Valid() && history == old(history) + [r]
      ensures Key(r) in vecs && (panicked <==> |r.values| != |vecs[Key(r)].labels|)
      ensures forall h :: h in old(vecs) && h != Key(r) ==> h in vecs && vecs[h] == old(vecs)[h]
    {
      hide Key, Seen, VecMatches;
      ghost var was, before := history, vecs;
      var hash := LabelsHash(r.name, r.labels);
      assert hash == Key(r) by {
        KeyIsHash(r, hash);
      }
      if hash !in vecs {
        var vec := Vec(ConstName(r), r.name, r.labels, map[]);
        vecs := vecs[hash := vec.(samples := Added(kind, vec.samples, r, |vec.labels|))];
        MatchesNew(kind, was, r, vecs[hash]);
      } else {
        var vec := vecs[hash];
        vecs := vecs[hash := vec.(samples := Added(kind, vec.samples, r, |vec.labels|))];
        MatchesAgain(kind, was, r, vec);
      }
      history := history + [r];
      panicked := |r.values| != |vecs[hash].labels|;
      forall h
        ensures h in vecs <==> Seen(history, h)
        ensures h in vecs && h != hash ==> VecMatches(kind, history, h, vecs[h])
      {
        SeenNext(was, r, h);
        if h in before && h != hash {
          MatchesOther(kind, was, r, h, before[h]);
        }
      }
    }
  }

  lemma {:induction false} FirstExists(history: seq<Report>, h: Hash) returns (i: nat)
    requires Seen(history, h)
    ensures IsFirst(history, h, i)
    decreases |history|
  {
    hide Key;
    var init := history[..|history| - 1];
    if Seen(init, h) {
      i := FirstExists(init, h);
    } else {
      i := |history| - 1;
      assert forall j :: 0 <= j < i ==> history[j] == init[j];
    }
  }

  lemma KeyIsHash(r: Report, h: Hash)
    requires h == Fnv(OFFSET64, Stream(r.name, r.labels))
    ensures h == Key(r)
  {}

  // ----- who shares a vector

  /** The hash tells apart the streams of these two reports. */
  ghost predicate NoAccident(r: Report, q: Report) {
    Key(r) == Key(q) ==> Stream(r.name, r.labels) == Stream(q.name, q.labels)
  }

  /** Without an accidental collision two reports share a vector exactly when name and first label run together to the
      same bytes and the other labels agree; the record plays no part. */
  lemma SharedVecIff(r: Report, q: Report)
    requires r.labels != [] && q.labels != []
    requires SEPARATOR !in r.name && SEPARATOR !in q.name && Separable(r.labels) && Separable(q.labels)
    ensures NoAccident(r, q) ==>
      (Key(r) == Key(q) <==> r.name + r.labels[0] == q.name + q.labels[0] && r.labels[1..] == q.labels[1..])
  {
    hide Fnv, Stream;
    StreamsAgreeIff(r.name, r.labels, q.name, q.labels);
  }

  /** Reports of one metric name whose hashes do not collide by accident, with labels free of separators. */
  ghost predicate SameMetricName(r: Report, q: Report) {
    r.name == q.name && NoAccident(r, q) && Separable(r.labels) && Separable(q.labels)
  }

  lemma CountedUnder(kind: Kind, history: seq<Report>, r: Report, vec: Vec, i: nat)
    requires VecMatches(kind, history, Key(r), vec) && IsFirst(history, Key(r), i)
    ensures NamedAfter(vec, r) <==>
      ConstName(history[i]) == ConstName(r) && history[i].name == r.name && history[i].labels == r.labels
    ensures vec.constName == ConstName(r) <==> ConstName(history[i]) == ConstName(r)
    ensures SameMetricName(history[i], r) ==>
      vec.labels == r.labels && (vec.constName == ConstName(r) <==> history[i].record == r.record)
  {
    hide Key, ConstName, Stream, Separable;
    var k :| IsFirst(history, Key(r), k) && NamedAfter(vec, history[k]);
    assert k == i;
    if SameMetricName(history[i], r) {
      LabelsDetermined(r.name, history[i].labels, r.labels);
      SameNameIff(history[i], r);
    }
  }

  /** Of two reports of one metric name the `_name` is the same exactly if the record is. */
  lemma SameNameIff(r: Report, q: Report)
    requires r.name == q.name
    ensures ConstName(r) == ConstName(q) <==> r.record == q.record
  {
    if ConstName(r) == ConstName(q) {
      assert |r.record| == |q.record|;
      assert ConstName(r)[..|r.record|] == r.record && ConstName(q)[..|q.record|] == q.record;
    }
  }

  /** Different metric names can meet in one `_name`: an underscore may belong to the record or to the metric. */
  lemma NamesMeet(record: Bytes, part: Bytes, name: Bytes, r: Report, q: Report)
    requires r.record == record && r.name == part + [0x5F] + name
    requires q.record == record + [0x5F] + part && q.name == name
    ensures ConstName(r) == ConstName(q)
  {
    assert record + [0x5F] + (part + [0x5F] + name) == record + [0x5F] + part + [0x5F] + name;
  }
}
