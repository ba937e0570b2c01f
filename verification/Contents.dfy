/** What `build_series` makes of the stored rows, value by value. */
module Contents {
  import opened Model
  import opened Seqs
  import opened Sorting
  import opened Metrics
  import opened Series
  import opened Rows

  /** `int(ts * 1000)`: the integer part of a thousand times the timestamp, towards zero. */
  lemma MillisTruncates(ts: real)
    ensures ts >= 0.0 ==> 0 <= Millis(ts) && Millis(ts) as real <= 1000.0 * ts < Millis(ts) as real + 1.0
    ensures ts <= 0.0 ==> Millis(ts) <= 0 && Millis(ts) as real - 1.0 < 1000.0 * ts <= Millis(ts) as real
  {
  }

  /** The metric is stored under these labels with this value. */
  predicate StoredAs(m: Metric, labels: Labels, v: real) {
    labels == [Label("__name__", m.name)] + m.extra && v == m.value
  }

  /** Some row of one of the tables yields the sample. */
  ghost predicate Yields(rows: seq<StoredSample>, labels: Labels, v: real, ms: int) {
    exists row, m :: row in rows && m in Project(row.payload) && StoredAs(m, labels, v) && ms == Millis(row.ts)
  }

  lemma RowYields(row: StoredSample, labels: Labels, v: real, ms: int)
    ensures Point(labels, Sample(v, ms)) in RowPoints(row) <==>
      ms == Millis(row.ts) && exists m :: m in Project(row.payload) && StoredAs(m, labels, v)
  {
    var metrics := Project(row.payload);
    if Point(labels, Sample(v, ms)) in RowPoints(row) {
      var i :| 0 <= i < |metrics| && RowPoints(row)[i] == Point(labels, Sample(v, ms));
      assert metrics[i] in metrics && StoredAs(metrics[i], labels, v);
    }
    if ms == Millis(row.ts) && exists m :: m in metrics && StoredAs(m, labels, v) {
      var m :| m in metrics && StoredAs(m, labels, v);
      var i :| 0 <= i < |metrics| && metrics[i] == m;
      assert RowPoints(row)[i] == Point(labels, Sample(v, ms));
    }
  }

  lemma TableYields(rows: seq<StoredSample>, labels: Labels, v: real, ms: int)
    ensures Point(labels, Sample(v, ms)) in TablePoints(rows) <==> Yields(rows, labels, v, ms)
  {
    var parts := Map(rows, RowPoints);
    JoinHas(parts, Point(labels, Sample(v, ms)));
    if Point(labels, Sample(v, ms)) in TablePoints(rows) {
      var i :| 0 <= i < |parts| && Point(labels, Sample(v, ms)) in parts[i];
      RowYields(rows[i], labels, v, ms);
      assert rows[i] in rows;
    }
    if Yields(rows, labels, v, ms) {
      var row, m :| row in rows && m in Project(row.payload) && StoredAs(m, labels, v) && ms == Millis(row.ts);
      var i :| 0 <= i < |rows| && rows[i] == row;
      RowYields(row, labels, v, ms);
      assert Point(labels, Sample(v, ms)) in parts[i];
    }
  }

  /** Series of points: exactly the samples that were emitted under their labels. */
  lemma AssembledHas<L(!new)>(points: seq<Point<L>>, labels: L, s: PushSample)
    ensures (exists ts :: ts in Assemble(points) && ts.labels == labels && s in ts.samples) <==>
      Point(labels, s) in points
  {
    if ts :| ts in Assemble(points) && ts.labels == labels && s in ts.samples {
      SampleEmitted(points, ts, s);
    }
    if Point(labels, s) in points {
      EmittedSamples(points, Point(labels, s));
      FirstSeenDistinct(points);
      var i :| 0 <= i < |FirstSeen(points)| && FirstSeen(points)[i] == labels;
      var ts := Assemble(points)[i];
      StableSortCorrect(SamplesOf(points, labels), Time);
      assert s in multiset(SamplesOf(points, labels));
      assert s in multiset(ts.samples);
      assert ts in Assemble(points) && ts.labels == labels && s in ts.samples;
    }
  }

  /** A series holds a sample exactly when some metric of some row says so: the metric's name and
      extra labels, its value, and the row's timestamp in milliseconds. */
  lemma SeriesHoldMetrics(modem: seq<StoredSample>, probe: seq<StoredSample>, mtr: seq<StoredSample>,
                          labels: Labels, v: real, ms: int)
    ensures
      (exists ts :: ts in BuildSeries(modem, probe, mtr) && ts.labels == labels && Sample(v, ms) in ts.samples) <==>
      Yields(modem, labels, v, ms) || Yields(probe, labels, v, ms) || Yields(mtr, labels, v, ms)
  {
    AssembledHas(AllPoints(modem, probe, mtr), labels, Sample(v, ms));
    TableYields(modem, labels, v, ms);
    TableYields(probe, labels, v, ms);
    TableYields(mtr, labels, v, ms);
  }

  // ----- how often -----

  /** How many of the metrics are stored under these labels with this value. */
  function CountMetrics(metrics: seq<Metric>, labels: Labels, v: real): nat {
    if metrics == [] then 0
    else (if StoredAs(metrics[0], labels, v) then 1 else 0) + CountMetrics(metrics[1..], labels, v)
  }

  /** How often the rows yield the sample. */
  function CountRows(rows: seq<StoredSample>, labels: Labels, v: real, ms: int): nat {
    if rows == [] then 0
    else
      (if Millis(rows[0].ts) == ms then CountMetrics(Project(rows[0].payload), labels, v) else 0)
      + CountRows(rows[1..], labels, v, ms)
  }

  lemma {:induction false} MetricsCount(metrics: seq<Metric>, at: int, labels: Labels, v: real, ms: int)
    ensures multiset(Map(metrics, Stamped(at)))[Point(labels, Sample(v, ms))] ==
      if at == ms then CountMetrics(metrics, labels, v) else 0
  {
    if metrics != [] {
      var points := Map(metrics, Stamped(at));
      MetricsCount(metrics[1..], at, labels, v, ms);
      CountCons(points, Point(labels, Sample(v, ms)));
      assert points[1..] == Map(metrics[1..], Stamped(at));
    }
  }

  lemma CountSum<T>(a: seq<T>, b: seq<T>, x: T)
    ensures multiset(a + b)[x] == multiset(a)[x] + multiset(b)[x]
  {
  }

  lemma {:induction false} RowsCount(rows: seq<StoredSample>, labels: Labels, v: real, ms: int)
    ensures multiset(TablePoints(rows))[Point(labels, Sample(v, ms))] == CountRows(rows, labels, v, ms)
  {
    if rows != [] {
      RowsCount(rows[1..], labels, v, ms);
      MetricsCount(Project(rows[0].payload), Millis(rows[0].ts), labels, v, ms);
      assert Map(rows, RowPoints)[1..] == Map(rows[1..], RowPoints);
      CountSum(RowPoints(rows[0]), TablePoints(rows[1..]), Point(labels, Sample(v, ms)));
    }
  }

  /** And as often as the rows say so: equal samples of two rows both arrive. */
  lemma SeriesCountMetrics(modem: seq<StoredSample>, probe: seq<StoredSample>, mtr: seq<StoredSample>,
                           ts: RowSeries, v: real, ms: int)
    requires ts in BuildSeries(modem, probe, mtr)
    ensures multiset(ts.samples)[Sample(v, ms)] ==
      CountRows(modem, ts.labels, v, ms) + CountRows(probe, ts.labels, v, ms) + CountRows(mtr, ts.labels, v, ms)
  {
    var points, s := AllPoints(modem, probe, mtr), Sample(v, ms);
    StableSortCorrect(SamplesOf(points, ts.labels), Time);
    SamplesOfCount(points, Point(ts.labels, s));
    CountSum(TablePoints(modem) + TablePoints(probe), TablePoints(mtr), Point(ts.labels, s));
    CountSum(TablePoints(modem), TablePoints(probe), Point(ts.labels, s));
    RowsCount(modem, ts.labels, v, ms);
    RowsCount(probe, ts.labels, v, ms);
    RowsCount(mtr, ts.labels, v, ms);
  }
}
