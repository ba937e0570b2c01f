/** Replay order as the remote sees it: the samples of one series, batch after batch. */
module SeriesReplay {
  import opened Model
  import opened Seqs
  import opened Sorting
  import opened Series
  import opened Metrics
  import opened Rows
  import opened Table
  import opened Delivery
  import opened Protocol
  import opened Replay

  function FamilyName(t: TableName): string {
    match t
    case ModemTable => MODEM_FAMILY
    case ProbeTable => PROBE_FAMILY
    case MtrTable => MTR_FAMILY
  }

  /** The series' metric name belongs to the table. */
  predicate OfTable(labels: Labels, t: TableName) {
    labels != [] && FamilyName(t) <= labels[0].value
  }

  /** What a list of series says about one label set. */
  function SamplesIn(series: seq<RowSeries>, labels: Labels): seq<PushSample> {
    if series == [] then []
    else if series[0].labels == labels then series[0].samples
    else SamplesIn(series[1..], labels)
  }

  /** The samples of the batch's rows under one label set. */
  function SeriesSamples(batch: Batch, labels: Labels): seq<PushSample> {
    StableSort(SamplesOf(AllPoints(batch.modem, batch.probe, batch.mtr), labels), Time)
  }

  lemma SeriesSamplesAre(batch: Batch, ts: RowSeries)
    ensures ts in SeriesOf(batch) <==> ts.samples != [] && ts.samples == SeriesSamples(batch, ts.labels)
  {
    var points := AllPoints(batch.modem, batch.probe, batch.mtr);
    var seen := FirstSeen(points);
    FirstSeenDistinct(points);
    if ts in SeriesOf(batch) {
      var i :| 0 <= i < |seen| && SeriesOf(batch)[i] == ts;
      assert seen[i] in seen;
    }
    if ts.samples != [] && ts.samples == SeriesSamples(batch, ts.labels) {
      var i :| 0 <= i < |seen| && seen[i] == ts.labels;
      assert SeriesOf(batch)[i] == ts;
    }
  }

  lemma {:induction false} FoundIn(series: seq<RowSeries>, labels: Labels)
    ensures TimeSeries(labels, SamplesIn(series, labels)) in series
      || (SamplesIn(series, labels) == [] && forall ts :: ts in series ==> ts.labels != labels)
  {
    if series != [] && series[0].labels != labels {
      FoundIn(series[1..], labels);
      assert series == [series[0]] + series[1..];
    }
  }

  /** A POST says about a label set exactly what the batch's rows emitted under it. */
  lemma PostedSamples(batch: Batch, labels: Labels)
    ensures SamplesIn(SeriesOf(batch), labels) == SeriesSamples(batch, labels)
  {
    FoundIn(SeriesOf(batch), labels);
    SeriesSamplesAre(batch, TimeSeries(labels, SamplesIn(SeriesOf(batch), labels)));
    SeriesSamplesAre(batch, TimeSeries(labels, SeriesSamples(batch, labels)));
  }

  // ----- only the table's own rows feed the series -----

  ghost predicate BatchTyped(batch: Batch) {
    forall t, r :: r in batch.Get(t) ==> Fits(t, r.payload)
  }

  lemma FetchTyped(name: TableName, t: Table, ids: seq<Id>)
    requires Protocol.Typed(name, t) && IsSelection(t, ids)
    ensures forall r :: r in Fetch(t, ids) ==> Fits(name, r.payload)
  {
    FetchHolds(t, ids);
  }

  lemma StepBatchTyped(s: State, a: Action)
    requires Inv(s) && Enabled(s, a) && BatchTyped(s.batch)
    ensures BatchTyped(Step(s, a).batch)
  {
    if a.Select? {
      assert TableInv(s, a.table);
      FetchTyped(a.table, s.db.Get(a.table), a.ids);
    }
  }

  lemma {:induction false} SampleFromPoint(points: seq<RowPoint>, labels: Labels, x: PushSample)
    requires x in SamplesOf(points, labels)
    ensures Point(labels, x) in points
  {
    if !(points[0].labels == labels && points[0].sample == x) {
      SampleFromPoint(points[1..], labels, x);
    }
  }

  lemma RowFamily(t: TableName, p: Payload, m: Metric)
    requires Fits(t, p) && m in Project(p)
    ensures FamilyName(t) <= m.name
  {
    match p
    case Modem(q) => ModemFamily(q);
    case Probe(q) => ProbeFamily(q);
    case Mtr(q) => MtrFamily(q);
  }

  lemma TableFamily(t: TableName, rows: seq<StoredSample>)
    requires forall r :: r in rows ==> Fits(t, r.payload)
    ensures forall p :: p in TablePoints(rows) ==> PointInFamily(p, FamilyName(t))
  {
    forall r, m | r in rows && m in Project(r.payload) ensures FamilyName(t) <= m.name {
      RowFamily(t, r.payload, m);
    }
    TableInFamily(rows, FamilyName(t));
  }

  lemma FamiliesExclude(labels: Labels, t: TableName, other: TableName)
    requires OfTable(labels, t) && OfTable(labels, other)
    ensures t == other
  {
    assert labels[0].value[9] == FamilyName(t)[9] == FamilyName(other)[9];
  }

  lemma NothingElsewhere(t: TableName, other: TableName, rows: seq<StoredSample>, labels: Labels)
    requires OfTable(labels, t) && t != other && forall r :: r in rows ==> Fits(other, r.payload)
    ensures SamplesOf(TablePoints(rows), labels) == []
  {
    TableFamily(other, rows);
    var found := SamplesOf(TablePoints(rows), labels);
    if found != [] {
      SampleFromPoint(TablePoints(rows), labels, found[0]);
      assert PointInFamily(Point(labels, found[0]), FamilyName(other));
      FamiliesExclude(labels, t, other);
    }
  }

  lemma OneOfThree<T>(a: seq<T>, b: seq<T>, c: seq<T>)
    ensures b == [] && c == [] ==> a + b + c == a
    ensures a == [] && c == [] ==> a + b + c == b
    ensures a == [] && b == [] ==> a + b + c == c
  {
  }

  /** Where the samples of one label set come from, when at most one table has any. */
  lemma FromOneTable(modem: seq<RowPoint>, probe: seq<RowPoint>, mtr: seq<RowPoint>, labels: Labels)
    ensures var a, b, c := SamplesOf(modem, labels), SamplesOf(probe, labels), SamplesOf(mtr, labels);
      && (b == [] && c == [] ==> SamplesOf(modem + probe + mtr, labels) == a)
      && (a == [] && c == [] ==> SamplesOf(modem + probe + mtr, labels) == b)
      && (a == [] && b == [] ==> SamplesOf(modem + probe + mtr, labels) == c)
  {
    SamplesOfParts(modem, probe, mtr, labels);
    OneOfThree(SamplesOf(modem, labels), SamplesOf(probe, labels), SamplesOf(mtr, labels));
  }

  lemma TypedRows(batch: Batch)
    requires BatchTyped(batch)
    ensures forall r :: r in batch.modem ==> Fits(ModemTable, r.payload)
    ensures forall r :: r in batch.probe ==> Fits(ProbeTable, r.payload)
    ensures forall r :: r in batch.mtr ==> Fits(MtrTable, r.payload)
  {
    assert batch.Get(ModemTable) == batch.modem && batch.Get(ProbeTable) == batch.probe;
    assert batch.Get(MtrTable) == batch.mtr;
  }

  /** The two other tables' rows contribute nothing to a series of table `t`. */
  lemma OwnTableOnly(batch: Batch, t: TableName, labels: Labels)
    requires BatchTyped(batch) && OfTable(labels, t)
    ensures SamplesOf(AllPoints(batch.modem, batch.probe, batch.mtr), labels) ==
      SamplesOf(TablePoints(batch.Get(t)), labels)
  {
    TypedRows(batch);
    FromOneTable(TablePoints(batch.modem), TablePoints(batch.probe), TablePoints(batch.mtr), labels);
    if t != ModemTable { NothingElsewhere(t, ModemTable, batch.modem, labels); }
    if t != ProbeTable { NothingElsewhere(t, ProbeTable, batch.probe, labels); }
    if t != MtrTable { NothingElsewhere(t, MtrTable, batch.mtr, labels); }
  }

  // ----- the order -----

  /** The sample's timestamp is that of one of the rows. */
  ghost predicate Dated(x: PushSample, times: seq<real>) {
    exists ts :: ts in times && x.timestampMs == Millis(ts)
  }

  lemma SampleDated(rows: seq<StoredSample>, p: RowPoint)
    requires p in TablePoints(rows)
    ensures Dated(p.sample, RowTimes(rows))
  {
    var parts := Map(rows, RowPoints);
    JoinHas(parts, p);
    var i :| 0 <= i < |parts| && p in parts[i];
    var j :| 0 <= j < |parts[i]| && parts[i][j] == p;
    assert RowTimes(rows)[i] == rows[i].ts && p.sample.timestampMs == Millis(rows[i].ts);
  }

  ghost predicate AllDated(samples: seq<PushSample>, times: seq<real>) {
    forall x :: x in samples ==> Dated(x, times)
  }

  ghost predicate MsAscending(samples: seq<PushSample>) {
    forall i, j :: 0 <= i < j < |samples| ==> samples[i].timestampMs <= samples[j].timestampMs
  }

  lemma BatchAscends(batch: Batch, t: TableName, labels: Labels)
    requires BatchTyped(batch) && OfTable(labels, t)
    ensures MsAscending(SamplesIn(SeriesOf(batch), labels))
    ensures AllDated(SamplesIn(SeriesOf(batch), labels), RowTimes(batch.Get(t)))
  {
    PostedSamples(batch, labels);
    OwnTableOnly(batch, t, labels);
    var emitted := SamplesOf(TablePoints(batch.Get(t)), labels);
    var sorted := StableSort(emitted, Time);
    StableSortCorrect(emitted, Time);
    forall i, j | 0 <= i < j < |sorted| ensures sorted[i].timestampMs <= sorted[j].timestampMs {
      assert Time(sorted[i]) <= Time(sorted[j]);
    }
    forall x | x in sorted ensures Dated(x, RowTimes(batch.Get(t))) {
      assert x in multiset(sorted);
      assert x in multiset(emitted);
      SampleFromPoint(TablePoints(batch.Get(t)), labels, x);
      SampleDated(batch.Get(t), Point(labels, x));
    }
  }

  /** The samples that the POSTs carry for one series, over all batches whose UPDATE of table `t`
      a run makes. */
  ghost function Replayed(s: State, run: seq<Action>, t: TableName, labels: Labels): seq<PushSample>
    requires Legal(s, run)
    decreases |run|
  {
    if run == [] then []
    else
      (if Marks(run[0], t) then SamplesIn(SeriesOf(s.batch), labels) else [])
      + Replayed(Step(s, run[0]), run[1..], t, labels)
  }

  /** Samples dated by ascending times, one part after the other. */
  lemma AscendingParts(xs: seq<PushSample>, early: seq<real>, ys: seq<PushSample>, late: seq<real>)
    requires MsAscending(xs) && MsAscending(ys) && AllDated(xs, early) && AllDated(ys, late)
    requires Ascending(early + late)
    ensures MsAscending(xs + ys) && AllDated(xs + ys, early + late)
  {
    forall x, y | x in xs && y in ys ensures x.timestampMs <= y.timestampMs {
      var i :| 0 <= i < |early| && x.timestampMs == Millis(early[i]);
      var j :| 0 <= j < |late| && y.timestampMs == Millis(late[j]);
      assert (early + late)[i] <= (early + late)[|early| + j];
      MillisMonotone(early[i], late[j]);
    }
    forall x | x in xs + ys ensures Dated(x, early + late) {
      if x in xs {
        var ts :| ts in early && x.timestampMs == Millis(ts);
        assert ts in early + late;
      } else {
        var ts :| ts in late && x.timestampMs == Millis(ts);
        assert ts in early + late;
      }
    }
  }

  lemma {:induction false} ReplayedOrder(s: State, run: seq<Action>, t: TableName, labels: Labels)
    requires Inv(s) && BatchTyped(s.batch) && Legal(s, run) && OfTable(labels, t)
    requires Ascending(MarkedTimes(s, run, t))
    ensures MsAscending(Replayed(s, run, t, labels))
    ensures AllDated(Replayed(s, run, t, labels), MarkedTimes(s, run, t))
    decreases |run|
  {
    if run != [] {
      var s' := Step(s, run[0]);
      var marks := Marks(run[0], t);
      var early := if marks then RowTimes(s.batch.Get(t)) else [];
      var late := MarkedTimes(s', run[1..], t);
      assert MarkedTimes(s, run, t) == early + late;
      AscendingAppend(early, late);
      StepInv(s, run[0]);
      StepBatchTyped(s, run[0]);
      ReplayedOrder(s', run[1..], t, labels);
      BatchAscends(s.batch, t, labels);
      AscendingParts(if marks then SamplesIn(SeriesOf(s.batch), labels) else [], early,
                     Replayed(s', run[1..], t, labels), late);
    }
  }

  /** With a clock that does not go back, the samples that a run delivers and marks for any one
      series never step back in time, neither within a batch nor from one batch to the next. */
  lemma SeriesInOrder(run: seq<Action>, t: TableName, labels: Labels)
    requires Legal(INITIAL, run) && ClockForward(INITIAL, run, t) && OfTable(labels, t)
    ensures MsAscending(Replayed(INITIAL, run, t, labels))
  {
    InitialInv();
    ReplayInOrder(run, t);
    ReplayedOrder(INITIAL, run, t, labels);
  }
}
