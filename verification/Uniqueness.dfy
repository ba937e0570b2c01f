/** When `build_series` keeps its promise of one sample per timestamp and series. */
module Uniqueness {
  import opened Options
  import opened Seqs
  import opened Metrics
  import opened Series
  import opened Rows
  import opened Collisions

  // ----- unique timestamps, in terms of the rows -----

  predicate MillisDiffer(r: StoredSample, s: StoredSample) {
    Millis(r.ts) != Millis(s.ts)
  }

  /** Rows of one millisecond share no label set. */
  ghost predicate RowsApart(r: StoredSample, s: StoredSample) {
    MillisDiffer(r, s) || Across(Project(r.payload), Project(s.payload), Differ)
  }

  lemma RowNoClash(row: StoredSample)
    ensures NoClash(RowPoints(row)) <==> LabelsDistinct(Project(row.payload))
  {
    PairwiseMapped(Project(row.payload), Stamped(Millis(row.ts)), Apart, Differ);
  }

  lemma SameMillisClash(ms: seq<Metric>, ns: seq<Metric>, at: int)
    ensures Across(Map(ms, Stamped(at)), Map(ns, Stamped(at)), Apart) <==> Across(ms, ns, Differ)
  {
    var ps, qs := Map(ms, Stamped(at)), Map(ns, Stamped(at));
    if Across(ps, qs, Apart) {
      forall m, n | m in ms && n in ns ensures Differ(m, n) {
        var i :| 0 <= i < |ms| && ms[i] == m;
        var j :| 0 <= j < |ns| && ns[j] == n;
        assert ps[i] in ps && qs[j] in qs && Apart(ps[i], qs[j]);
      }
    }
    if Across(ms, ns, Differ) {
      forall p, q | p in ps && q in qs ensures Apart(p, q) {
        var i :| 0 <= i < |ps| && ps[i] == p;
        var j :| 0 <= j < |qs| && qs[j] == q;
        assert ms[i] in ms && ns[j] in ns && Differ(ms[i], ns[j]);
      }
    }
  }

  lemma OtherMillisNoClash(ms: seq<Metric>, a: int, ns: seq<Metric>, b: int)
    requires a != b
    ensures Across(Map(ms, Stamped(a)), Map(ns, Stamped(b)), Apart)
  {
  }

  lemma RowsNoClash(r: StoredSample, s: StoredSample)
    ensures Across(RowPoints(r), RowPoints(s), Apart) <==> RowsApart(r, s)
  {
    if MillisDiffer(r, s) {
      OtherMillisNoClash(Project(r.payload), Millis(r.ts), Project(s.payload), Millis(s.ts));
    } else {
      SameMillisClash(Project(r.payload), Project(s.payload), Millis(r.ts));
    }
  }

  ghost predicate TableUnique(rows: seq<StoredSample>) {
    && (forall r :: r in rows ==> LabelsDistinct(Project(r.payload)))
    && Pairwise(rows, (r, s) => RowsApart(r, s))
  }

  lemma TableNoClash(rows: seq<StoredSample>)
    ensures NoClash(TablePoints(rows)) <==> TableUnique(rows)
  {
    var parts := Map(rows, RowPoints);
    PairwiseJoin(parts, Apart);
    forall r {
      RowNoClash(r);
    }
    forall r, s {
      RowsNoClash(r, s);
    }
    PairwiseMapped(rows, RowPoints, (a, b) => Across(a, b, Apart), (r, s) => RowsApart(r, s));
    assert (forall i :: 0 <= i < |parts| ==> Pairwise(parts[i], Apart)) <==>
      (forall r :: r in rows ==> LabelsDistinct(Project(r.payload))) by
    {
      assert forall i :: 0 <= i < |parts| ==> (Pairwise(parts[i], Apart) <==> NoClash(RowPoints(rows[i])));
    }
  }

  /** Every modem payload projects the carrier aggregation flag, so two modem rows of one
      millisecond always collide. */
  function AggregationFlag(p: ModemPayload): Metric {
    Metric(METRIC_PREFIX + "modem_carrier_aggregation", [], if p.bandSecondary.Some? then 1.0 else 0.0)
  }

  lemma ModemAlwaysEmits(p: ModemPayload)
    ensures AggregationFlag(p) in ModemMetrics(p)
  {
    var slots := ModemDerived(p);
    assert EmitAll(slots[1..])[0] == AggregationFlag(p);
    assert AggregationFlag(p) in EmitAll(slots[1..]);
    assert AggregationFlag(p) in EmitAll(slots);
  }

  lemma ModemRowsApart(r: StoredSample, s: StoredSample)
    requires r.payload.Modem? && s.payload.Modem?
    ensures RowsApart(r, s) <==> MillisDiffer(r, s)
  {
    var m, n := AggregationFlag(r.payload.modem), AggregationFlag(s.payload.modem);
    ModemAlwaysEmits(r.payload.modem);
    ModemAlwaysEmits(s.payload.modem);
    DifferMeans(m, n);
    assert m in Project(r.payload) && n in Project(s.payload) && !Differ(m, n);
  }

  /** Two probe rows: different milliseconds, or no measurement in common. */
  ghost predicate ProbeRowsApart(r: StoredSample, s: StoredSample) {
    MillisDiffer(r, s) || (r.payload.Probe? && s.payload.Probe? && ProbesApart(r.payload.probe, s.payload.probe))
  }

  /** Two mtr rows: different milliseconds or targets, or no hop measurement in common. */
  ghost predicate MtrRowsApart(r: StoredSample, s: StoredSample) {
    MillisDiffer(r, s) || (r.payload.Mtr? && s.payload.Mtr? && MtrsApart(r.payload.mtr, s.payload.mtr))
  }

  /** No payload repeats a resolver or a hop. */
  ghost predicate PayloadsUnique(probe: seq<StoredSample>, mtr: seq<StoredSample>) {
    && (forall r :: r in probe && r.payload.Probe? ==> Pairwise(r.payload.probe.dns, DnsApart))
    && (forall r :: r in mtr && r.payload.Mtr? ==> Pairwise(r.payload.mtr.hops, HopApart))
  }

  /** The exact condition under which every series has strictly increasing timestamps, on the
      stored rows alone: no payload repeats a resolver or a hop, modem rows have distinct
      milliseconds, and probe or mtr rows of one millisecond have no measurement in common. */
  lemma UniqueTimestampsIff(modem: seq<StoredSample>, probe: seq<StoredSample>, mtr: seq<StoredSample>)
    requires Typed(modem, probe, mtr)
    ensures (forall ts :: ts in BuildSeries(modem, probe, mtr) ==> StrictlyIncreasing(ts.samples)) <==>
      && PayloadsUnique(probe, mtr)
      && Pairwise(modem, MillisDiffer)
      && Pairwise(probe, (r, s) => ProbeRowsApart(r, s))
      && Pairwise(mtr, (r, s) => MtrRowsApart(r, s))
  {
    StrictlyIncreasingIff(AllPoints(modem, probe, mtr));
    TablesSeparate(modem, probe, mtr);
    TableNoClash(modem);
    TableNoClash(probe);
    TableNoClash(mtr);
    ModemTableUnique(modem);
    ProbeTableUnique(probe);
    MtrTableUnique(mtr);
  }

  /** Every stored probe sample has its health flag, and then probe rows need distinct
      milliseconds just as modem rows do. */
  lemma FlaggedProbesNeedMillis(modem: seq<StoredSample>, probe: seq<StoredSample>, mtr: seq<StoredSample>)
    requires Typed(modem, probe, mtr) && forall r :: r in probe && r.payload.Probe? ==> r.payload.probe.ok.Some?
    ensures (forall ts :: ts in BuildSeries(modem, probe, mtr) ==> StrictlyIncreasing(ts.samples)) <==>
      && PayloadsUnique(probe, mtr)
      && Pairwise(modem, MillisDiffer)
      && Pairwise(probe, MillisDiffer)
      && Pairwise(mtr, (r, s) => MtrRowsApart(r, s))
  {
    UniqueTimestampsIff(modem, probe, mtr);
    forall i, j | 0 <= i < j < |probe|
      ensures ProbeRowsApart(probe[i], probe[j]) <==> MillisDiffer(probe[i], probe[j])
    {
      assert probe[i] in probe && probe[j] in probe;
    }
  }

  lemma ModemTableUnique(rows: seq<StoredSample>)
    requires forall r :: r in rows ==> r.payload.Modem?
    ensures TableUnique(rows) <==> Pairwise(rows, MillisDiffer)
  {
    forall r | r in rows ensures LabelsDistinct(Project(r.payload)) {
      ModemLabelsDistinct(r.payload.modem);
    }
    forall i, j | 0 <= i < j < |rows| ensures RowsApart(rows[i], rows[j]) <==> MillisDiffer(rows[i], rows[j]) {
      ModemRowsApart(rows[i], rows[j]);
    }
  }

  lemma ProbeTableUnique(rows: seq<StoredSample>)
    requires forall r :: r in rows ==> r.payload.Probe?
    ensures TableUnique(rows) <==>
      && (forall r :: r in rows && r.payload.Probe? ==> Pairwise(r.payload.probe.dns, DnsApart))
      && Pairwise(rows, (r, s) => ProbeRowsApart(r, s))
  {
    forall r | r in rows ensures LabelsDistinct(Project(r.payload)) <==> Pairwise(r.payload.probe.dns, DnsApart) {
      ProbeLabelsDistinct(r.payload.probe);
    }
    forall i, j | 0 <= i < j < |rows| ensures RowsApart(rows[i], rows[j]) <==> ProbeRowsApart(rows[i], rows[j]) {
      assert rows[i] in rows && rows[j] in rows;
      ProbesAcross(rows[i].payload.probe, rows[j].payload.probe);
    }
  }

  lemma MtrTableUnique(rows: seq<StoredSample>)
    requires forall r :: r in rows ==> r.payload.Mtr?
    ensures TableUnique(rows) <==>
      && (forall r :: r in rows && r.payload.Mtr? ==> Pairwise(r.payload.mtr.hops, HopApart))
      && Pairwise(rows, (r, s) => MtrRowsApart(r, s))
  {
    forall r | r in rows ensures LabelsDistinct(Project(r.payload)) <==> Pairwise(r.payload.mtr.hops, HopApart) {
      MtrLabelsDistinct(r.payload.mtr);
    }
    forall i, j | 0 <= i < j < |rows| ensures RowsApart(rows[i], rows[j]) <==> MtrRowsApart(rows[i], rows[j]) {
      assert rows[i] in rows && rows[j] in rows;
      MtrsAcross(rows[i].payload.mtr, rows[j].payload.mtr);
    }
  }

  lemma TablesSeparate(modem: seq<StoredSample>, probe: seq<StoredSample>, mtr: seq<StoredSample>)
    requires Typed(modem, probe, mtr)
    ensures NoClash(AllPoints(modem, probe, mtr)) <==>
      NoClash(TablePoints(modem)) && NoClash(TablePoints(probe)) && NoClash(TablePoints(mtr))
  {
    TypedFamilies(modem, probe, mtr);
    TableInFamily(modem, MODEM_FAMILY);
    TableInFamily(probe, PROBE_FAMILY);
    TableInFamily(mtr, MTR_FAMILY);
    FamiliesApart(TablePoints(modem), MODEM_FAMILY, TablePoints(probe), PROBE_FAMILY);
    FamiliesApart(TablePoints(modem), MODEM_FAMILY, TablePoints(mtr), MTR_FAMILY);
    FamiliesApart(TablePoints(probe), PROBE_FAMILY, TablePoints(mtr), MTR_FAMILY);
    PairwiseAppend(TablePoints(modem), TablePoints(probe), Apart);
    PairwiseAppend(TablePoints(modem) + TablePoints(probe), TablePoints(mtr), Apart);
  }

  /** Two modem polls stored within one millisecond break the promise. */
  lemma SameMillisecondBreaksUniqueness()
    ensures var empty := Modem(ModemPayload(map[], None, None, None, None, None));
      var rows := [StoredSample(1, 1000.0001, empty), StoredSample(2, 1000.0004, empty)];
      exists ts :: ts in BuildSeries(rows, [], []) && !StrictlyIncreasing(ts.samples)
  {
    var empty := Modem(ModemPayload(map[], None, None, None, None, None));
    var rows := [StoredSample(1, 1000.0001, empty), StoredSample(2, 1000.0004, empty)];
    assert Millis(1000.0001) == 1000000 && Millis(1000.0004) == 1000000;
    assert !MillisDiffer(rows[0], rows[1]);
    UniqueTimestampsIff(rows, [], []);
  }
}
