/** From stored rows to series: `build_series`. */
module Rows {
  import opened Model
  import opened Seqs
  import opened Metrics
  import opened Series

  type RowPoint = Point<Labels>
  type RowSeries = PushSeries<Labels>

  datatype Payload = Modem(modem: ModemPayload) | Probe(probe: ProbePayload) | Mtr(mtr: MtrPayload)

  datatype StoredSample = StoredSample(id: int, ts: real, payload: Payload)

  function Project(p: Payload): seq<Metric> {
    match p
    case Modem(m) => ModemMetrics(m)
    case Probe(q) => ProbeMetrics(q)
    case Mtr(t) => MtrMetrics(t)
  }

  /** `int(ts * 1000)`: truncation towards zero. */
  function Millis(ts: real): int {
    var x := ts * 1000.0;
    if x >= 0.0 then x.Floor else -((-x).Floor)
  }

  lemma MillisMonotone(s: real, t: real)
    requires s <= t
    ensures Millis(s) <= Millis(t)
  {
    var x, y := s * 1000.0, t * 1000.0;
    assert x <= y;
  }

  function Stamped(ms: int): Metric -> RowPoint {
    m => Point(FullLabels(m), Sample(m.value, ms))
  }

  function RowPoints(row: StoredSample): seq<RowPoint> {
    Map(Project(row.payload), Stamped(Millis(row.ts)))
  }

  function TablePoints(rows: seq<StoredSample>): seq<RowPoint> {
    Join(Map(rows, RowPoints))
  }

  function AllPoints(modem: seq<StoredSample>, probe: seq<StoredSample>, mtr: seq<StoredSample>): seq<RowPoint> {
    TablePoints(modem) + TablePoints(probe) + TablePoints(mtr)
  }

  function BuildSeries(modem: seq<StoredSample>, probe: seq<StoredSample>, mtr: seq<StoredSample>): seq<RowSeries> {
    Assemble(AllPoints(modem, probe, mtr))
  }

  // ----- the loops -----

  lemma Gather<T>(a: seq<T>, b: seq<T>, c: seq<T>)
    ensures [] + a + b + c == a + b + c
  {
    assert [] + a == a;
  }

  method BuildSeriesLoop(modem: seq<StoredSample>, probe: seq<StoredSample>, mtr: seq<StoredSample>)
    returns (series: seq<RowSeries>)
    ensures series == BuildSeries(modem, probe, mtr)
  {
    var bucket := new Bucket<Labels>();
    bucket.EmitRows(modem, RowPoints);
    bucket.EmitRows(probe, RowPoints);
    bucket.EmitRows(mtr, RowPoints);
    Gather(TablePoints(modem), TablePoints(probe), TablePoints(mtr));
    series := bucket.Collect();
  }

  // ----- metric families -----

  ghost predicate InFamily(rows: seq<StoredSample>, family: string) {
    forall r, m :: r in rows && m in Project(r.payload) ==> family <= m.name
  }

  ghost predicate PointInFamily(p: RowPoint, family: string) {
    p.labels != [] && family <= p.labels[0].value
  }

  lemma TableInFamily(rows: seq<StoredSample>, family: string)
    requires InFamily(rows, family)
    ensures forall p :: p in TablePoints(rows) ==> PointInFamily(p, family)
  {
    var parts := Map(rows, RowPoints);
    forall p: RowPoint | p in TablePoints(rows) ensures PointInFamily(p, family) {
      JoinHas(parts, p);
      var i :| 0 <= i < |parts| && p in parts[i];
      var j :| 0 <= j < |parts[i]| && parts[i][j] == p;
      assert rows[i] in rows && Project(rows[i].payload)[j] in Project(rows[i].payload);
    }
  }

  lemma FamiliesApart(a: seq<RowPoint>, familyA: string, b: seq<RowPoint>, familyB: string)
    requires |familyA| > 9 && |familyB| > 9 && familyA[9] != familyB[9]
    requires forall p :: p in a ==> PointInFamily(p, familyA)
    requires forall p :: p in b ==> PointInFamily(p, familyB)
    ensures Across(a, b, Apart)
  {
    forall p: RowPoint, q: RowPoint | p in a && q in b ensures Apart(p, q) {
      assert p.labels[0].value[9] != q.labels[0].value[9];
    }
  }

  ghost predicate Typed(modem: seq<StoredSample>, probe: seq<StoredSample>, mtr: seq<StoredSample>) {
    && (forall r :: r in modem ==> r.payload.Modem?)
    && (forall r :: r in probe ==> r.payload.Probe?)
    && (forall r :: r in mtr ==> r.payload.Mtr?)
  }

  lemma TypedFamilies(modem: seq<StoredSample>, probe: seq<StoredSample>, mtr: seq<StoredSample>)
    requires Typed(modem, probe, mtr)
    ensures InFamily(modem, MODEM_FAMILY) && InFamily(probe, PROBE_FAMILY) && InFamily(mtr, MTR_FAMILY)
  {
    forall r, m | r in modem && m in Project(r.payload) ensures MODEM_FAMILY <= m.name {
      ModemFamily(r.payload.modem);
    }
    forall r, m | r in probe && m in Project(r.payload) ensures PROBE_FAMILY <= m.name {
      ProbeFamily(r.payload.probe);
    }
    forall r, m | r in mtr && m in Project(r.payload) ensures MTR_FAMILY <= m.name {
      MtrFamily(r.payload.mtr);
    }
  }
}
