/** The body of a POST: the batch's series in wire form. UTF-8 encoding and the bit pattern of
    a double are library code and stay parameters. */
module Request {
  import opened Options
  import opened Model
  import opened Seqs
  import opened Varint
  import opened Series
  import opened Rows
  import opened Delivery
  import opened Wire

  datatype Codec = Codec(utf8: string -> Bytes, pack: real -> Bits64)

  function RenderLabel(c: Codec): Label<string> -> WireLabel {
    (lab: Label<string>) => Label(c.utf8(lab.name), c.utf8(lab.value))
  }

  function RenderSample(c: Codec): PushSample -> WireSample {
    (s: PushSample) => Sample(c.pack(s.value), s.timestampMs)
  }

  function RenderSeries(c: Codec): RowSeries -> WireSeries {
    (ts: RowSeries) => TimeSeries(Map(ts.labels, RenderLabel(c)), Map(ts.samples, RenderSample(c)))
  }

  function Body(c: Codec, batch: Batch): Bytes {
    EncodeWriteRequest(Map(SeriesOf(batch), RenderSeries(c)))
  }

  ghost predicate Int64Rows(rows: seq<StoredSample>) {
    forall r :: r in rows ==> IsInt64(Millis(r.ts))
  }

  lemma TableTimes(rows: seq<StoredSample>)
    requires Int64Rows(rows)
    ensures forall p :: p in TablePoints(rows) ==> IsInt64(p.sample.timestampMs)
  {
    var parts := Map(rows, RowPoints);
    forall p: RowPoint | p in TablePoints(rows) ensures IsInt64(p.sample.timestampMs) {
      JoinHas(parts, p);
      var i :| 0 <= i < |parts| && p in parts[i];
      var j :| 0 <= j < |parts[i]| && parts[i][j] == p;
      assert rows[i] in rows;
    }
  }

  lemma BatchTimes(batch: Batch, ts: RowSeries, s: PushSample)
    requires Int64Rows(batch.modem) && Int64Rows(batch.probe) && Int64Rows(batch.mtr)
    requires ts in SeriesOf(batch) && s in ts.samples
    ensures IsInt64(s.timestampMs)
  {
    var points := AllPoints(batch.modem, batch.probe, batch.mtr);
    SampleEmitted(points, ts, s);
    TableTimes(batch.modem);
    TableTimes(batch.probe);
    TableTimes(batch.mtr);
    var p := Point(ts.labels, s);
    assert p in TablePoints(batch.modem) || p in TablePoints(batch.probe) || p in TablePoints(batch.mtr);
  }

  lemma BodyIsRendered(c: Codec, batch: Batch)
    requires Int64Rows(batch.modem) && Int64Rows(batch.probe) && Int64Rows(batch.mtr)
    ensures DecodeWriteRequest(Body(c, batch)) == Some(Map(SeriesOf(batch), RenderSeries(c)))
  {
    var series := SeriesOf(batch);
    var wire := Map(series, RenderSeries(c));
    forall i | 0 <= i < |wire| ensures Int64Timestamps(wire[i]) {
      forall j | 0 <= j < |wire[i].samples| ensures IsInt64(wire[i].samples[j].timestampMs) {
        assert series[i] in series && series[i].samples[j] in series[i].samples;
        BatchTimes(batch, series[i], series[i].samples[j]);
      }
    }
    Wire.RoundTrip(wire);
  }

  /** A series on the wire: each label's name and value in UTF-8 and each sample's value as its bit
      pattern, name for name, value for value, in order. */
  ghost predicate Transmits(c: Codec, ts: RowSeries, wire: WireSeries) {
    && |wire.labels| == |ts.labels| && |wire.samples| == |ts.samples|
    && (forall j :: 0 <= j < |ts.labels| ==>
          wire.labels[j].name == c.utf8(ts.labels[j].name) && wire.labels[j].value == c.utf8(ts.labels[j].value))
    && (forall j :: 0 <= j < |ts.samples| ==>
          wire.samples[j].value == c.pack(ts.samples[j].value)
          && wire.samples[j].timestampMs == ts.samples[j].timestampMs)
  }

  lemma RenderTransmits(c: Codec, ts: RowSeries)
    ensures Transmits(c, ts, RenderSeries(c)(ts))
  {
  }

  /** From rows to bytes and back: a reader of the POST body gets one series for each series of
      the batch, in order, with its labels and samples. The rows' timestamps have to fit 64 bits
      (years up to 292 million). */
  lemma BodyDecodes(c: Codec, batch: Batch)
    requires Int64Rows(batch.modem) && Int64Rows(batch.probe) && Int64Rows(batch.mtr)
    ensures var series, decoded := SeriesOf(batch), DecodeWriteRequest(Body(c, batch));
      && decoded.Some? && |decoded.value| == |series|
      && forall i :: 0 <= i < |series| ==> Transmits(c, series[i], decoded.value[i])
  {
    BodyIsRendered(c, batch);
    forall i | 0 <= i < |SeriesOf(batch)|
      ensures Transmits(c, SeriesOf(batch)[i], RenderSeries(c)(SeriesOf(batch)[i]))
    {
      RenderTransmits(c, SeriesOf(batch)[i]);
    }
  }
}
