/** The hand-rolled WriteRequest encoder, and a decoder written from the Protocol Buffers
    encoding specification rather than from the encoder: it splits any byte string into
    tagged fields of any wire type, skips the fields it does not know, lets the last
    occurrence of a scalar win, and knows the default of an absent one.

    A string is its UTF-8 bytes and a double its 64-bit pattern. */
module Wire {
  import opened Options
  import opened Model
  import opened Varint
  import opened Framing
  import opened Seqs

  type Bits64 = x: int | 0 <= x < TWO_64
  type WireLabel = Label<Bytes>
  type WireSample = Sample<Bits64>
  type WireSeries = TimeSeries<seq<WireLabel>, Bits64>

  const WIRE_VARINT := 0
  const WIRE_FIXED64 := 1
  const WIRE_LEN := 2
  const WIRE_FIXED32 := 5

  // ----- the encoder -----

  /** `(field << 3) | wire` for a wire type below 8. */
  function Tag(field: nat, wire: nat): Bytes {
    Varint.Encode(field * 8 + wire)
  }

  /** A string or an embedded message: both are a length and that many bytes. */
  function Embedded(field: nat, payload: Bytes): Bytes {
    Tag(field, WIRE_LEN) + Varint.Encode(|payload|) + payload
  }

  function LittleEndian(x: nat, k: nat): (bs: Bytes)
    ensures |bs| == k
  {
    if k == 0 then [] else [x % 256] + LittleEndian(x / 256, k - 1)
  }

  function DoubleField(field: nat, bits: Bits64): Bytes {
    Tag(field, WIRE_FIXED64) + LittleEndian(bits, 8)
  }

  function Int64Field(field: nat, v: int): Bytes {
    Tag(field, WIRE_VARINT) + Varint.EncodeInt64(v)
  }

  function EncodeLabel(lab: WireLabel): Bytes {
    Embedded(1, lab.name) + Embedded(2, lab.value)
  }

  function EncodeSample(s: WireSample): Bytes {
    DoubleField(1, s.value) + Int64Field(2, s.timestampMs)
  }

  function LabelPart(lab: WireLabel): Bytes { Embedded(1, EncodeLabel(lab)) }

  function SamplePart(s: WireSample): Bytes { Embedded(2, EncodeSample(s)) }

  function SeriesPart(ts: WireSeries): Bytes { Embedded(1, EncodeTimeSeries(ts)) }

  function EncodeTimeSeries(ts: WireSeries): Bytes {
    Join(Map(ts.labels, LabelPart) + Map(ts.samples, SamplePart))
  }

  function EncodeWriteRequest(series: seq<WireSeries>): Bytes {
    Join(Map(series, SeriesPart))
  }

  /** The two loops that collect the parts of one series. */
  method EncodeTimeSeriesLoop(ts: WireSeries) returns (out: Bytes)
    ensures out == EncodeTimeSeries(ts)
  {
    var parts: seq<Bytes> := [];
    for i := 0 to |ts.labels|
      invariant parts == Map(ts.labels[..i], LabelPart)
    {
      parts := parts + [LabelPart(ts.labels[i])];
    }
    assert ts.labels[..|ts.labels|] == ts.labels;
    for i := 0 to |ts.samples|
      invariant parts == Map(ts.labels, LabelPart) + Map(ts.samples[..i], SamplePart)
    {
      parts := parts + [SamplePart(ts.samples[i])];
    }
    assert ts.samples[..|ts.samples|] == ts.samples;
    out := Join(parts);
  }

  // ----- the bytes, by the schema -----

  /** x without its j lowest bytes. */
  function Shifted(x: nat, j: nat): nat {
    if j == 0 then x else Shifted(x / 256, j - 1)
  }

  /** The bytes in turn, the least significant first. */
  lemma {:induction false} LittleEndianAt(x: nat, k: nat, j: nat)
    requires j < k
    ensures LittleEndian(x, k)[j] == Shifted(x, j) % 256
  {
    if j > 0 {
      LittleEndianAt(x / 256, k - 1, j - 1);
    }
  }

  /** message Label { string name = 1; string value = 2; } */
  lemma LabelBytes(lab: WireLabel)
    ensures EncodeLabel(lab) ==
      [0x0A] + Varint.Encode(|lab.name|) + lab.name + ([0x12] + Varint.Encode(|lab.value|) + lab.value)
  {
    assert Tag(1, 2) == [0x0A] && Tag(2, 2) == [0x12];
  }

  /** message Sample { double value = 1; int64 timestamp = 2; } */
  lemma SampleBytes(s: WireSample)
    ensures EncodeSample(s) == [0x09] + LittleEndian(s.value, 8) + ([0x10] + Varint.EncodeInt64(s.timestampMs))
  {
    assert Tag(1, 1) == [0x09] && Tag(2, 0) == [0x10];
  }

  /** message TimeSeries { repeated Label labels = 1; repeated Sample samples = 2; } and
      message WriteRequest { repeated TimeSeries timeseries = 1; } */
  lemma PartBytes(lab: WireLabel, s: WireSample, ts: WireSeries)
    ensures LabelPart(lab) == [0x0A] + Varint.Encode(|EncodeLabel(lab)|) + EncodeLabel(lab)
    ensures SamplePart(s) == [0x12] + Varint.Encode(|EncodeSample(s)|) + EncodeSample(s)
    ensures SeriesPart(ts) == [0x0A] + Varint.Encode(|EncodeTimeSeries(ts)|) + EncodeTimeSeries(ts)
  {
    assert Tag(1, 2) == [0x0A] && Tag(2, 2) == [0x12];
  }

  // ----- the decoder -----

  datatype WireValue =
    | VarintValue(n: nat)
    | Fixed64(bytes: Bytes)
    | LengthDelimited(bytes: Bytes)
    | Fixed32(bytes: Bytes)

  datatype Field = Field(number: nat, value: WireValue)

  /** Section "Message Structure": a tag, then a value laid out as its wire type says.
      Field number 0 and the wire types 3, 4, 6 and 7 are rejected, and so is a value that
      runs past the end. */
  function ReadField(bs: Bytes): (r: Option<(Field, Bytes)>)
    ensures r.Some? ==> |r.value.1| < |bs|
  {
    match Varint.Read(bs)
    case None => None
    case Some((tag, rest)) =>
      var number, wire := tag / 8, tag % 8;
      if number == 0 then None
      else if wire == WIRE_VARINT then
        match Varint.Read(rest)
        case None => None
        case Some((n, rest')) => Some((Field(number, VarintValue(n)), rest'))
      else if wire == WIRE_FIXED64 then
        if |rest| < 8 then None else Some((Field(number, Fixed64(rest[..8])), rest[8..]))
      else if wire == WIRE_LEN then
        match Varint.Read(rest)
        case None => None
        case Some((len, body)) =>
          if |body| < len then None
          else Some((Field(number, LengthDelimited(body[..len])), body[len..]))
      else if wire == WIRE_FIXED32 then
        if |rest| < 4 then None else Some((Field(number, Fixed32(rest[..4])), rest[4..]))
      else None
  }

  /** The whole message: fields until no byte is left. */
  function ReadFields(bs: Bytes): Option<seq<Field>> {
    Split(bs, ReadField)
  }

  /** A scalar field: the last occurrence with the expected number and type wins. */
  function LastBytes(fs: seq<Field>, number: nat): Bytes {
    if fs == [] then []
    else
      var f := fs[|fs| - 1];
      if f.number == number && f.value.LengthDelimited? then f.value.bytes
      else LastBytes(fs[..|fs| - 1], number)
  }

  function FromLittleEndian(bs: Bytes): nat {
    if bs == [] then 0 else bs[0] + 256 * FromLittleEndian(bs[1..])
  }

  function LastDouble(fs: seq<Field>, number: nat): Bits64 {
    if fs == [] then 0
    else
      var f := fs[|fs| - 1];
      if f.number == number && f.value.Fixed64? then FromLittleEndian(f.value.bytes) % TWO_64
      else LastDouble(fs[..|fs| - 1], number)
  }

  function LastInt64(fs: seq<Field>, number: nat): int {
    if fs == [] then 0
    else
      var f := fs[|fs| - 1];
      if f.number == number && f.value.VarintValue? then Varint.ToInt64(f.value.n)
      else LastInt64(fs[..|fs| - 1], number)
  }

  /** A repeated message field: every occurrence, in order. */
  function Repeated<T>(fs: seq<Field>, number: nat, decode: Bytes -> Option<T>): Option<seq<T>> {
    if fs == [] then Some([])
    else
      match Repeated(fs[1..], number, decode)
      case None => None
      case Some(tail) =>
        if fs[0].number == number && fs[0].value.LengthDelimited? then
          match decode(fs[0].value.bytes)
          case None => None
          case Some(item) => Some([item] + tail)
        else Some(tail)
  }

  function LabelFrom(fs: seq<Field>): WireLabel {
    Label(LastBytes(fs, 1), LastBytes(fs, 2))
  }

  function SampleFrom(fs: seq<Field>): WireSample {
    Sample(LastDouble(fs, 1), LastInt64(fs, 2))
  }

  function SeriesFrom(fs: seq<Field>): Option<WireSeries> {
    match (Repeated(fs, 1, DecodeLabel), Repeated(fs, 2, DecodeSample))
    case (Some(labels), Some(samples)) => Some(TimeSeries(labels, samples))
    case _ => None
  }

  function DecodeLabel(bs: Bytes): Option<WireLabel> {
    match ReadFields(bs)
    case None => None
    case Some(fs) => Some(LabelFrom(fs))
  }

  function DecodeSample(bs: Bytes): Option<WireSample> {
    match ReadFields(bs)
    case None => None
    case Some(fs) => Some(SampleFrom(fs))
  }

  function DecodeTimeSeries(bs: Bytes): Option<WireSeries> {
    match ReadFields(bs)
    case None => None
    case Some(fs) => SeriesFrom(fs)
  }

  function DecodeWriteRequest(bs: Bytes): Option<seq<WireSeries>> {
    match ReadFields(bs)
    case None => None
    case Some(fs) => Repeated(fs, 1, DecodeTimeSeries)
  }

  // ----- one field -----

  lemma Regroup(a: Bytes, b: Bytes, c: Bytes, rest: Bytes)
    ensures a + b + c + rest == a + (b + (c + rest))
  {
  }

  lemma Regroup2(a: Bytes, b: Bytes, rest: Bytes)
    ensures a + b + rest == a + (b + rest)
  {
  }

  lemma ReadVarintField(bs: Bytes, mid: Bytes, number: nat, n: nat, rest: Bytes)
    requires number > 0
    requires Varint.Read(bs) == Some((number * 8, mid))
    requires Varint.Read(mid) == Some((n, rest))
    ensures ReadField(bs) == Some((Field(number, VarintValue(n)), rest))
  {
  }

  lemma ReadFixed64Field(bs: Bytes, mid: Bytes, number: nat, bytes: Bytes, rest: Bytes)
    requires number > 0 && |bytes| == 8
    requires Varint.Read(bs) == Some((number * 8 + 1, mid))
    requires mid == bytes + rest
    ensures ReadField(bs) == Some((Field(number, Fixed64(bytes)), rest))
  {
    assert mid[..8] == bytes && mid[8..] == rest;
  }

  lemma ReadLengthDelimited(bs: Bytes, mid: Bytes, body: Bytes, number: nat, payload: Bytes, rest: Bytes)
    requires number > 0
    requires Varint.Read(bs) == Some((number * 8 + 2, mid))
    requires Varint.Read(mid) == Some((|payload|, body))
    requires body == payload + rest
    ensures ReadField(bs) == Some((Field(number, LengthDelimited(payload)), rest))
  {
    assert body[..|payload|] == payload && body[|payload|..] == rest;
  }

  lemma ReadEmbedded(field: nat, payload: Bytes)
    requires field > 0
    ensures Reads(Embedded(field, payload), Field(field, LengthDelimited(payload)), ReadField)
  {
    forall rest: Bytes
      ensures ReadField(Embedded(field, payload) + rest) == Some((Field(field, LengthDelimited(payload)), rest))
    {
      var body := payload + rest;
      var mid := Varint.Encode(|payload|) + body;
      Regroup(Tag(field, WIRE_LEN), Varint.Encode(|payload|), payload, rest);
      Varint.RoundTrip(field * 8 + WIRE_LEN, mid);
      Varint.RoundTrip(|payload|, body);
      ReadLengthDelimited(Tag(field, WIRE_LEN) + mid, mid, body, field, payload, rest);
    }
  }

  lemma ReadDouble(field: nat, bits: Bits64)
    requires field > 0
    ensures Reads(DoubleField(field, bits), Field(field, Fixed64(LittleEndian(bits, 8))), ReadField)
  {
    forall rest: Bytes
      ensures ReadField(DoubleField(field, bits) + rest) == Some((Field(field, Fixed64(LittleEndian(bits, 8))), rest))
    {
      var mid := LittleEndian(bits, 8) + rest;
      Regroup2(Tag(field, WIRE_FIXED64), LittleEndian(bits, 8), rest);
      Varint.RoundTrip(field * 8 + WIRE_FIXED64, mid);
      ReadFixed64Field(Tag(field, WIRE_FIXED64) + mid, mid, field, LittleEndian(bits, 8), rest);
    }
  }

  lemma ReadInt64(field: nat, v: int)
    requires field > 0 && v >= -TWO_64
    ensures Reads(Int64Field(field, v), Field(field, VarintValue(Unsigned(v))), ReadField)
  {
    forall rest: Bytes
      ensures ReadField(Int64Field(field, v) + rest) == Some((Field(field, VarintValue(Unsigned(v))), rest))
    {
      var mid := Varint.EncodeInt64(v) + rest;
      Regroup2(Tag(field, WIRE_VARINT), Varint.EncodeInt64(v), rest);
      Varint.RoundTrip(field * 8 + WIRE_VARINT, mid);
      Varint.RoundTrip(Unsigned(v), rest);
      ReadVarintField(Tag(field, WIRE_VARINT) + mid, mid, field, Unsigned(v), rest);
    }
  }

  function Pow256(k: nat): nat {
    if k == 0 then 1 else 256 * Pow256(k - 1)
  }

  lemma {:induction false} LittleEndianRoundTrip(x: nat, k: nat)
    requires x < Pow256(k)
    ensures FromLittleEndian(LittleEndian(x, k)) == x
  {
    if k > 0 {
      LittleEndianRoundTrip(x / 256, k - 1);
      assert LittleEndian(x, k)[1..] == LittleEndian(x / 256, k - 1);
    }
  }

  lemma DoubleBits(bits: Bits64)
    ensures FromLittleEndian(LittleEndian(bits, 8)) == bits
  {
    assert Pow256(8) == TWO_64 by {
      assert Pow256(4) == 256 * (256 * (256 * (256 * Pow256(0))));
      assert Pow256(8) == 256 * (256 * (256 * (256 * Pow256(4))));
    }
    LittleEndianRoundTrip(bits, 8);
  }

  // ----- messages -----

  /** The fields a run of embedded messages is read back as. */
  function Fields<T>(number: nat, items: seq<T>, encode: T -> Bytes): seq<Field> {
    Map(items, t => Field(number, LengthDelimited(encode(t))))
  }

  lemma LabelFromFields(lab: WireLabel)
    ensures LabelFrom([Field(1, LengthDelimited(lab.name)), Field(2, LengthDelimited(lab.value))]) == lab
  {
    var f, g := Field(1, LengthDelimited(lab.name)), Field(2, LengthDelimited(lab.value));
    assert [f, g][..1] == [f];
    assert LastBytes([f], 1) == lab.name;
  }

  lemma LabelRoundTrip(lab: WireLabel)
    ensures DecodeLabel(EncodeLabel(lab)) == Some(lab)
  {
    var parts := [Embedded(1, lab.name), Embedded(2, lab.value)];
    var fields := [Field(1, LengthDelimited(lab.name)), Field(2, LengthDelimited(lab.value))];
    ReadEmbedded(1, lab.name);
    ReadEmbedded(2, lab.value);
    SplitAll(parts, fields, ReadField);
    JoinTwo(Embedded(1, lab.name), Embedded(2, lab.value));
    LabelFromFields(lab);
  }

  lemma JoinTwo(a: Bytes, b: Bytes)
    ensures Join([a, b]) == a + b
  {
    assert [a, b][1..] == [b];
    assert Join([b]) == b + Join([]);
  }

  lemma SampleFromFields(s: WireSample)
    requires IsInt64(s.timestampMs)
    ensures SampleFrom([Field(1, Fixed64(LittleEndian(s.value, 8))),
      Field(2, VarintValue(Unsigned(s.timestampMs)))]) == s
  {
    var n := Unsigned(s.timestampMs);
    var f, g := Field(1, Fixed64(LittleEndian(s.value, 8))), Field(2, VarintValue(n));
    assert [f, g][..1] == [f];
    assert LastDouble([f], 1) == s.value by {
      DoubleBits(s.value);
    }
  }

  lemma {:induction false} LastInt64InRange(fs: seq<Field>, number: nat)
    ensures IsInt64(LastInt64(fs, number))
  {
    if fs != [] {
      LastInt64InRange(fs[..|fs| - 1], number);
    }
  }

  /** A sample comes back exactly when its timestamp is an int64. */
  lemma SampleRoundTrip(s: WireSample)
    ensures DecodeSample(EncodeSample(s)) == Some(s) <==> IsInt64(s.timestampMs)
  {
    if IsInt64(s.timestampMs) {
      var parts := [DoubleField(1, s.value), Int64Field(2, s.timestampMs)];
      var fields := [Field(1, Fixed64(LittleEndian(s.value, 8))), Field(2, VarintValue(Unsigned(s.timestampMs)))];
      ReadDouble(1, s.value);
      ReadInt64(2, s.timestampMs);
      SplitAll(parts, fields, ReadField);
      JoinTwo(parts[0], parts[1]);
      SampleFromFields(s);
    } else {
      match ReadFields(EncodeSample(s))
      case None =>
      case Some(fs) => LastInt64InRange(fs, 2);
    }
  }

  /** Reading a repeated field passes over another field's items. */
  lemma {:induction false} RepeatedSkips<T, U>(number: nat, items: seq<T>, encode: T -> Bytes, fs: seq<Field>,
                                               other: nat, decode: Bytes -> Option<U>)
    requires other != number
    ensures Repeated(Fields(number, items, encode) + fs, other, decode) == Repeated(fs, other, decode)
  {
    var all := Fields(number, items, encode) + fs;
    if items == [] {
      assert all == fs;
    } else {
      RepeatedSkips(number, items[1..], encode, fs, other, decode);
      assert all[1..] == Fields(number, items[1..], encode) + fs;
    }
  }

  ghost predicate Recovers<T>(items: seq<T>, encode: T -> Bytes, decode: Bytes -> Option<T>) {
    forall i :: 0 <= i < |items| ==> decode(encode(items[i])) == Some(items[i])
  }

  lemma RecoversCons<T>(items: seq<T>, encode: T -> Bytes, decode: Bytes -> Option<T>)
    requires items != []
    ensures Recovers(items, encode, decode) <==>
      decode(encode(items[0])) == Some(items[0]) && Recovers(items[1..], encode, decode)
  {
    assert forall i :: 1 <= i < |items| ==> items[i] == items[1..][i - 1];
    assert forall i :: 0 <= i < |items| - 1 ==> items[i + 1] == items[1..][i];
  }

  lemma RepeatedCons<T>(f: Field, fs: seq<Field>, number: nat, decode: Bytes -> Option<T>, items: seq<T>)
    requires f.number == number && f.value.LengthDelimited? && items != []
    ensures Repeated([f] + fs, number, decode) == Some(items) <==>
      decode(f.value.bytes) == Some(items[0]) && Repeated(fs, number, decode) == Some(items[1..])
  {
    assert ([f] + fs)[1..] == fs;
    match (Repeated(fs, number, decode), decode(f.value.bytes))
    case (Some(tail), Some(item)) =>
      assert ([item] + tail)[0] == item && ([item] + tail)[1..] == tail;
      assert items == [items[0]] + items[1..];
    case _ =>
  }

  /** The items come back in order iff each one's own decoder recovers it. */
  lemma {:induction false} RepeatedRoundTrip<T>(number: nat, items: seq<T>, encode: T -> Bytes, fs: seq<Field>,
                                                decode: Bytes -> Option<T>)
    requires Repeated(fs, number, decode) == Some([])
    ensures Repeated(Fields(number, items, encode) + fs, number, decode) == Some(items) <==>
      Recovers(items, encode, decode)
  {
    if items == [] {
      assert Fields(number, items, encode) + fs == fs;
    } else {
      var f, tail := Field(number, LengthDelimited(encode(items[0]))), Fields(number, items[1..], encode) + fs;
      assert Fields(number, items, encode) + fs == [f] + tail;
      RepeatedRoundTrip(number, items[1..], encode, fs, decode);
      RepeatedCons(f, tail, number, decode, items);
      RecoversCons(items, encode, decode);
    }
  }

  ghost predicate Int64Timestamps(ts: WireSeries) {
    forall i :: 0 <= i < |ts.samples| ==> IsInt64(ts.samples[i].timestampMs)
  }

  lemma ReadEmbeddedParts<T>(number: nat, items: seq<T>, encode: T -> Bytes, part: T -> Bytes)
    requires number > 0
    requires forall t :: t in items ==> part(t) == Embedded(number, encode(t))
    ensures forall i :: 0 <= i < |items| ==>
      Reads(Map(items, part)[i], Fields(number, items, encode)[i], ReadField)
  {
    forall i | 0 <= i < |items| ensures Reads(Map(items, part)[i], Fields(number, items, encode)[i], ReadField) {
      ReadEmbedded(number, encode(items[i]));
    }
  }

  lemma TimeSeriesFields(ts: WireSeries)
    ensures ReadFields(EncodeTimeSeries(ts)) ==
      Some(Fields(1, ts.labels, EncodeLabel) + Fields(2, ts.samples, EncodeSample))
  {
    ReadEmbeddedParts(1, ts.labels, EncodeLabel, LabelPart);
    ReadEmbeddedParts(2, ts.samples, EncodeSample, SamplePart);
    SplitAll(Map(ts.labels, LabelPart) + Map(ts.samples, SamplePart),
             Fields(1, ts.labels, EncodeLabel) + Fields(2, ts.samples, EncodeSample), ReadField);
  }

  lemma TimeSeriesRoundTrip(ts: WireSeries)
    ensures DecodeTimeSeries(EncodeTimeSeries(ts)) == Some(ts) <==> Int64Timestamps(ts)
  {
    var ls, ss := Fields(1, ts.labels, EncodeLabel), Fields(2, ts.samples, EncodeSample);
    TimeSeriesFields(ts);
    assert ss + [] == ss;
    // labels: every one is recovered, and the samples contribute none
    forall i | 0 <= i < |ts.labels| ensures DecodeLabel(EncodeLabel(ts.labels[i])) == Some(ts.labels[i]) {
      LabelRoundTrip(ts.labels[i]);
    }
    RepeatedSkips(2, ts.samples, EncodeSample, [], 1, DecodeLabel);
    RepeatedRoundTrip(1, ts.labels, EncodeLabel, ss, DecodeLabel);
    // samples: all recovered iff every timestamp fits
    forall i | 0 <= i < |ts.samples|
      ensures DecodeSample(EncodeSample(ts.samples[i])) == Some(ts.samples[i]) <==> IsInt64(ts.samples[i].timestampMs)
    {
      SampleRoundTrip(ts.samples[i]);
    }
    RepeatedSkips(1, ts.labels, EncodeLabel, ss, 2, DecodeSample);
    RepeatedRoundTrip(2, ts.samples, EncodeSample, [], DecodeSample);
  }

  /** The full round trip, through three levels of nesting with every byte consumed. It
      holds exactly for the lists whose timestamps are int64. */
  lemma RoundTrip(series: seq<WireSeries>)
    ensures DecodeWriteRequest(EncodeWriteRequest(series)) == Some(series) <==> AllInt64(series)
  {
    var fields := Fields(1, series, EncodeTimeSeries);
    ReadEmbeddedParts(1, series, EncodeTimeSeries, SeriesPart);
    SplitAll(Map(series, SeriesPart), fields, ReadField);
    assert fields + [] == fields;
    RepeatedRoundTrip(1, series, EncodeTimeSeries, [], DecodeTimeSeries);
    forall i | 0 <= i < |series|
      ensures DecodeTimeSeries(EncodeTimeSeries(series[i])) == Some(series[i]) <==> Int64Timestamps(series[i])
    {
      TimeSeriesRoundTrip(series[i]);
    }
  }

  ghost predicate AllInt64(series: seq<WireSeries>) {
    forall i :: 0 <= i < |series| ==> Int64Timestamps(series[i])
  }

  /** Different requests have different bytes. */
  lemma Injective(a: seq<WireSeries>, b: seq<WireSeries>)
    requires AllInt64(a) && AllInt64(b)
    requires EncodeWriteRequest(a) == EncodeWriteRequest(b)
    ensures a == b
  {
    RoundTrip(a);
    RoundTrip(b);
  }

  /** Outside the 64-bit range they need not: -1 and 2^64 - 1 share their bytes. */
  lemma OutOfRangeCollides(value: Bits64)
    ensures EncodeSample(Sample(value, -1)) == EncodeSample(Sample(value, TWO_64 - 1))
  {
    assert Unsigned(-1) == Unsigned(TWO_64 - 1);
  }

  lemma EncodeAppend(a: seq<WireSeries>, b: seq<WireSeries>)
    ensures EncodeWriteRequest(a + b) == EncodeWriteRequest(a) + EncodeWriteRequest(b)
  {
    assert Map(a + b, SeriesPart) == Map(a, SeriesPart) + Map(b, SeriesPart);
    JoinAppend(Map(a, SeriesPart), Map(b, SeriesPart));
  }

  lemma AllInt64Append(a: seq<WireSeries>, b: seq<WireSeries>)
    requires AllInt64(a) && AllInt64(b)
    ensures AllInt64(a + b)
  {
  }

  /** Concatenating two requests' bytes is the request for both lists, and a reader of the
      joined bytes sees the two lists one after the other. */
  lemma Concatenation(a: seq<WireSeries>, b: seq<WireSeries>)
    ensures EncodeWriteRequest(a + b) == EncodeWriteRequest(a) + EncodeWriteRequest(b)
    ensures AllInt64(a) && AllInt64(b) ==>
      DecodeWriteRequest(EncodeWriteRequest(a) + EncodeWriteRequest(b)) == Some(a + b)
  {
    EncodeAppend(a, b);
    if AllInt64(a) && AllInt64(b) {
      AllInt64Append(a, b);
      RoundTrip(a + b);
    }
  }
}
