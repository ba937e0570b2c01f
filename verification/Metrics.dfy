/** The three projections from a stored payload to (name, extra labels, value) triples. */
module Metrics {
  import opened Options
  import opened Model
  import opened Seqs
  import Decimal

  type Labels = seq<Label<string>>

  datatype Metric = Metric(name: string, extra: Labels, value: real)

  /** A decoded JSON object whose values are numbers or null. */
  type Dict = d: seq<(string, Option<real>)> | forall i, j :: 0 <= i < j < |d| ==> d[i].0 != d[j].0

  /** `numeric` holds the keys of the stored object that are present and not null. */
  datatype ModemPayload = ModemPayload(
    numeric: map<string, real>, connected: Option<bool>,
    operator: Option<string>, networkType: Option<string>,
    bandPrimary: Option<string>, bandSecondary: Option<string>)

  datatype DnsEntry = DnsEntry(resolver: string, family: string, source: string, p50: Option<real>, loss: Option<real>)

  datatype ProbePayload = ProbePayload(
    numeric: map<string, real>, ok: Option<bool>, checkpoints: map<string, Dict>, dns: seq<DnsEntry>)

  datatype MtrHop = MtrHop(hopNum: int, numeric: map<string, real>, host: Option<string>)

  datatype MtrPayload = MtrPayload(target: string, hops: seq<MtrHop>)

  const METRIC_PREFIX := "knausen_"
  const GIB: real := 1073741824.0

  type Table = seq<(string, string)>

  const MODEM_NUMERIC: Table := [
    ("modem_rsrp_dbm", "rsrp_dbm"), ("modem_rsrq_db", "rsrq_db"), ("modem_snr_db", "snr_db"),
    ("modem_rssi_dbm", "rssi_dbm"), ("modem_cqi", "cqi"), ("modem_pci", "pci"), ("modem_cid", "cid"),
    ("modem_tac", "tac"), ("modem_mcc", "mcc"), ("modem_mnc", "mnc"),
    ("modem_earfcn_primary", "earfcn_primary"), ("modem_earfcn_secondary", "earfcn_secondary"),
    ("modem_data_usage_tx_bytes", "data_usage_tx_bytes"), ("modem_data_usage_rx_bytes", "data_usage_rx_bytes")]

  const PROBE_NUMERIC: Table := [
    ("probe_ping_rtt_ms_p50", "ping_rtt_ms_p50"), ("probe_ping_rtt_ms_p95", "ping_rtt_ms_p95"),
    ("probe_ping_loss_pct", "ping_loss_pct"), ("probe_tcp_connect_ms", "tcp_connect_ms"),
    ("probe_tls_handshake_ms", "tls_handshake_ms"), ("probe_https_head_ms", "https_head_ms")]

  const CHECKPOINT_METRICS: Table := [
    ("probe_checkpoint_rtt_ms_p50", "checkpoint_rtt_ms_p50"),
    ("probe_checkpoint_rtt_ms_p95", "checkpoint_rtt_ms_p95"),
    ("probe_checkpoint_loss_pct", "checkpoint_loss_pct")]

  const MTR_NUMERIC: Table := [
    ("mtr_hop_rtt_ms_avg", "rtt_avg"), ("mtr_hop_rtt_ms_best", "rtt_best"), ("mtr_hop_rtt_ms_worst", "rtt_worst"),
    ("mtr_hop_rtt_ms_stdev", "rtt_stdev"), ("mtr_hop_loss_pct", "loss_pct")]

  const BAND_NAMES: map<string, string> := map["E_UTRA_3" := "1800+", "E_UTRA_20" := "800 DD"]

  // ----- projections -----

  /** One metric per table entry whose key is present, in table order. */
  function Gauges(table: Table, extra: Labels, numeric: map<string, real>): seq<Metric> {
    if table == [] then []
    else
      (if table[0].1 in numeric then [Metric(METRIC_PREFIX + table[0].0, extra, numeric[table[0].1])] else [])
      + Gauges(table[1..], extra, numeric)
  }

  /** One unlabelled metric per present value, in order. */
  function EmitAll(slots: seq<(string, Option<real>)>): seq<Metric> {
    if slots == [] then []
    else
      (if slots[0].1.Some? then [Metric(METRIC_PREFIX + slots[0].0, [], slots[0].1.value)] else [])
      + EmitAll(slots[1..])
  }

  function Get(numeric: map<string, real>, key: string): Option<real> {
    if key in numeric then Some(numeric[key]) else None
  }

  function Scaled(x: Option<real>): Option<real> {
    if x.Some? then Some(x.value / GIB) else None
  }

  function Sum(x: Option<real>, y: Option<real>): Option<real> {
    if x.Some? && y.Some? then Some(x.value + y.value) else None
  }

  function Flag(b: Option<bool>): Option<real> {
    if b.Some? then Some(if b.value then 1.0 else 0.0) else None
  }

  function OrEmpty(s: Option<string>): string {
    if s.Some? then s.value else ""
  }

  /** A band without a name of its own keeps its raw one: a band is never hidden. */
  function BandName(raw: Option<string>): (name: string)
    ensures name == "" <==> raw == None || raw == Some("")
    ensures raw == Some("E_UTRA_3") ==> name == "1800+"
    ensures raw == Some("E_UTRA_20") ==> name == "800 DD"
    ensures raw.Some? && raw.value != "E_UTRA_3" && raw.value != "E_UTRA_20" ==> name == raw.value
  {
    if OrEmpty(raw) == "" then ""
    else if raw.value in BAND_NAMES then BAND_NAMES[raw.value]
    else raw.value
  }

  function InfoLabels(p: ModemPayload): Labels {
    [ Label("operator", OrEmpty(p.operator)), Label("network_type", OrEmpty(p.networkType)),
      Label("band_primary", OrEmpty(p.bandPrimary)), Label("band_secondary", OrEmpty(p.bandSecondary)),
      Label("band_primary_name", BandName(p.bandPrimary)), Label("band_secondary_name", BandName(p.bandSecondary)) ]
  }

  /** The derived gauges: nothing stands in for a total of which one half is missing. */
  function ModemDerived(p: ModemPayload): seq<(string, Option<real>)> {
    var tx, rx := Get(p.numeric, "data_usage_tx_bytes"), Get(p.numeric, "data_usage_rx_bytes");
    [ ("modem_connected", Flag(p.connected)),
      ("modem_carrier_aggregation", Flag(Some(p.bandSecondary.Some?))),
      ("modem_data_usage_tx_gb", Scaled(tx)),
      ("modem_data_usage_rx_gb", Scaled(rx)),
      ("modem_data_usage_total_bytes", Sum(tx, rx)),
      ("modem_data_usage_total_gb", Scaled(Sum(tx, rx))) ]
  }

  function ModemMetrics(p: ModemPayload): seq<Metric> {
    Gauges(MODEM_NUMERIC, [], p.numeric)
    + EmitAll(ModemDerived(p))
    + [Metric(METRIC_PREFIX + "modem_info", InfoLabels(p), 1.0)]
  }

  function CheckpointGauges(suffix: string, per: Dict): seq<Metric> {
    if per == [] then []
    else
      (if per[0].1.Some? then [Metric(METRIC_PREFIX + suffix, [Label("checkpoint", per[0].0)], per[0].1.value)] else [])
      + CheckpointGauges(suffix, per[1..])
  }

  function CheckpointMetrics(table: Table, checkpoints: map<string, Dict>): seq<Metric> {
    if table == [] then []
    else
      CheckpointGauges(table[0].0, if table[0].1 in checkpoints then checkpoints[table[0].1] else [])
      + CheckpointMetrics(table[1..], checkpoints)
  }

  function DnsLabels(d: DnsEntry): Labels {
    [Label("resolver", d.resolver), Label("family", d.family), Label("source", d.source)]
  }

  function DnsMetrics(d: DnsEntry): seq<Metric> {
    (if d.p50.Some? then [Metric(METRIC_PREFIX + "probe_dns_lookup_ms", DnsLabels(d), d.p50.value)] else [])
    + (if d.loss.Some? then [Metric(METRIC_PREFIX + "probe_dns_loss_pct", DnsLabels(d), d.loss.value)] else [])
  }

  function ProbeMetrics(p: ProbePayload): seq<Metric> {
    Gauges(PROBE_NUMERIC, [], p.numeric)
    + EmitAll([("probe_ok", Flag(p.ok))])
    + CheckpointMetrics(CHECKPOINT_METRICS, p.checkpoints)
    + Join(Map(p.dns, DnsMetrics))
  }

  function HopLabels(target: string, hop: MtrHop): Labels {
    [Label("target", target), Label("hop_num", Decimal.Str(hop.hopNum))]
  }

  function HopMetrics(target: string, hop: MtrHop): seq<Metric> {
    Gauges(MTR_NUMERIC, HopLabels(target, hop), hop.numeric)
    + (if hop.host.Some?
       then [Metric(METRIC_PREFIX + "mtr_hop_info", HopLabels(target, hop) + [Label("host", hop.host.value)], 1.0)]
       else [])
  }

  function MtrMetrics(p: MtrPayload): seq<Metric> {
    Join(Map(p.hops, hop => HopMetrics(p.target, hop)))
  }

  // ----- label sets within one payload -----

  /** The label set under which a metric is stored. */
  function FullLabels(m: Metric): Labels {
    [Label("__name__", m.name)] + m.extra
  }

  predicate Differ(m: Metric, n: Metric) { FullLabels(m) != FullLabels(n) }

  ghost predicate LabelsDistinct(ms: seq<Metric>) { Pairwise(ms, Differ) }

  lemma DifferMeans(m: Metric, n: Metric)
    ensures Differ(m, n) <==> m.name != n.name || m.extra != n.extra
  {
    if FullLabels(m) == FullLabels(n) {
      assert FullLabels(m)[0] == FullLabels(n)[0];
      assert FullLabels(m)[1..] == m.extra && FullLabels(n)[1..] == n.extra;
    }
  }

  /** Every name is `knausen_` and one of `suffixes`. */
  ghost predicate Named(ms: seq<Metric>, suffixes: seq<string>) {
    forall m :: m in ms ==> exists s :: s in suffixes && m.name == METRIC_PREFIX + s
  }

  ghost predicate Disjoint(a: seq<string>, b: seq<string>) {
    forall x, y :: x in a && y in b ==> x != y
  }

  lemma PrefixInjective(s: string, t: string)
    requires METRIC_PREFIX + s == METRIC_PREFIX + t
    ensures s == t
  {
    assert (METRIC_PREFIX + s)[|METRIC_PREFIX|..] == s;
    assert (METRIC_PREFIX + t)[|METRIC_PREFIX|..] == t;
  }

  /** Two lists with different names never share a label set. */
  lemma DistinctAppend(a: seq<Metric>, namesA: seq<string>, b: seq<Metric>, namesB: seq<string>)
    requires Named(a, namesA) && Named(b, namesB) && Disjoint(namesA, namesB)
    ensures LabelsDistinct(a + b) <==> LabelsDistinct(a) && LabelsDistinct(b)
    ensures Named(a + b, namesA + namesB)
  {
    forall m, n | m in a && n in b ensures Differ(m, n) {
      var s :| s in namesA && m.name == METRIC_PREFIX + s;
      var t :| t in namesB && n.name == METRIC_PREFIX + t;
      if m.name == n.name {
        PrefixInjective(s, t);
      }
      DifferMeans(m, n);
    }
    PairwiseAppend(a, b, Differ);
  }

  lemma DistinctSplit(a: seq<string>, b: seq<string>)
    requires Distinct(a + b)
    ensures Distinct(a) && Distinct(b) && Disjoint(a, b)
  {
    var all := a + b;
    assert forall i :: 0 <= i < |a| ==> a[i] == all[i];
    assert forall j :: 0 <= j < |b| ==> b[j] == all[|a| + j];
  }

  /** The three-part form; the last part may or may not be free of repetition. */
  lemma DistinctAppend3(a: seq<Metric>, namesA: seq<string>, b: seq<Metric>, namesB: seq<string>,
                        c: seq<Metric>, namesC: seq<string>)
    requires Named(a, namesA) && Named(b, namesB) && Named(c, namesC)
    requires Distinct(namesA + namesB + namesC)
    ensures LabelsDistinct(a + b + c) <==> LabelsDistinct(a) && LabelsDistinct(b) && LabelsDistinct(c)
    ensures Named(a + b + c, namesA + namesB + namesC)
  {
    DistinctSplit(namesA + namesB, namesC);
    DistinctSplit(namesA, namesB);
    DistinctAppend(a, namesA, b, namesB);
    DistinctAppend(a + b, namesA + namesB, c, namesC);
  }

  function Suffixes<T>(table: seq<(string, T)>): seq<string> {
    Map(table, (entry: (string, T)) => entry.0)
  }

  lemma {:induction false} GaugesDistinct(table: Table, extra: Labels, numeric: map<string, real>)
    requires Distinct(Suffixes(table))
    ensures LabelsDistinct(Gauges(table, extra, numeric)) && Named(Gauges(table, extra, numeric), Suffixes(table))
  {
    if table != [] {
      var tail := table[1..];
      assert Suffixes(table) == [table[0].0] + Suffixes(tail);
      assert forall i :: 0 <= i < |tail| ==> Suffixes(tail)[i] == Suffixes(table)[i + 1];
      GaugesDistinct(tail, extra, numeric);
      var head :=
        if table[0].1 in numeric then [Metric(METRIC_PREFIX + table[0].0, extra, numeric[table[0].1])] else [];
      assert table[0].0 in [table[0].0];
      DistinctAppend(head, [table[0].0], Gauges(tail, extra, numeric), Suffixes(tail));
    }
  }

  lemma {:induction false} EmitAllDistinct(slots: seq<(string, Option<real>)>)
    requires Distinct(Suffixes(slots))
    ensures LabelsDistinct(EmitAll(slots)) && Named(EmitAll(slots), Suffixes(slots))
  {
    if slots != [] {
      var tail := slots[1..];
      assert Suffixes(slots) == [slots[0].0] + Suffixes(tail);
      assert forall i :: 0 <= i < |tail| ==> Suffixes(tail)[i] == Suffixes(slots)[i + 1];
      EmitAllDistinct(tail);
      var head := if slots[0].1.Some? then [Metric(METRIC_PREFIX + slots[0].0, [], slots[0].1.value)] else [];
      assert slots[0].0 in [slots[0].0];
      DistinctAppend(head, [slots[0].0], EmitAll(tail), Suffixes(tail));
    }
  }

  const MODEM_GAUGES: seq<string> := [
    "modem_rsrp_dbm", "modem_rsrq_db", "modem_snr_db", "modem_rssi_dbm", "modem_cqi", "modem_pci", "modem_cid",
    "modem_tac", "modem_mcc", "modem_mnc", "modem_earfcn_primary", "modem_earfcn_secondary",
    "modem_data_usage_tx_bytes", "modem_data_usage_rx_bytes"]

  const MODEM_DERIVED: seq<string> := [
    "modem_connected", "modem_carrier_aggregation", "modem_data_usage_tx_gb", "modem_data_usage_rx_gb",
    "modem_data_usage_total_bytes", "modem_data_usage_total_gb"]

  const MODEM_NAMES: seq<string> := MODEM_GAUGES + MODEM_DERIVED + ["modem_info"]

  lemma ModemNames()
    ensures Suffixes(MODEM_NUMERIC) == MODEM_GAUGES && Distinct(MODEM_NAMES)
    ensures Distinct(MODEM_GAUGES) && Distinct(MODEM_DERIVED)
  {
    assert MODEM_NAMES == [
      "modem_rsrp_dbm", "modem_rsrq_db", "modem_snr_db", "modem_rssi_dbm", "modem_cqi", "modem_pci", "modem_cid",
      "modem_tac", "modem_mcc", "modem_mnc", "modem_earfcn_primary", "modem_earfcn_secondary",
      "modem_data_usage_tx_bytes", "modem_data_usage_rx_bytes", "modem_connected", "modem_carrier_aggregation",
      "modem_data_usage_tx_gb", "modem_data_usage_rx_gb", "modem_data_usage_total_bytes",
      "modem_data_usage_total_gb", "modem_info"];
    DistinctSplit(MODEM_GAUGES + MODEM_DERIVED, ["modem_info"]);
    DistinctSplit(MODEM_GAUGES, MODEM_DERIVED);
  }

  lemma ModemDerivedDistinct(p: ModemPayload)
    ensures LabelsDistinct(EmitAll(ModemDerived(p))) && Named(EmitAll(ModemDerived(p)), MODEM_DERIVED)
  {
    ModemNames();
    assert Suffixes(ModemDerived(p)) == MODEM_DERIVED;
    EmitAllDistinct(ModemDerived(p));
  }

  lemma ModemGaugesDistinct(p: ModemPayload)
    ensures var ms := Gauges(MODEM_NUMERIC, [], p.numeric); LabelsDistinct(ms) && Named(ms, MODEM_GAUGES)
  {
    ModemNames();
    GaugesDistinct(MODEM_NUMERIC, [], p.numeric);
  }

  lemma SingleNamed(name: string, extra: Labels, value: real)
    ensures var ms := [Metric(METRIC_PREFIX + name, extra, value)]; LabelsDistinct(ms) && Named(ms, [name])
  {
    assert name in [name];
  }

  lemma ModemNamesDistinct()
    ensures Distinct(MODEM_GAUGES + MODEM_DERIVED + ["modem_info"])
  {
    ModemNames();
  }

  /** No modem payload projects two values onto one label set. */
  lemma ModemLabelsDistinct(p: ModemPayload)
    ensures LabelsDistinct(ModemMetrics(p)) && Named(ModemMetrics(p), MODEM_NAMES)
  {
    ModemNamesDistinct();
    ModemGaugesDistinct(p);
    ModemDerivedDistinct(p);
    SingleNamed("modem_info", InfoLabels(p), 1.0);
    ModemPartsDistinct(p, Gauges(MODEM_NUMERIC, [], p.numeric), EmitAll(ModemDerived(p)));
  }

  lemma ModemPartsDistinct(p: ModemPayload, gauges: seq<Metric>, derived: seq<Metric>)
    requires Named(gauges, MODEM_GAUGES) && LabelsDistinct(gauges)
    requires Named(derived, MODEM_DERIVED) && LabelsDistinct(derived)
    ensures var ms := gauges + derived + [Metric(METRIC_PREFIX + "modem_info", InfoLabels(p), 1.0)];
      LabelsDistinct(ms) && Named(ms, MODEM_NAMES)
  {
    ModemNamesDistinct();
    SingleNamed("modem_info", InfoLabels(p), 1.0);
    DistinctAppend3(gauges, MODEM_GAUGES, derived, MODEM_DERIVED,
                    [Metric(METRIC_PREFIX + "modem_info", InfoLabels(p), 1.0)], ["modem_info"]);
  }

  // ----- probe -----

  lemma {:induction false} CheckpointGaugesDistinct(suffix: string, per: Dict)
    ensures LabelsDistinct(CheckpointGauges(suffix, per)) && Named(CheckpointGauges(suffix, per), [suffix])
    ensures forall m :: m in CheckpointGauges(suffix, per) ==>
      exists i :: 0 <= i < |per| && m.extra == [Label("checkpoint", per[i].0)]
  {
    if per != [] {
      var tail: Dict := per[1..];
      CheckpointGaugesDistinct(suffix, tail);
      var rest := CheckpointGauges(suffix, tail);
      assert suffix in [suffix];
      if per[0].1.Some? {
        var m := Metric(METRIC_PREFIX + suffix, [Label("checkpoint", per[0].0)], per[0].1.value);
        forall n | n in rest ensures Differ(m, n) {
          var i :| 0 <= i < |tail| && n.extra == [Label("checkpoint", tail[i].0)];
          assert per[i + 1] == tail[i];
          assert m.extra[0] != n.extra[0];
          DifferMeans(m, n);
        }
        PairwiseAppend([m], rest, Differ);
      }
      forall m | m in rest ensures exists i :: 0 <= i < |per| && m.extra == [Label("checkpoint", per[i].0)] {
        var i :| 0 <= i < |tail| && m.extra == [Label("checkpoint", tail[i].0)];
        assert per[i + 1] == tail[i];
      }
    }
  }

  lemma {:induction false} CheckpointMetricsDistinct(table: Table, checkpoints: map<string, Dict>)
    requires Distinct(Suffixes(table))
    ensures LabelsDistinct(CheckpointMetrics(table, checkpoints)) &&
      Named(CheckpointMetrics(table, checkpoints), Suffixes(table))
  {
    if table != [] {
      var tail := table[1..];
      var per: Dict := if table[0].1 in checkpoints then checkpoints[table[0].1] else [];
      assert Suffixes(table) == [table[0].0] + Suffixes(tail);
      assert forall i :: 0 <= i < |tail| ==> Suffixes(tail)[i] == Suffixes(table)[i + 1];
      CheckpointGaugesDistinct(table[0].0, per);
      CheckpointMetricsDistinct(tail, checkpoints);
      DistinctAppend(CheckpointGauges(table[0].0, per), [table[0].0], CheckpointMetrics(tail, checkpoints),
                     Suffixes(tail));
    }
  }

  /** Two resolver entries land on different series. */
  predicate DnsApart(d: DnsEntry, e: DnsEntry) {
    DnsLabels(d) == DnsLabels(e) ==> !(d.p50.Some? && e.p50.Some?) && !(d.loss.Some? && e.loss.Some?)
  }

  const DNS_NAMES: seq<string> := ["probe_dns_lookup_ms", "probe_dns_loss_pct"]

  lemma DnsApartMeans(d: DnsEntry, e: DnsEntry)
    ensures Across(DnsMetrics(d), DnsMetrics(e), Differ) <==> DnsApart(d, e)
  {
    forall m, n ensures Differ(m, n) <==> m.name != n.name || m.extra != n.extra {
      DifferMeans(m, n);
    }
    if d.p50.Some? && e.p50.Some? {
      assert DnsMetrics(d)[0] in DnsMetrics(d) && DnsMetrics(e)[0] in DnsMetrics(e);
    }
    if d.loss.Some? && e.loss.Some? {
      assert DnsMetrics(d)[|DnsMetrics(d)| - 1] in DnsMetrics(d) && DnsMetrics(e)[|DnsMetrics(e)| - 1] in DnsMetrics(e);
    }
    DnsNamesDiffer();
  }

  lemma DnsNamesDiffer()
    ensures METRIC_PREFIX + "probe_dns_lookup_ms" != METRIC_PREFIX + "probe_dns_loss_pct"
  {
    if METRIC_PREFIX + "probe_dns_lookup_ms" == METRIC_PREFIX + "probe_dns_loss_pct" {
      PrefixInjective("probe_dns_lookup_ms", "probe_dns_loss_pct");
    }
  }

  lemma DnsEntryDistinct(d: DnsEntry)
    ensures LabelsDistinct(DnsMetrics(d)) && Named(DnsMetrics(d), DNS_NAMES)
  {
    assert DNS_NAMES[0] in DNS_NAMES && DNS_NAMES[1] in DNS_NAMES;
    DnsNamesDiffer();
    forall m, n ensures Differ(m, n) <==> m.name != n.name || m.extra != n.extra {
      DifferMeans(m, n);
    }
  }

  lemma DnsDistinct(dns: seq<DnsEntry>)
    ensures LabelsDistinct(Join(Map(dns, DnsMetrics))) <==> Pairwise(dns, DnsApart)
    ensures Named(Join(Map(dns, DnsMetrics)), DNS_NAMES)
  {
    var parts := Map(dns, DnsMetrics);
    PairwiseJoin(parts, Differ);
    forall d {
      DnsEntryDistinct(d);
    }
    forall d, e {
      DnsApartMeans(d, e);
    }
    PairwiseMapped(dns, DnsMetrics, (a, b) => Across(a, b, Differ), DnsApart);
    forall m: Metric | m in Join(parts) ensures exists s :: s in DNS_NAMES && m.name == METRIC_PREFIX + s {
      JoinHas(parts, m);
    }
  }

  lemma PairwiseMapped<T, U>(items: seq<T>, f: T -> U, rel: (U, U) -> bool, itemRel: (T, T) -> bool)
    requires forall x, y :: x in items && y in items ==> (rel(f(x), f(y)) <==> itemRel(x, y))
    ensures Pairwise(Map(items, f), rel) <==> Pairwise(items, itemRel)
  {
    var mapped := Map(items, f);
    forall i, j | 0 <= i < j < |items| ensures rel(mapped[i], mapped[j]) <==> itemRel(items[i], items[j]) {
      assert items[i] in items && items[j] in items;
    }
  }

  /** A probe payload projects onto distinct label sets exactly when its resolver entries do:
      checkpoint names are the keys of one dict and cannot repeat. */
  lemma ProbeLabelsDistinct(p: ProbePayload)
    ensures LabelsDistinct(ProbeMetrics(p)) <==> Pairwise(p.dns, DnsApart)
    ensures Named(ProbeMetrics(p), PROBE_NAMES)
  {
    ProbeNames();
    GaugesDistinct(PROBE_NUMERIC, [], p.numeric);
    var ok := [("probe_ok", Flag(p.ok))];
    assert Suffixes(ok) == ["probe_ok"];
    EmitAllDistinct(ok);
    CheckpointMetricsDistinct(CHECKPOINT_METRICS, p.checkpoints);
    DnsDistinct(p.dns);
    var front := Gauges(PROBE_NUMERIC, [], p.numeric) + EmitAll(ok);
    DistinctAppend(Gauges(PROBE_NUMERIC, [], p.numeric), PROBE_GAUGES, EmitAll(ok), ["probe_ok"]);
    DistinctAppend3(front, PROBE_GAUGES + ["probe_ok"], CheckpointMetrics(CHECKPOINT_METRICS, p.checkpoints),
                    CHECKPOINT_NAMES, Join(Map(p.dns, DnsMetrics)), DNS_NAMES);
  }

  const PROBE_GAUGES: seq<string> := [
    "probe_ping_rtt_ms_p50", "probe_ping_rtt_ms_p95", "probe_ping_loss_pct", "probe_tcp_connect_ms",
    "probe_tls_handshake_ms", "probe_https_head_ms"]

  const CHECKPOINT_NAMES: seq<string> := [
    "probe_checkpoint_rtt_ms_p50", "probe_checkpoint_rtt_ms_p95", "probe_checkpoint_loss_pct"]

  const PROBE_NAMES: seq<string> := PROBE_GAUGES + ["probe_ok"] + CHECKPOINT_NAMES + DNS_NAMES

  lemma ProbeNames()
    ensures Suffixes(PROBE_NUMERIC) == PROBE_GAUGES && Suffixes(CHECKPOINT_METRICS) == CHECKPOINT_NAMES
    ensures Distinct(PROBE_NAMES) && Distinct(PROBE_GAUGES) && Distinct(CHECKPOINT_NAMES)
    ensures Disjoint(PROBE_GAUGES, ["probe_ok"])
  {
    assert PROBE_NAMES == [
      "probe_ping_rtt_ms_p50", "probe_ping_rtt_ms_p95", "probe_ping_loss_pct", "probe_tcp_connect_ms",
      "probe_tls_handshake_ms", "probe_https_head_ms", "probe_ok", "probe_checkpoint_rtt_ms_p50",
      "probe_checkpoint_rtt_ms_p95", "probe_checkpoint_loss_pct", "probe_dns_lookup_ms", "probe_dns_loss_pct"];
    DistinctSplit(PROBE_GAUGES + ["probe_ok"] + CHECKPOINT_NAMES, DNS_NAMES);
    DistinctSplit(PROBE_GAUGES + ["probe_ok"], CHECKPOINT_NAMES);
    DistinctSplit(PROBE_GAUGES, ["probe_ok"]);
  }

  /** Distinct resolver addresses, which `assemble_resolvers` provides, are enough. */
  lemma DistinctResolversSuffice(p: ProbePayload)
    requires forall i, j :: 0 <= i < j < |p.dns| ==> p.dns[i].resolver != p.dns[j].resolver
    ensures LabelsDistinct(ProbeMetrics(p))
  {
    forall i, j | 0 <= i < j < |p.dns| ensures DnsApart(p.dns[i], p.dns[j]) {
      assert DnsLabels(p.dns[i])[0] != DnsLabels(p.dns[j])[0];
    }
    ProbeLabelsDistinct(p);
  }

  // ----- mtr -----

  /** Two hops of one snapshot land on different series. */
  predicate HopApart(h: MtrHop, k: MtrHop) {
    h.hopNum == k.hopNum ==>
      (forall i :: 0 <= i < |MTR_NUMERIC| ==> !(MTR_NUMERIC[i].1 in h.numeric && MTR_NUMERIC[i].1 in k.numeric))
      && !(h.host.Some? && h.host == k.host)
  }

  const MTR_GAUGES: seq<string> := [
    "mtr_hop_rtt_ms_avg", "mtr_hop_rtt_ms_best", "mtr_hop_rtt_ms_worst", "mtr_hop_rtt_ms_stdev", "mtr_hop_loss_pct"]

  const MTR_NAMES: seq<string> := MTR_GAUGES + ["mtr_hop_info"]

  lemma MtrNames()
    ensures Suffixes(MTR_NUMERIC) == MTR_GAUGES && Distinct(MTR_NAMES) && Distinct(MTR_GAUGES)
    ensures Disjoint(MTR_GAUGES, ["mtr_hop_info"])
  {
    assert MTR_NAMES == [
      "mtr_hop_rtt_ms_avg", "mtr_hop_rtt_ms_best", "mtr_hop_rtt_ms_worst", "mtr_hop_rtt_ms_stdev",
      "mtr_hop_loss_pct", "mtr_hop_info"];
    DistinctSplit(MTR_GAUGES, ["mtr_hop_info"]);
  }

  function HopInfo(target: string, hop: MtrHop): seq<Metric> {
    if hop.host.Some?
    then [Metric(METRIC_PREFIX + "mtr_hop_info", HopLabels(target, hop) + [Label("host", hop.host.value)], 1.0)]
    else []
  }

  lemma HopDistinct(target: string, hop: MtrHop)
    ensures LabelsDistinct(HopMetrics(target, hop)) && Named(HopMetrics(target, hop), MTR_NAMES)
  {
    MtrNames();
    GaugesDistinct(MTR_NUMERIC, HopLabels(target, hop), hop.numeric);
    assert "mtr_hop_info" in ["mtr_hop_info"];
    DistinctAppend(Gauges(MTR_NUMERIC, HopLabels(target, hop), hop.numeric), MTR_GAUGES, HopInfo(target, hop),
                   ["mtr_hop_info"]);
  }

  ghost predicate IsGauge(table: Table, extra: Labels, numeric: map<string, real>, m: Metric, i: int) {
    0 <= i < |table| && table[i].1 in numeric && m == Metric(METRIC_PREFIX + table[i].0, extra, numeric[table[i].1])
  }

  /** Which gauges a table produces: one per present key, all with the same extra labels. */
  lemma {:induction false} GaugesMember(table: Table, extra: Labels, numeric: map<string, real>, m: Metric)
    ensures m in Gauges(table, extra, numeric) <==> exists i :: IsGauge(table, extra, numeric, m, i)
  {
    if table != [] {
      var tail := table[1..];
      GaugesMember(tail, extra, numeric, m);
      if i :| IsGauge(tail, extra, numeric, m, i) {
        assert IsGauge(table, extra, numeric, m, i + 1);
      }
      if i :| IsGauge(table, extra, numeric, m, i) && i > 0 {
        assert IsGauge(tail, extra, numeric, m, i - 1);
      }
      assert m in Gauges(table, extra, numeric) <==>
        IsGauge(table, extra, numeric, m, 0) || m in Gauges(tail, extra, numeric);
    }
  }

  lemma {:induction false} GaugesAcross(table: Table, extra: Labels, a: map<string, real>, b: map<string, real>)
    requires Distinct(Suffixes(table))
    ensures Across(Gauges(table, extra, a), Gauges(table, extra, b), Differ) <==>
      (forall i :: 0 <= i < |table| ==> !(table[i].1 in a && table[i].1 in b))
  {
    if Across(Gauges(table, extra, a), Gauges(table, extra, b), Differ) {
      forall i | 0 <= i < |table| ensures !(table[i].1 in a && table[i].1 in b) {
        if table[i].1 in a && table[i].1 in b {
          var m := Metric(METRIC_PREFIX + table[i].0, extra, a[table[i].1]);
          var n := Metric(METRIC_PREFIX + table[i].0, extra, b[table[i].1]);
          GaugesMember(table, extra, a, m);
          GaugesMember(table, extra, b, n);
          assert IsGauge(table, extra, a, m, i) && IsGauge(table, extra, b, n, i);
          DifferMeans(m, n);
        }
      }
    }
    if forall i :: 0 <= i < |table| ==> !(table[i].1 in a && table[i].1 in b) {
      forall m, n | m in Gauges(table, extra, a) && n in Gauges(table, extra, b) ensures Differ(m, n) {
        GaugesMember(table, extra, a, m);
        GaugesMember(table, extra, b, n);
        var i :| IsGauge(table, extra, a, m, i);
        var j :| IsGauge(table, extra, b, n, j);
        assert i != j;
        assert Suffixes(table)[i] != Suffixes(table)[j];
        if m.name == n.name {
          PrefixInjective(table[i].0, table[j].0);
        }
        DifferMeans(m, n);
      }
    }
  }

  lemma ExtraDiffers(a: seq<Metric>, b: seq<Metric>)
    requires forall m, n :: m in a && n in b ==> m.extra != n.extra
    ensures Across(a, b, Differ)
  {
    forall m, n | m in a && n in b ensures Differ(m, n) {
      DifferMeans(m, n);
    }
  }

  /** Extra labels of a hop's metrics begin with its target and number. */
  lemma HopExtra(target: string, hop: MtrHop, m: Metric)
    requires m in HopMetrics(target, hop)
    ensures |m.extra| >= 2 && m.extra[1] == Label("hop_num", Decimal.Str(hop.hopNum))
  {
    GaugesMember(MTR_NUMERIC, HopLabels(target, hop), hop.numeric, m);
  }

  lemma AcrossParts<T>(a: seq<T>, a': seq<T>, b: seq<T>, b': seq<T>, rel: (T, T) -> bool)
    ensures Across(a + a', b + b', rel) <==>
      Across(a, b, rel) && Across(a, b', rel) && Across(a', b, rel) && Across(a', b', rel)
  {
    assert forall x :: x in a + a' <==> x in a || x in a';
    assert forall x :: x in b + b' <==> x in b || x in b';
  }

  lemma HopApartMeans(target: string, h: MtrHop, k: MtrHop)
    ensures Across(HopMetrics(target, h), HopMetrics(target, k), Differ) <==> HopApart(h, k)
  {
    if h.hopNum != k.hopNum {
      if Decimal.Str(h.hopNum) == Decimal.Str(k.hopNum) {
        Decimal.StrInjective(h.hopNum, k.hopNum);
      }
      forall m, n | m in HopMetrics(target, h) && n in HopMetrics(target, k) ensures m.extra != n.extra {
        HopExtra(target, h, m);
        HopExtra(target, k, n);
      }
      ExtraDiffers(HopMetrics(target, h), HopMetrics(target, k));
    } else {
      SameHopApart(target, h, k);
    }
  }

  lemma SameHopApart(target: string, h: MtrHop, k: MtrHop)
    requires h.hopNum == k.hopNum
    ensures Across(HopMetrics(target, h), HopMetrics(target, k), Differ) <==> HopApart(h, k)
  {
    var base := HopLabels(target, h);
    var gh, gk := Gauges(MTR_NUMERIC, base, h.numeric), Gauges(MTR_NUMERIC, base, k.numeric);
    var ih, ik := HopInfo(target, h), HopInfo(target, k);
    MtrNames();
    AcrossParts(gh, ih, gk, ik, Differ);
    GaugesAcross(MTR_NUMERIC, base, h.numeric, k.numeric);
    forall m | m in gh || m in gk ensures |m.extra| == 2 {
      GaugesMember(MTR_NUMERIC, base, h.numeric, m);
      GaugesMember(MTR_NUMERIC, base, k.numeric, m);
    }
    ExtraDiffers(gh, ik);
    ExtraDiffers(ih, gk);
    if h.host.Some? && k.host.Some? {
      DifferMeans(ih[0], ik[0]);
      assert ih[0] in ih && ik[0] in ik;
      assert ih[0].extra[2] == Label("host", h.host.value) && ik[0].extra[2] == Label("host", k.host.value);
      assert Across(ih, ik, Differ) <==> Differ(ih[0], ik[0]);
    }
  }

  /** An mtr payload projects onto distinct label sets exactly when no two of its hops share a
      number together with a present measurement or a host. */
  lemma MtrLabelsDistinct(p: MtrPayload)
    ensures LabelsDistinct(MtrMetrics(p)) <==> Pairwise(p.hops, HopApart)
    ensures Named(MtrMetrics(p), MTR_NAMES)
  {
    var project := hop => HopMetrics(p.target, hop);
    var parts := Map(p.hops, project);
    PairwiseJoin(parts, Differ);
    forall hop {
      HopDistinct(p.target, hop);
    }
    forall h, k {
      HopApartMeans(p.target, h, k);
    }
    PairwiseMapped(p.hops, project, (a, b) => Across(a, b, Differ), HopApart);
    forall m: Metric | m in MtrMetrics(p) ensures exists s :: s in MTR_NAMES && m.name == METRIC_PREFIX + s {
      JoinHas(parts, m);
    }
  }

  // ----- label sets of different tables -----

  const MODEM_FAMILY := "knausen_modem_"
  const PROBE_FAMILY := "knausen_probe_"
  const MTR_FAMILY := "knausen_mtr_"

  lemma FamilyOf(ms: seq<Metric>, names: seq<string>, family: string, stem: string)
    requires Named(ms, names)
    requires family == METRIC_PREFIX + stem
    requires forall s :: s in names ==> stem <= s
    ensures forall m :: m in ms ==> family <= m.name
  {
    forall m | m in ms ensures family <= m.name {
      var s :| s in names && m.name == METRIC_PREFIX + s;
      assert s == stem + s[|stem|..];
      assert m.name == family + s[|stem|..];
    }
  }

  lemma ModemFamily(p: ModemPayload)
    ensures forall m :: m in ModemMetrics(p) ==> MODEM_FAMILY <= m.name
  {
    ModemLabelsDistinct(p);
    Stems();
    FamilyOf(ModemMetrics(p), MODEM_NAMES, MODEM_FAMILY, "modem_");
  }

  lemma ProbeFamily(p: ProbePayload)
    ensures forall m :: m in ProbeMetrics(p) ==> PROBE_FAMILY <= m.name
  {
    ProbeLabelsDistinct(p);
    Stems();
    FamilyOf(ProbeMetrics(p), PROBE_NAMES, PROBE_FAMILY, "probe_");
  }

  lemma MtrFamily(p: MtrPayload)
    ensures forall m :: m in MtrMetrics(p) ==> MTR_FAMILY <= m.name
  {
    MtrLabelsDistinct(p);
    Stems();
    FamilyOf(MtrMetrics(p), MTR_NAMES, MTR_FAMILY, "mtr_");
  }

  lemma Stems()
    ensures forall s :: s in MODEM_NAMES ==> "modem_" <= s
    ensures forall s :: s in PROBE_NAMES ==> "probe_" <= s
    ensures forall s :: s in MTR_NAMES ==> "mtr_" <= s
    ensures MODEM_FAMILY == METRIC_PREFIX + "modem_"
    ensures PROBE_FAMILY == METRIC_PREFIX + "probe_"
    ensures MTR_FAMILY == METRIC_PREFIX + "mtr_"
  {
  }
}
