/** What the projections say about a payload: which values appear under which names and labels,
    and how the derived gauges relate to the ones they are derived from. */
module Projections {
  import opened Options
  import opened Model
  import opened Seqs
  import opened Metrics

  // ----- unlabelled gauges -----

  /** The value of the first metric called `knausen_<suffix>`, if there is one. */
  function Shown(ms: seq<Metric>, suffix: string): Option<real> {
    if ms == [] then None
    else if ms[0].name == METRIC_PREFIX + suffix then Some(ms[0].value)
    else Shown(ms[1..], suffix)
  }

  /** `knausen_<suffix>` appears, without further labels, with the value `v` and no other; or,
      for None, not at all. */
  ghost predicate Shows(ms: seq<Metric>, suffix: string, v: Option<real>) {
    && (v.Some? ==> Metric(METRIC_PREFIX + suffix, [], v.value) in ms)
    && forall m :: m in ms && m.name == METRIC_PREFIX + suffix ==> m.extra == [] && v == Some(m.value)
  }

  lemma {:induction false} ShownIs(ms: seq<Metric>, suffix: string, v: Option<real>)
    requires forall m :: m in ms && m.name == METRIC_PREFIX + suffix ==> v == Some(m.value)
    requires v.Some? ==> exists m :: m in ms && m.name == METRIC_PREFIX + suffix
    ensures Shown(ms, suffix) == v
  {
    if ms != [] {
      assert ms[0] in ms;
      if ms[0].name != METRIC_PREFIX + suffix {
        ShownIs(ms[1..], suffix, v);
      }
    }
  }

  lemma OnlyNames(ms: seq<Metric>, names: seq<string>, suffix: string)
    requires Named(ms, names) && suffix !in names
    ensures forall m :: m in ms ==> m.name != METRIC_PREFIX + suffix
  {
    forall m | m in ms ensures m.name != METRIC_PREFIX + suffix {
      var s :| s in names && m.name == METRIC_PREFIX + s;
      if m.name == METRIC_PREFIX + suffix {
        PrefixInjective(s, suffix);
      }
    }
  }

  lemma GaugesShow(table: Table, numeric: map<string, real>, i: nat)
    requires Distinct(Suffixes(table)) && i < |table|
    ensures Shows(Gauges(table, [], numeric), table[i].0, Get(numeric, table[i].1))
  {
    var ms, name := Gauges(table, [], numeric), METRIC_PREFIX + table[i].0;
    GaugesDistinct(table, [], numeric);
    if table[i].1 in numeric {
      var m := Metric(name, [], numeric[table[i].1]);
      assert IsGauge(table, [], numeric, m, i);
      GaugesMember(table, [], numeric, m);
    }
    forall m | m in ms && m.name == name ensures m.extra == [] && Get(numeric, table[i].1) == Some(m.value) {
      GaugesMember(table, [], numeric, m);
      var j :| IsGauge(table, [], numeric, m, j);
      PrefixInjective(table[i].0, table[j].0);
      assert Suffixes(table)[i] == Suffixes(table)[j];
    }
  }

  lemma {:induction false} EmitAllShow(slots: seq<(string, Option<real>)>, i: nat)
    requires Distinct(Suffixes(slots)) && i < |slots|
    ensures Shows(EmitAll(slots), slots[i].0, slots[i].1)
  {
    var tail := slots[1..];
    assert Suffixes(slots) == [slots[0].0] + Suffixes(tail);
    DistinctSplit([slots[0].0], Suffixes(tail));
    EmitAllDistinct(tail);
    if i == 0 {
      assert slots[0].0 in [slots[0].0];
      OnlyNames(EmitAll(tail), Suffixes(tail), slots[0].0);
    } else {
      EmitAllShow(tail, i - 1);
      assert slots[i].0 == Suffixes(tail)[i - 1] && slots[i].0 in Suffixes(tail);
      assert slots[0].0 in [slots[0].0];
      if METRIC_PREFIX + slots[0].0 == METRIC_PREFIX + slots[i].0 {
        PrefixInjective(slots[0].0, slots[i].0);
      }
    }
  }

  // ----- parts under distinct names -----

  ghost predicate Parts(a: seq<Metric>, namesA: seq<string>, b: seq<Metric>, namesB: seq<string>,
                        c: seq<Metric>, namesC: seq<string>) {
    Named(a, namesA) && Named(b, namesB) && Named(c, namesC) && Distinct(namesA + namesB + namesC)
  }

  /** A metric of the whole belongs to the part that has its name. */
  lemma PartOf(a: seq<Metric>, namesA: seq<string>, b: seq<Metric>, namesB: seq<string>,
               c: seq<Metric>, namesC: seq<string>, suffix: string)
    requires Parts(a, namesA, b, namesB, c, namesC)
    ensures suffix in namesA ==> forall m: Metric :: m.name == METRIC_PREFIX + suffix ==> (m in a + b + c <==> m in a)
    ensures suffix in namesB ==> forall m: Metric :: m.name == METRIC_PREFIX + suffix ==> (m in a + b + c <==> m in b)
    ensures suffix in namesC ==> forall m: Metric :: m.name == METRIC_PREFIX + suffix ==> (m in a + b + c <==> m in c)
  {
    DistinctSplit(namesA + namesB, namesC);
    DistinctSplit(namesA, namesB);
    assert suffix in namesA || suffix in namesB ==> suffix in namesA + namesB;
    if suffix !in namesA { OnlyNames(a, namesA, suffix); }
    if suffix !in namesB { OnlyNames(b, namesB, suffix); }
    if suffix !in namesC { OnlyNames(c, namesC, suffix); }
  }

  lemma GaugePartShows(table: Table, numeric: map<string, real>, i: nat, b: seq<Metric>, namesB: seq<string>,
                       c: seq<Metric>, namesC: seq<string>)
    requires i < |table| && Parts(Gauges(table, [], numeric), Suffixes(table), b, namesB, c, namesC)
    ensures Shows(Gauges(table, [], numeric) + b + c, table[i].0, Get(numeric, table[i].1))
  {
    DistinctSplit(Suffixes(table) + namesB, namesC);
    DistinctSplit(Suffixes(table), namesB);
    GaugesShow(table, numeric, i);
    assert Suffixes(table)[i] == table[i].0;
    PartOf(Gauges(table, [], numeric), Suffixes(table), b, namesB, c, namesC, table[i].0);
  }

  lemma SlotPartShows(a: seq<Metric>, namesA: seq<string>, slots: seq<(string, Option<real>)>, i: nat,
                      c: seq<Metric>, namesC: seq<string>)
    requires i < |slots| && Parts(a, namesA, EmitAll(slots), Suffixes(slots), c, namesC)
    ensures Shows(a + EmitAll(slots) + c, slots[i].0, slots[i].1)
  {
    DistinctSplit(namesA + Suffixes(slots), namesC);
    DistinctSplit(namesA, Suffixes(slots));
    EmitAllShow(slots, i);
    assert Suffixes(slots)[i] == slots[i].0;
    PartOf(a, namesA, EmitAll(slots), Suffixes(slots), c, namesC, slots[i].0);
  }

  // ----- modem -----

  function ModemInfo(p: ModemPayload): seq<Metric> {
    [Metric(METRIC_PREFIX + "modem_info", InfoLabels(p), 1.0)]
  }

  lemma ModemSuffixes(p: ModemPayload)
    ensures Suffixes(MODEM_NUMERIC) == MODEM_GAUGES && Suffixes(ModemDerived(p)) == MODEM_DERIVED
  {
  }

  lemma ModemParts(p: ModemPayload)
    ensures Parts(Gauges(MODEM_NUMERIC, [], p.numeric), Suffixes(MODEM_NUMERIC),
                  EmitAll(ModemDerived(p)), Suffixes(ModemDerived(p)), ModemInfo(p), ["modem_info"])
  {
    ModemSuffixes(p);
    ModemNamesDistinct();
    ModemGaugesDistinct(p);
    ModemDerivedDistinct(p);
    SingleNamed("modem_info", InfoLabels(p), 1.0);
  }

  lemma ModemGaugeShown(p: ModemPayload, i: nat)
    requires i < |MODEM_NUMERIC|
    ensures Shows(ModemMetrics(p), MODEM_NUMERIC[i].0, Get(p.numeric, MODEM_NUMERIC[i].1))
  {
    ModemParts(p);
    GaugePartShows(MODEM_NUMERIC, p.numeric, i, EmitAll(ModemDerived(p)), Suffixes(ModemDerived(p)),
                   ModemInfo(p), ["modem_info"]);
  }

  lemma ModemDerivedShown(p: ModemPayload, i: nat)
    requires i < |ModemDerived(p)|
    ensures Shows(ModemMetrics(p), ModemDerived(p)[i].0, ModemDerived(p)[i].1)
  {
    ModemParts(p);
    SlotPartShows(Gauges(MODEM_NUMERIC, [], p.numeric), Suffixes(MODEM_NUMERIC), ModemDerived(p), i,
                  ModemInfo(p), ["modem_info"]);
  }

  const MODEM_KEYS: seq<string> := [
    "rsrp_dbm", "rsrq_db", "snr_db", "rssi_dbm", "cqi", "pci", "cid", "tac", "mcc", "mnc",
    "earfcn_primary", "earfcn_secondary", "data_usage_tx_bytes", "data_usage_rx_bytes"]

  ghost predicate NamedAfter(entry: (string, string), stem: string, key: string) {
    entry.0 == stem + key && entry.1 == key
  }

  lemma ModemNamingA(i: nat)
    requires i < 7
    ensures NamedAfter(MODEM_NUMERIC[i], "modem_", MODEM_KEYS[i])
  {
  }

  lemma ModemNamingB(i: nat)
    requires 7 <= i < 11
    ensures NamedAfter(MODEM_NUMERIC[i], "modem_", MODEM_KEYS[i])
  {
  }

  lemma ModemNamingC(i: nat)
    requires 11 <= i < 14
    ensures NamedAfter(MODEM_NUMERIC[i], "modem_", MODEM_KEYS[i])
  {
  }

  lemma ModemNaming(i: nat)
    requires i < 14
    ensures NamedAfter(MODEM_NUMERIC[i], "modem_", MODEM_KEYS[i])
  {
    if i < 7 {
      ModemNamingA(i);
    } else if i < 11 {
      ModemNamingB(i);
    } else {
      ModemNamingC(i);
    }
  }

  /** Every plain modem gauge is named after the payload key it carries: nothing is swapped. */
  lemma ModemGaugesNamedAfterKeys(p: ModemPayload, key: string)
    requires key in [
      "rsrp_dbm", "rsrq_db", "snr_db", "rssi_dbm", "cqi", "pci", "cid", "tac", "mcc", "mnc",
      "earfcn_primary", "earfcn_secondary", "data_usage_tx_bytes", "data_usage_rx_bytes"]
    ensures Shows(ModemMetrics(p), "modem_" + key, if key in p.numeric then Some(p.numeric[key]) else None)
  {
    var i :| 0 <= i < |MODEM_KEYS| && MODEM_KEYS[i] == key;
    ModemNaming(i);
    ModemGaugeShown(p, i);
  }

  /** The two flags: connected or not, if known; and whether there is a second band. */
  lemma ModemFlagsShown(p: ModemPayload)
    ensures Shows(ModemMetrics(p), "modem_connected",
                  match p.connected case None => None case Some(b) => Some(if b then 1.0 else 0.0))
    ensures Shows(ModemMetrics(p), "modem_carrier_aggregation", Some(if p.bandSecondary.Some? then 1.0 else 0.0))
  {
    ModemDerivedShown(p, 0);
    ModemDerivedShown(p, 1);
  }

  /** The text, or the empty string. */
  function Text(s: Option<string>): string {
    match s case Some(t) => t case None => ""
  }

  /** The info series: constantly 1, with the modem's texts as labels and the bands also by name. */
  lemma ModemInfoShown(p: ModemPayload, m: Metric)
    ensures m in ModemMetrics(p) && m.name == METRIC_PREFIX + "modem_info" <==>
      m == Metric(METRIC_PREFIX + "modem_info", [
        Label("operator", Text(p.operator)), Label("network_type", Text(p.networkType)),
        Label("band_primary", Text(p.bandPrimary)), Label("band_secondary", Text(p.bandSecondary)),
        Label("band_primary_name", BandName(p.bandPrimary)),
        Label("band_secondary_name", BandName(p.bandSecondary))], 1.0)
  {
    ModemParts(p);
    assert "modem_info" in ["modem_info"];
    PartOf(Gauges(MODEM_NUMERIC, [], p.numeric), Suffixes(MODEM_NUMERIC), EmitAll(ModemDerived(p)),
           Suffixes(ModemDerived(p)), ModemInfo(p), ["modem_info"], "modem_info");
  }

  ghost predicate InGib(bytes: Option<real>, gb: Option<real>) {
    (bytes.Some? <==> gb.Some?) && (bytes.Some? ==> gb.value * 1073741824.0 == bytes.value)
  }

  /** The usage gauges agree with each other: whatever is shown as `_gb` is the byte gauge in
      GiB, and a total is shown exactly when both halves are, as their sum. */
  ghost predicate UsageAgrees(ms: seq<Metric>) {
    var tx, rx := Shown(ms, "modem_data_usage_tx_bytes"), Shown(ms, "modem_data_usage_rx_bytes");
    var total := Shown(ms, "modem_data_usage_total_bytes");
    && InGib(tx, Shown(ms, "modem_data_usage_tx_gb"))
    && InGib(rx, Shown(ms, "modem_data_usage_rx_gb"))
    && InGib(total, Shown(ms, "modem_data_usage_total_gb"))
    && (total.Some? <==> tx.Some? && rx.Some?)
    && (total.Some? ==> total.value == tx.value + rx.value)
  }

  lemma ModemUsageAgrees(p: ModemPayload)
    ensures UsageAgrees(ModemMetrics(p))
  {
    ModemGaugeShown(p, 12);
    ModemGaugeShown(p, 13);
    ModemDerivedShown(p, 2);
    ModemDerivedShown(p, 3);
    ModemDerivedShown(p, 4);
    ModemDerivedShown(p, 5);
    UsageOf(ModemMetrics(p), Get(p.numeric, "data_usage_tx_bytes"), Get(p.numeric, "data_usage_rx_bytes"));
  }

  lemma UsageOf(ms: seq<Metric>, tx: Option<real>, rx: Option<real>)
    requires Shows(ms, "modem_data_usage_tx_bytes", tx) && Shows(ms, "modem_data_usage_rx_bytes", rx)
    requires Shows(ms, "modem_data_usage_total_bytes", Sum(tx, rx))
    requires Shows(ms, "modem_data_usage_tx_gb", Scaled(tx)) && Shows(ms, "modem_data_usage_rx_gb", Scaled(rx))
    requires Shows(ms, "modem_data_usage_total_gb", Scaled(Sum(tx, rx)))
    ensures UsageAgrees(ms)
  {
    ShownIs(ms, "modem_data_usage_tx_bytes", tx);
    ShownIs(ms, "modem_data_usage_rx_bytes", rx);
    ShownIs(ms, "modem_data_usage_total_bytes", Sum(tx, rx));
    ShownIs(ms, "modem_data_usage_tx_gb", Scaled(tx));
    ShownIs(ms, "modem_data_usage_rx_gb", Scaled(rx));
    ShownIs(ms, "modem_data_usage_total_gb", Scaled(Sum(tx, rx)));
  }

  // ----- probe -----

  lemma ProbeSuffixes(p: ProbePayload)
    ensures Suffixes(PROBE_NUMERIC) == PROBE_GAUGES && Suffixes([("probe_ok", Flag(p.ok))]) == ["probe_ok"]
    ensures Suffixes(CHECKPOINT_METRICS) == CHECKPOINT_NAMES
  {
  }

  function ProbeTail(p: ProbePayload): seq<Metric> {
    CheckpointMetrics(CHECKPOINT_METRICS, p.checkpoints) + Join(Map(p.dns, DnsMetrics))
  }

  lemma ProbeFront(p: ProbePayload)
    ensures Named(Gauges(PROBE_NUMERIC, [], p.numeric), PROBE_GAUGES)
    ensures Named(EmitAll([("probe_ok", Flag(p.ok))]), ["probe_ok"])
  {
    ProbeNames();
    ProbeSuffixes(p);
    GaugesDistinct(PROBE_NUMERIC, [], p.numeric);
    EmitAllDistinct([("probe_ok", Flag(p.ok))]);
  }

  lemma ProbeBack(p: ProbePayload)
    ensures Named(CheckpointMetrics(CHECKPOINT_METRICS, p.checkpoints), CHECKPOINT_NAMES)
    ensures Named(Join(Map(p.dns, DnsMetrics)), DNS_NAMES)
    ensures Named(ProbeTail(p), CHECKPOINT_NAMES + DNS_NAMES)
  {
    ProbeNames();
    CheckpointMetricsDistinct(CHECKPOINT_METRICS, p.checkpoints);
    DnsDistinct(p.dns);
    NamedAppend(CheckpointMetrics(CHECKPOINT_METRICS, p.checkpoints), CHECKPOINT_NAMES, Join(Map(p.dns, DnsMetrics)),
                DNS_NAMES);
  }

  lemma NamedAppend(a: seq<Metric>, namesA: seq<string>, b: seq<Metric>, namesB: seq<string>)
    requires Named(a, namesA) && Named(b, namesB)
    ensures Named(a + b, namesA + namesB)
  {
  }

  lemma ProbeNamesGrouped()
    ensures Distinct(PROBE_GAUGES + ["probe_ok"] + (CHECKPOINT_NAMES + DNS_NAMES))
  {
    ProbeNames();
    assert PROBE_GAUGES + ["probe_ok"] + (CHECKPOINT_NAMES + DNS_NAMES) == PROBE_NAMES;
  }

  lemma ProbeParts(p: ProbePayload)
    ensures Parts(Gauges(PROBE_NUMERIC, [], p.numeric), Suffixes(PROBE_NUMERIC),
                  EmitAll([("probe_ok", Flag(p.ok))]), Suffixes([("probe_ok", Flag(p.ok))]),
                  ProbeTail(p), CHECKPOINT_NAMES + DNS_NAMES)
  {
    ProbeSuffixes(p);
    ProbeNamesGrouped();
    ProbeFront(p);
    ProbeBack(p);
  }

  lemma ProbeGrouped(p: ProbePayload)
    ensures ProbeMetrics(p) == Gauges(PROBE_NUMERIC, [], p.numeric) + EmitAll([("probe_ok", Flag(p.ok))]) + ProbeTail(p)
  {
    Associative(Gauges(PROBE_NUMERIC, [], p.numeric) + EmitAll([("probe_ok", Flag(p.ok))]),
                CheckpointMetrics(CHECKPOINT_METRICS, p.checkpoints), Join(Map(p.dns, DnsMetrics)));
  }

  const PROBE_KEYS: seq<string> := [
    "ping_rtt_ms_p50", "ping_rtt_ms_p95", "ping_loss_pct", "tcp_connect_ms", "tls_handshake_ms", "https_head_ms"]

  lemma ProbeNamingA(i: nat)
    requires i < 3
    ensures NamedAfter(PROBE_NUMERIC[i], "probe_", PROBE_KEYS[i])
  {
  }

  lemma ProbeNamingB(i: nat)
    requires 3 <= i < 6
    ensures NamedAfter(PROBE_NUMERIC[i], "probe_", PROBE_KEYS[i])
  {
  }

  lemma ProbeGaugeShown(p: ProbePayload, i: nat)
    requires i < |PROBE_NUMERIC|
    ensures Shows(ProbeMetrics(p), PROBE_NUMERIC[i].0, Get(p.numeric, PROBE_NUMERIC[i].1))
  {
    ProbeParts(p);
    ProbeGrouped(p);
    GaugePartShows(PROBE_NUMERIC, p.numeric, i, EmitAll([("probe_ok", Flag(p.ok))]),
                   Suffixes([("probe_ok", Flag(p.ok))]), ProbeTail(p), CHECKPOINT_NAMES + DNS_NAMES);
  }

  /** Every plain probe gauge is named after the payload key it carries. */
  lemma ProbeGaugesNamedAfterKeys(p: ProbePayload, key: string)
    requires key in [
      "ping_rtt_ms_p50", "ping_rtt_ms_p95", "ping_loss_pct", "tcp_connect_ms", "tls_handshake_ms", "https_head_ms"]
    ensures Shows(ProbeMetrics(p), "probe_" + key, if key in p.numeric then Some(p.numeric[key]) else None)
  {
    var i :| 0 <= i < |PROBE_KEYS| && PROBE_KEYS[i] == key;
    if i < 3 {
      ProbeNamingA(i);
    } else {
      ProbeNamingB(i);
    }
    ProbeGaugeShown(p, i);
  }

  /** The health flag, if there is one. */
  lemma ProbeOkShown(p: ProbePayload)
    ensures Shows(ProbeMetrics(p), "probe_ok",
                  match p.ok case None => None case Some(b) => Some(if b then 1.0 else 0.0))
  {
    ProbeParts(p);
    ProbeGrouped(p);
    SlotPartShows(Gauges(PROBE_NUMERIC, [], p.numeric), Suffixes(PROBE_NUMERIC), [("probe_ok", Flag(p.ok))], 0,
                  ProbeTail(p), CHECKPOINT_NAMES + DNS_NAMES);
  }

  lemma {:induction false} CheckpointGaugesMember(suffix: string, per: Dict, m: Metric)
    ensures m in CheckpointGauges(suffix, per) <==>
      |m.extra| == 1 && m == Metric(METRIC_PREFIX + suffix, [Label("checkpoint", m.extra[0].value)], m.value)
      && (m.extra[0].value, Some(m.value)) in per
  {
    if per != [] {
      var tail: Dict := per[1..];
      CheckpointGaugesMember(suffix, tail, m);
      assert per == [per[0]] + tail;
    }
  }

  function PerCheckpoint(checkpoints: map<string, Dict>, key: string): Dict {
    if key in checkpoints then checkpoints[key] else []
  }

  lemma {:induction false} CheckpointTableMember(table: Table, checkpoints: map<string, Dict>, i: nat, m: Metric)
    requires Distinct(Suffixes(table)) && i < |table| && m.name == METRIC_PREFIX + table[i].0
    ensures m in CheckpointMetrics(table, checkpoints) <==>
      m in CheckpointGauges(table[i].0, PerCheckpoint(checkpoints, table[i].1))
  {
    var tail, per := table[1..], PerCheckpoint(checkpoints, table[0].1);
    assert Suffixes(table) == [table[0].0] + Suffixes(tail);
    DistinctSplit([table[0].0], Suffixes(tail));
    assert table[0].0 in [table[0].0];
    if i == 0 {
      CheckpointMetricsDistinct(tail, checkpoints);
      OnlyNames(CheckpointMetrics(tail, checkpoints), Suffixes(tail), table[0].0);
    } else {
      CheckpointTableMember(tail, checkpoints, i - 1, m);
      assert table[i].0 == Suffixes(tail)[i - 1] && table[i].0 in Suffixes(tail);
      CheckpointGaugesDistinct(table[0].0, per);
      OnlyNames(CheckpointGauges(table[0].0, per), [table[0].0], table[i].0);
    }
  }

  lemma InTail(p: ProbePayload, suffix: string)
    ensures suffix in CHECKPOINT_NAMES ==> forall m: Metric :: m.name == METRIC_PREFIX + suffix ==>
      (m in ProbeMetrics(p) <==> m in CheckpointMetrics(CHECKPOINT_METRICS, p.checkpoints))
    ensures suffix in DNS_NAMES ==> forall m: Metric :: m.name == METRIC_PREFIX + suffix ==>
      (m in ProbeMetrics(p) <==> m in Join(Map(p.dns, DnsMetrics)))
  {
    ProbeFront(p);
    ProbeBack(p);
    NamedAppend(Gauges(PROBE_NUMERIC, [], p.numeric), PROBE_GAUGES, EmitAll([("probe_ok", Flag(p.ok))]), ["probe_ok"]);
    ProbeNames();
    PartOf(Gauges(PROBE_NUMERIC, [], p.numeric) + EmitAll([("probe_ok", Flag(p.ok))]), PROBE_GAUGES + ["probe_ok"],
           CheckpointMetrics(CHECKPOINT_METRICS, p.checkpoints), CHECKPOINT_NAMES,
           Join(Map(p.dns, DnsMetrics)), DNS_NAMES, suffix);
  }

  const CHECKPOINT_KEYS: seq<string> := ["checkpoint_rtt_ms_p50", "checkpoint_rtt_ms_p95", "checkpoint_loss_pct"]

  lemma CheckpointNaming(i: nat)
    requires i < 3
    ensures NamedAfter(CHECKPOINT_METRICS[i], "probe_", CHECKPOINT_KEYS[i])
    ensures CHECKPOINT_METRICS[i].0 in CHECKPOINT_NAMES
  {
    assert CHECKPOINT_METRICS[i].0 == CHECKPOINT_NAMES[i];
  }

  /** A checkpoint gauge is named after its key, and shown exactly for the entries of its dict that
      are not null. */
  lemma CheckpointsShown(p: ProbePayload, key: string, checkpoint: string, v: real)
    requires key in ["checkpoint_rtt_ms_p50", "checkpoint_rtt_ms_p95", "checkpoint_loss_pct"]
    ensures Metric(METRIC_PREFIX + ("probe_" + key), [Label("checkpoint", checkpoint)], v) in ProbeMetrics(p) <==>
      key in p.checkpoints && (checkpoint, Some(v)) in p.checkpoints[key]
  {
    var i :| 0 <= i < |CHECKPOINT_KEYS| && CHECKPOINT_KEYS[i] == key;
    CheckpointNaming(i);
    CheckpointShownAs(p, i, checkpoint, v);
  }

  lemma CheckpointShownAs(p: ProbePayload, i: nat, checkpoint: string, v: real)
    requires i < |CHECKPOINT_METRICS| && CHECKPOINT_METRICS[i].0 in CHECKPOINT_NAMES
    ensures Metric(METRIC_PREFIX + CHECKPOINT_METRICS[i].0, [Label("checkpoint", checkpoint)], v) in ProbeMetrics(p)
      <==> (checkpoint, Some(v)) in PerCheckpoint(p.checkpoints, CHECKPOINT_METRICS[i].1)
  {
    var m := Metric(METRIC_PREFIX + CHECKPOINT_METRICS[i].0, [Label("checkpoint", checkpoint)], v);
    ProbeNames();
    InTail(p, CHECKPOINT_METRICS[i].0);
    CheckpointTableMember(CHECKPOINT_METRICS, p.checkpoints, i, m);
    CheckpointGaugesMember(CHECKPOINT_METRICS[i].0, PerCheckpoint(p.checkpoints, CHECKPOINT_METRICS[i].1), m);
  }

  lemma DnsMember(dns: seq<DnsEntry>, m: Metric)
    ensures m in Join(Map(dns, DnsMetrics)) <==> exists d :: d in dns && m in DnsMetrics(d)
  {
    var parts := Map(dns, DnsMetrics);
    JoinHas(parts, m);
    if m in Join(parts) {
      var i :| 0 <= i < |parts| && m in parts[i];
      assert dns[i] in dns;
    }
    if d :| d in dns && m in DnsMetrics(d) {
      var i :| 0 <= i < |dns| && dns[i] == d;
      assert m in parts[i];
    }
  }

  lemma DnsEntryMember(d: DnsEntry, labels: Labels, v: real)
    ensures Metric(METRIC_PREFIX + "probe_dns_lookup_ms", labels, v) in DnsMetrics(d) <==>
      DnsLabels(d) == labels && d.p50 == Some(v)
    ensures Metric(METRIC_PREFIX + "probe_dns_loss_pct", labels, v) in DnsMetrics(d) <==>
      DnsLabels(d) == labels && d.loss == Some(v)
  {
    DnsNamesDiffer();
  }

  lemma DnsShown(p: ProbePayload, labels: Labels, v: real)
    ensures Metric(METRIC_PREFIX + "probe_dns_lookup_ms", labels, v) in ProbeMetrics(p) <==>
      exists d :: d in p.dns && DnsLabels(d) == labels && d.p50 == Some(v)
    ensures Metric(METRIC_PREFIX + "probe_dns_loss_pct", labels, v) in ProbeMetrics(p) <==>
      exists d :: d in p.dns && DnsLabels(d) == labels && d.loss == Some(v)
  {
    assert DNS_NAMES[0] in DNS_NAMES && DNS_NAMES[1] in DNS_NAMES;
    InTail(p, "probe_dns_lookup_ms");
    InTail(p, "probe_dns_loss_pct");
    var lookup := Metric(METRIC_PREFIX + "probe_dns_lookup_ms", labels, v);
    var loss := Metric(METRIC_PREFIX + "probe_dns_loss_pct", labels, v);
    DnsMember(p.dns, lookup);
    DnsMember(p.dns, loss);
    forall d {
      DnsEntryMember(d, labels, v);
    }
  }

  lemma DnsPrefixed()
    ensures METRIC_PREFIX + "probe_dns_lookup_ms" == "knausen_probe_dns_lookup_ms"
    ensures METRIC_PREFIX + "probe_dns_loss_pct" == "knausen_probe_dns_loss_pct"
  {
  }

  /** The labels tell the resolver's address, its address family and where it comes from. */
  ghost predicate Describes(labels: Labels, d: DnsEntry) {
    labels == [Label("resolver", d.resolver), Label("family", d.family), Label("source", d.source)]
  }

  /** A resolver's lookup time and loss are shown under its own labels, each exactly when present. */
  lemma ResolversShown(p: ProbePayload, labels: Labels, v: real)
    ensures Metric("knausen_probe_dns_lookup_ms", labels, v) in ProbeMetrics(p) <==>
      exists d :: d in p.dns && Describes(labels, d) && d.p50 == Some(v)
    ensures Metric("knausen_probe_dns_loss_pct", labels, v) in ProbeMetrics(p) <==>
      exists d :: d in p.dns && Describes(labels, d) && d.loss == Some(v)
  {
    DnsPrefixed();
    assert forall d: DnsEntry :: Describes(labels, d) <==> DnsLabels(d) == labels;
    DnsShown(p, labels, v);
  }

  // ----- mtr -----

  lemma HopMember(target: string, hop: MtrHop, i: nat, labels: Labels, v: real)
    requires i < |MTR_NUMERIC|
    ensures Metric(METRIC_PREFIX + MTR_NUMERIC[i].0, labels, v) in HopMetrics(target, hop) <==>
      HopLabels(target, hop) == labels && Get(hop.numeric, MTR_NUMERIC[i].1) == Some(v)
  {
    MtrNames();
    assert MTR_NUMERIC[i].0 == Suffixes(MTR_NUMERIC)[i];
    HopMemberOf(MTR_NUMERIC, HopLabels(target, hop), hop.numeric, HopInfo(target, hop), i, labels, v);
  }

  lemma HopMemberOf(table: Table, extra: Labels, numeric: map<string, real>, info: seq<Metric>, i: nat,
                    labels: Labels, v: real)
    requires i < |table| && Distinct(Suffixes(table))
    requires Named(info, ["mtr_hop_info"]) && Disjoint(Suffixes(table), ["mtr_hop_info"])
    ensures Metric(METRIC_PREFIX + table[i].0, labels, v) in Gauges(table, extra, numeric) + info <==>
      extra == labels && Get(numeric, table[i].1) == Some(v)
  {
    var m := Metric(METRIC_PREFIX + table[i].0, labels, v);
    assert Suffixes(table)[i] in Suffixes(table);
    OnlyNames(info, ["mtr_hop_info"], table[i].0);
    GaugesMember(table, extra, numeric, m);
    if j :| IsGauge(table, extra, numeric, m, j) {
      PrefixInjective(table[i].0, table[j].0);
      assert Suffixes(table)[i] == Suffixes(table)[j];
    }
    if extra == labels && Get(numeric, table[i].1) == Some(v) {
      assert IsGauge(table, extra, numeric, m, i);
    }
  }

  lemma TableHopsShown(p: MtrPayload, i: nat, labels: Labels, v: real)
    requires i < |MTR_NUMERIC|
    ensures Metric(METRIC_PREFIX + MTR_NUMERIC[i].0, labels, v) in MtrMetrics(p) <==>
      exists h :: h in p.hops && HopLabels(p.target, h) == labels && Get(h.numeric, MTR_NUMERIC[i].1) == Some(v)
  {
    var m := Metric(METRIC_PREFIX + MTR_NUMERIC[i].0, labels, v);
    forall h: MtrHop {
      HopMember(p.target, h, i, labels, v);
    }
    MtrMember(p, m);
  }

  lemma MtrMember(p: MtrPayload, m: Metric)
    ensures m in MtrMetrics(p) <==> exists h :: h in p.hops && m in HopMetrics(p.target, h)
  {
    var parts := Map(p.hops, hop => HopMetrics(p.target, hop));
    JoinHas(parts, m);
    if m in Join(parts) {
      var k :| 0 <= k < |parts| && m in parts[k];
      assert p.hops[k] in p.hops;
    }
    if h :| h in p.hops && m in HopMetrics(p.target, h) {
      var k :| 0 <= k < |p.hops| && p.hops[k] == h;
      assert m in parts[k];
    }
  }

  /** Some hop has the measurement, and the labels are its target and number. */
  ghost predicate HopHas(p: MtrPayload, labels: Labels, key: string, v: real) {
    exists h :: h in p.hops && labels == [Label("target", p.target), Label("hop_num", Decimal.Str(h.hopNum))]
      && key in h.numeric && h.numeric[key] == v
  }

  lemma HopHasMeans(p: MtrPayload, labels: Labels, key: string, v: real)
    ensures HopHas(p, labels, key, v) <==>
      exists h :: h in p.hops && HopLabels(p.target, h) == labels && Get(h.numeric, key) == Some(v)
  {
    if HopHas(p, labels, key, v) {
      var h :| h in p.hops && labels == [Label("target", p.target), Label("hop_num", Decimal.Str(h.hopNum))]
        && key in h.numeric && h.numeric[key] == v;
      assert HopLabels(p.target, h) == labels;
    }
    if h :| h in p.hops && HopLabels(p.target, h) == labels && Get(h.numeric, key) == Some(v) {
      assert labels == [Label("target", p.target), Label("hop_num", Decimal.Str(h.hopNum))];
    }
  }

  const HOP_STATS: seq<string> := ["avg", "best", "worst", "stdev"]

  lemma HopNaming(i: nat)
    requires i < 4
    ensures METRIC_PREFIX + MTR_NUMERIC[i].0 == "knausen_mtr_hop_rtt_ms_" + HOP_STATS[i]
    ensures MTR_NUMERIC[i].1 == "rtt_" + HOP_STATS[i]
  {
  }

  /** Each round-trip statistic of a hop is shown under its own name, with the hop's target and
      number, exactly when it is present. */
  lemma HopRttShown(p: MtrPayload, stat: string, labels: Labels, v: real)
    requires stat in ["avg", "best", "worst", "stdev"]
    ensures Metric("knausen_mtr_hop_rtt_ms_" + stat, labels, v) in MtrMetrics(p) <==>
      HopHas(p, labels, "rtt_" + stat, v)
  {
    assert HOP_STATS == ["avg", "best", "worst", "stdev"];
    var i :| 0 <= i < |HOP_STATS| && HOP_STATS[i] == stat;
    HopNaming(i);
    TableHopsShown(p, i, labels, v);
    HopHasMeans(p, labels, "rtt_" + stat, v);
  }

  lemma HopLossNaming()
    ensures METRIC_PREFIX + MTR_NUMERIC[4].0 == "knausen_mtr_hop_loss_pct" && MTR_NUMERIC[4].1 == "loss_pct"
  {
  }

  /** And so is its loss. */
  lemma HopLossShown(p: MtrPayload, labels: Labels, v: real)
    ensures Metric("knausen_mtr_hop_loss_pct", labels, v) in MtrMetrics(p) <==> HopHas(p, labels, "loss_pct", v)
  {
    HopLossNaming();
    TableHopsShown(p, 4, labels, v);
    HopHasMeans(p, labels, "loss_pct", v);
  }

  ghost predicate HopNamed(p: MtrPayload, labels: Labels) {
    exists h :: h in p.hops && h.host.Some?
      && labels == [Label("target", p.target), Label("hop_num", Decimal.Str(h.hopNum)), Label("host", h.host.value)]
  }

  lemma InfoMember(target: string, hop: MtrHop, labels: Labels, v: real)
    ensures Metric(METRIC_PREFIX + "mtr_hop_info", labels, v) in HopMetrics(target, hop) <==>
      v == 1.0 && hop.host.Some?
      && labels == [Label("target", target), Label("hop_num", Decimal.Str(hop.hopNum)), Label("host", hop.host.value)]
  {
    var gauges := Gauges(MTR_NUMERIC, HopLabels(target, hop), hop.numeric);
    MtrNames();
    GaugesDistinct(MTR_NUMERIC, HopLabels(target, hop), hop.numeric);
    assert "mtr_hop_info" in ["mtr_hop_info"];
    OnlyNames(gauges, MTR_GAUGES, "mtr_hop_info");
    if hop.host.Some? {
      assert HopLabels(target, hop) + [Label("host", hop.host.value)] ==
        [Label("target", target), Label("hop_num", Decimal.Str(hop.hopNum)), Label("host", hop.host.value)];
    }
  }

  /** A hop with a host has an info series of its own, constantly 1, that carries the host. */
  lemma HopInfoShown(p: MtrPayload, labels: Labels, v: real)
    ensures Metric("knausen_mtr_hop_info", labels, v) in MtrMetrics(p) <==> v == 1.0 && HopNamed(p, labels)
  {
    assert METRIC_PREFIX + "mtr_hop_info" == "knausen_mtr_hop_info";
    MtrMember(p, Metric("knausen_mtr_hop_info", labels, v));
    forall h: MtrHop {
      InfoMember(p.target, h, labels, v);
    }
  }
}
