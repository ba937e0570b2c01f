/** When two payloads of one table project onto a common label set. */
module Collisions {
  import opened Options
  import opened Model
  import opened Seqs
  import opened Metrics
  import opened Projections

  lemma AcrossNames(a: seq<Metric>, namesA: seq<string>, b: seq<Metric>, namesB: seq<string>)
    requires Named(a, namesA) && Named(b, namesB) && Disjoint(namesA, namesB)
    ensures Across(a, b, Differ) && Across(b, a, Differ)
  {
    forall m, n | m in a && n in b ensures Differ(m, n) && Differ(n, m) {
      var s :| s in namesA && m.name == METRIC_PREFIX + s;
      var t :| t in namesB && n.name == METRIC_PREFIX + t;
      if m.name == n.name {
        PrefixInjective(s, t);
      }
      DifferMeans(m, n);
      DifferMeans(n, m);
    }
  }

  /** Parts under different names only collide with their like. */
  lemma TwoParts(a: seq<Metric>, a': seq<Metric>, namesA: seq<string>, b: seq<Metric>, b': seq<Metric>,
                 namesB: seq<string>)
    requires Named(a, namesA) && Named(a', namesA) && Named(b, namesB) && Named(b', namesB) && Disjoint(namesA, namesB)
    ensures Across(a + b, a' + b', Differ) <==> Across(a, a', Differ) && Across(b, b', Differ)
  {
    AcrossNames(a, namesA, b', namesB);
    AcrossNames(a', namesA, b, namesB);
    AcrossParts(a, b, a', b', Differ);
  }

  lemma AcrossJoinMap<T, U>(xs: seq<T>, ys: seq<T>, f: T -> seq<U>, rel: (U, U) -> bool)
    ensures Across(Join(Map(xs, f)), Join(Map(ys, f)), rel) <==>
      forall x, y :: x in xs && y in ys ==> Across(f(x), f(y), rel)
  {
    var a, b := Map(xs, f), Map(ys, f);
    if Across(Join(a), Join(b), rel) {
      forall x, y | x in xs && y in ys ensures Across(f(x), f(y), rel) {
        var i :| 0 <= i < |xs| && xs[i] == x;
        var j :| 0 <= j < |ys| && ys[j] == y;
        assert a[i] == f(x) && b[j] == f(y);
        forall u, v | u in f(x) && v in f(y) ensures rel(u, v) {
          JoinHas(a, u);
          JoinHas(b, v);
        }
      }
    }
    if forall x, y :: x in xs && y in ys ==> Across(f(x), f(y), rel) {
      forall u, v | u in Join(a) && v in Join(b) ensures rel(u, v) {
        JoinHas(a, u);
        JoinHas(b, v);
        var i :| 0 <= i < |a| && u in a[i];
        var j :| 0 <= j < |b| && v in b[j];
        assert xs[i] in xs && ys[j] in ys;
      }
    }
  }

  // ----- probe -----

  /** The checkpoint has a value. */
  ghost predicate Present(per: Dict, checkpoint: string) {
    exists v :: (checkpoint, Some(v)) in per
  }

  ghost predicate DictsApart(per: Dict, per': Dict) {
    forall c :: !(Present(per, c) && Present(per', c))
  }

  lemma CheckpointGaugesAcross(suffix: string, per: Dict, per': Dict)
    ensures Across(CheckpointGauges(suffix, per), CheckpointGauges(suffix, per'), Differ) <==> DictsApart(per, per')
  {
    var a, b := CheckpointGauges(suffix, per), CheckpointGauges(suffix, per');
    if Across(a, b, Differ) {
      forall c ensures !(Present(per, c) && Present(per', c)) {
        if Present(per, c) && Present(per', c) {
          var v :| (c, Some(v)) in per;
          var w :| (c, Some(w)) in per';
          var m := Metric(METRIC_PREFIX + suffix, [Label("checkpoint", c)], v);
          var n := Metric(METRIC_PREFIX + suffix, [Label("checkpoint", c)], w);
          CheckpointGaugesMember(suffix, per, m);
          CheckpointGaugesMember(suffix, per', n);
          DifferMeans(m, n);
        }
      }
    }
    if DictsApart(per, per') {
      forall m, n | m in a && n in b ensures Differ(m, n) {
        CheckpointGaugesMember(suffix, per, m);
        CheckpointGaugesMember(suffix, per', n);
        DifferMeans(m, n);
        assert Present(per, m.extra[0].value) && Present(per', n.extra[0].value);
      }
    }
  }

  /** No checkpoint has a value in both, for any of the table's metrics. */
  ghost predicate CheckpointsApart(table: Table, checkpoints: map<string, Dict>, checkpoints': map<string, Dict>) {
    forall i :: 0 <= i < |table| ==>
      DictsApart(PerCheckpoint(checkpoints, table[i].1), PerCheckpoint(checkpoints', table[i].1))
  }

  lemma {:induction false} CheckpointsAcross(table: Table, checkpoints: map<string, Dict>,
                                              checkpoints': map<string, Dict>)
    requires Distinct(Suffixes(table))
    ensures Across(CheckpointMetrics(table, checkpoints), CheckpointMetrics(table, checkpoints'), Differ) <==>
      CheckpointsApart(table, checkpoints, checkpoints')
  {
    if table != [] {
      var tail, key := table[1..], table[0].1;
      var per, per' := PerCheckpoint(checkpoints, key), PerCheckpoint(checkpoints', key);
      assert Suffixes(table) == [table[0].0] + Suffixes(tail);
      DistinctSplit([table[0].0], Suffixes(tail));
      CheckpointGaugesDistinct(table[0].0, per);
      CheckpointGaugesDistinct(table[0].0, per');
      CheckpointMetricsDistinct(tail, checkpoints);
      CheckpointMetricsDistinct(tail, checkpoints');
      TwoParts(CheckpointGauges(table[0].0, per), CheckpointGauges(table[0].0, per'), [table[0].0],
               CheckpointMetrics(tail, checkpoints), CheckpointMetrics(tail, checkpoints'), Suffixes(tail));
      CheckpointGaugesAcross(table[0].0, per, per');
      CheckpointsAcross(tail, checkpoints, checkpoints');
      ApartCons(table, checkpoints, checkpoints');
    }
  }

  lemma ApartCons(table: Table, checkpoints: map<string, Dict>, checkpoints': map<string, Dict>)
    requires table != []
    ensures CheckpointsApart(table, checkpoints, checkpoints') <==>
      DictsApart(PerCheckpoint(checkpoints, table[0].1), PerCheckpoint(checkpoints', table[0].1))
      && CheckpointsApart(table[1..], checkpoints, checkpoints')
  {
    assert forall i :: 1 <= i < |table| ==> table[i] == table[1..][i - 1];
    assert forall i :: 0 <= i < |table| - 1 ==> table[i + 1] == table[1..][i];
  }

  lemma OkAcross(ok: Option<bool>, ok': Option<bool>)
    ensures Across(EmitAll([("probe_ok", Flag(ok))]), EmitAll([("probe_ok", Flag(ok'))]), Differ) <==>
      !(ok.Some? && ok'.Some?)
  {
    var a, b := EmitAll([("probe_ok", Flag(ok))]), EmitAll([("probe_ok", Flag(ok'))]);
    assert [("probe_ok", Flag(ok))][1..] == [] && [("probe_ok", Flag(ok'))][1..] == [];
    if ok.Some? && ok'.Some? {
      DifferMeans(a[0], b[0]);
      assert a[0] in a && b[0] in b;
    }
  }

  lemma DnsAcross(dns: seq<DnsEntry>, dns': seq<DnsEntry>)
    ensures Across(Join(Map(dns, DnsMetrics)), Join(Map(dns', DnsMetrics)), Differ) <==>
      forall d, e :: d in dns && e in dns' ==> DnsApart(d, e)
  {
    AcrossJoinMap(dns, dns', DnsMetrics, Differ);
    forall d, e ensures Across(DnsMetrics(d), DnsMetrics(e), Differ) <==> DnsApart(d, e) {
      DnsApartMeans(d, e);
    }
  }

  ghost predicate NoCommonKey(table: Table, a: map<string, real>, b: map<string, real>) {
    forall i :: 0 <= i < |table| ==> !(table[i].1 in a && table[i].1 in b)
  }

  /** Two probe payloads have no measurement in common: no gauge, no checkpoint, no resolver, and
      not both a health flag. */
  ghost predicate ProbesApart(p: ProbePayload, q: ProbePayload) {
    && NoCommonKey(PROBE_NUMERIC, p.numeric, q.numeric)
    && !(p.ok.Some? && q.ok.Some?)
    && CheckpointsApart(CHECKPOINT_METRICS, p.checkpoints, q.checkpoints)
    && (forall d, e :: d in p.dns && e in q.dns ==> DnsApart(d, e))
  }

  lemma ProbeNamesDisjoint()
    ensures Disjoint(PROBE_GAUGES, ["probe_ok"]) && Disjoint(CHECKPOINT_NAMES, DNS_NAMES)
    ensures Disjoint(PROBE_GAUGES + ["probe_ok"], CHECKPOINT_NAMES + DNS_NAMES)
  {
    ProbeNames();
    ProbeNamesGrouped();
    DistinctSplit(PROBE_GAUGES + ["probe_ok"], CHECKPOINT_NAMES + DNS_NAMES);
    DistinctSplit(CHECKPOINT_NAMES, DNS_NAMES);
  }

  /** Exactly then they share no label set. */
  lemma ProbesAcross(p: ProbePayload, q: ProbePayload)
    ensures Across(ProbeMetrics(p), ProbeMetrics(q), Differ) <==> ProbesApart(p, q)
  {
    ProbeNamesDisjoint();
    ProbeGrouped(p);
    ProbeGrouped(q);
    ProbeFront(p);
    ProbeFront(q);
    ProbeBack(p);
    ProbeBack(q);
    FrontAcross(p, q);
    BackAcross(p, q);
    NamedAppend(Gauges(PROBE_NUMERIC, [], p.numeric), PROBE_GAUGES, EmitAll([("probe_ok", Flag(p.ok))]), ["probe_ok"]);
    NamedAppend(Gauges(PROBE_NUMERIC, [], q.numeric), PROBE_GAUGES, EmitAll([("probe_ok", Flag(q.ok))]), ["probe_ok"]);
    TwoParts(ProbeHead(p), ProbeHead(q), PROBE_GAUGES + ["probe_ok"],
             ProbeTail(p), ProbeTail(q), CHECKPOINT_NAMES + DNS_NAMES);
  }

  function ProbeHead(p: ProbePayload): seq<Metric> {
    Gauges(PROBE_NUMERIC, [], p.numeric) + EmitAll([("probe_ok", Flag(p.ok))])
  }

  lemma FrontAcross(p: ProbePayload, q: ProbePayload)
    ensures Across(ProbeHead(p), ProbeHead(q), Differ) <==>
      NoCommonKey(PROBE_NUMERIC, p.numeric, q.numeric) && !(p.ok.Some? && q.ok.Some?)
  {
    ProbeNamesDisjoint();
    ProbeFront(p);
    ProbeFront(q);
    ProbeNames();
    TwoParts(Gauges(PROBE_NUMERIC, [], p.numeric), Gauges(PROBE_NUMERIC, [], q.numeric), PROBE_GAUGES,
             EmitAll([("probe_ok", Flag(p.ok))]), EmitAll([("probe_ok", Flag(q.ok))]), ["probe_ok"]);
    GaugesAcross(PROBE_NUMERIC, [], p.numeric, q.numeric);
    OkAcross(p.ok, q.ok);
  }

  lemma BackAcross(p: ProbePayload, q: ProbePayload)
    ensures Across(ProbeTail(p), ProbeTail(q), Differ) <==>
      CheckpointsApart(CHECKPOINT_METRICS, p.checkpoints, q.checkpoints)
      && forall d, e :: d in p.dns && e in q.dns ==> DnsApart(d, e)
  {
    ProbeNamesDisjoint();
    ProbeBack(p);
    ProbeBack(q);
    ProbeNames();
    TwoParts(CheckpointMetrics(CHECKPOINT_METRICS, p.checkpoints), CheckpointMetrics(CHECKPOINT_METRICS, q.checkpoints),
             CHECKPOINT_NAMES, Join(Map(p.dns, DnsMetrics)), Join(Map(q.dns, DnsMetrics)), DNS_NAMES);
    CheckpointsAcross(CHECKPOINT_METRICS, p.checkpoints, q.checkpoints);
    DnsAcross(p.dns, q.dns);
  }

  // ----- mtr -----

  /** Two mtr payloads are about different targets, or no two of their hops share a number
      together with a present measurement or the same host. */
  ghost predicate MtrsApart(p: MtrPayload, q: MtrPayload) {
    p.target == q.target ==> forall h, k :: h in p.hops && k in q.hops ==> HopApart(h, k)
  }

  lemma HopTarget(target: string, hop: MtrHop, m: Metric)
    requires m in HopMetrics(target, hop)
    ensures m.extra != [] && m.extra[0] == Label("target", target)
  {
    GaugesMember(MTR_NUMERIC, HopLabels(target, hop), hop.numeric, m);
  }

  lemma MtrTarget(p: MtrPayload, m: Metric)
    requires m in MtrMetrics(p)
    ensures m.extra != [] && m.extra[0] == Label("target", p.target)
  {
    var parts := Map(p.hops, hop => HopMetrics(p.target, hop));
    JoinHas(parts, m);
    var i :| 0 <= i < |parts| && m in parts[i];
    HopTarget(p.target, p.hops[i], m);
  }

  /** Exactly then they share no label set. */
  lemma MtrsAcross(p: MtrPayload, q: MtrPayload)
    ensures Across(MtrMetrics(p), MtrMetrics(q), Differ) <==> MtrsApart(p, q)
  {
    if p.target == q.target {
      var project := hop => HopMetrics(p.target, hop);
      AcrossJoinMap(p.hops, q.hops, project, Differ);
      assert MtrMetrics(q) == Join(Map(q.hops, project));
      forall h, k ensures Across(project(h), project(k), Differ) <==> HopApart(h, k) {
        HopApartMeans(p.target, h, k);
      }
    } else {
      forall m, n | m in MtrMetrics(p) && n in MtrMetrics(q) ensures m.extra != n.extra {
        MtrTarget(p, m);
        MtrTarget(q, n);
      }
      ExtraDiffers(MtrMetrics(p), MtrMetrics(q));
    }
  }
}
