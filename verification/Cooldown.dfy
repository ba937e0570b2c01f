/** The probe loop's mtr trigger and its in-memory cooldown. */
module Cooldown {
  import opened Options
  import opened Seqs
  import opened Metrics
  import opened Rows
  import opened Table
  import opened Delivery
  import opened Database

  datatype Config = Config(enabled: bool, triggerP95: real, cooldown: int)

  /** What one turn of the loop meets: the probe's sample (None: it raised), whether storing
      it raises, mtr's snapshot, whether storing that raises, and four clock readings. */
  datatype Reading = Reading(
    sample: Option<ProbePayload>, insertRaises: bool, snapshot: Option<MtrPayload>, storeRaises: bool,
    probedAt: real, checkedAt: real, storedAt: real, doneAt: real)

  predicate Triggers(cfg: Config, last: real, r: Reading) {
    && r.sample.Some? && !r.insertRaises && cfg.enabled
    && (var p95 := Get(r.sample.value.numeric, "ping_rtt_ms_p95"); p95.Some? && p95.value >= cfg.triggerP95)
    && r.checkedAt - last >= cfg.cooldown as real
  }

  predicate Stores(cfg: Config, last: real, r: Reading) {
    Triggers(cfg, last, r) && r.snapshot.Some? && !r.storeRaises
  }

  function NextLast(cfg: Config, last: real, r: Reading): real {
    if Stores(cfg, last, r) then r.doneAt else last
  }

  /** The rows that a turn adds to the probe table. */
  function NewSamples(r: Reading): Table {
    if r.sample.Some? && !r.insertRaises then [Row(r.probedAt, Probe(r.sample.value), None)] else []
  }

  /** The rows that a turn adds to the mtr table. */
  function NewSnapshots(cfg: Config, last: real, r: Reading): Table {
    if Stores(cfg, last, r) then [Row(r.storedAt, Mtr(r.snapshot.value), None)] else []
  }

  function Samples(rs: seq<Reading>): Table {
    Join(Map(rs, NewSamples))
  }

  ghost function Snapshots(cfg: Config, last: real, rs: seq<Reading>): Table
    decreases |rs|
  {
    if rs == [] then [] else NewSnapshots(cfg, last, rs[0]) + Snapshots(cfg, NextLast(cfg, last, rs[0]), rs[1..])
  }

  ghost function LastAfter(cfg: Config, last: real, rs: seq<Reading>): real
    decreases |rs|
  {
    if rs == [] then last else LastAfter(cfg, NextLast(cfg, last, rs[0]), rs[1..])
  }

  /** The timestamps under which snapshots are stored. */
  ghost function StoredTimes(cfg: Config, last: real, rs: seq<Reading>): seq<real> {
    Map(Snapshots(cfg, last, rs), (row: Row) => row.ts)
  }

  lemma {:induction false} SnapshotsSnoc(cfg: Config, last: real, rs: seq<Reading>, r: Reading)
    ensures Snapshots(cfg, last, rs + [r]) == Snapshots(cfg, last, rs) + NewSnapshots(cfg, LastAfter(cfg, last, rs), r)
    ensures LastAfter(cfg, last, rs + [r]) == NextLast(cfg, LastAfter(cfg, last, rs), r)
    decreases |rs|
  {
    if rs == [] {
      assert [] + [r] == [r] && [r][1..] == [];
    } else {
      var next := NextLast(cfg, last, rs[0]);
      SnapshotsSnoc(cfg, next, rs[1..], r);
      assert (rs + [r])[1..] == rs[1..] + [r] && (rs + [r])[0] == rs[0];
      Associative(NewSnapshots(cfg, last, rs[0]), Snapshots(cfg, next, rs[1..]),
                  NewSnapshots(cfg, LastAfter(cfg, last, rs), r));
    }
  }

  lemma NothingAdded(t: Table)
    ensures t + [] == t
  {
  }

  class ProbeLoop {
    const cfg: Config
    const db: Connection
    var lastMtrTs: real

    constructor (cfg: Config, db: Connection)
      ensures this.cfg == cfg && this.db == db && lastMtrTs == 0.0
    {
      this.cfg, this.db, lastMtrTs := cfg, db, 0.0;
    }

    /** One turn, up to its sleep. The sample is kept unless probing or storing it raises. A
        snapshot is kept exactly if the sample was, mtr is enabled, the sample's p95 is present
        and has reached the trigger, the cooldown is over, and mtr's run and storing its snapshot
        succeed; only then the cooldown starts anew. */
    method Turn(r: Reading)
      modifies this, db
      ensures lastMtrTs == NextLast(cfg, old(lastMtrTs), r)
      ensures db.tables == Triple(old(db.tables).modem, old(db.tables).probe + NewSamples(r),
                                  old(db.tables).mtr + NewSnapshots(cfg, old(lastMtrTs), r))
      ensures
        var kept := r.sample.Some? && !r.insertRaises;
        var fires := kept && cfg.enabled
                     && "ping_rtt_ms_p95" in r.sample.value.numeric
                     && r.sample.value.numeric["ping_rtt_ms_p95"] >= cfg.triggerP95
                     && r.checkedAt - old(lastMtrTs) >= cfg.cooldown as real
                     && r.snapshot.Some? && !r.storeRaises;
        && db.tables.modem == old(db.tables).modem
        && db.tables.probe ==
             old(db.tables).probe + (if kept then [Row(r.probedAt, Probe(r.sample.value), None)] else [])
        && db.tables.mtr ==
             old(db.tables).mtr + (if fires then [Row(r.storedAt, Mtr(r.snapshot.value), None)] else [])
        && lastMtrTs == if fires then r.doneAt else old(lastMtrTs)
    {
      NothingAdded(db.tables.probe);
      NothingAdded(db.tables.mtr);
      if r.sample.None? || r.insertRaises {
        return;
      }
      var _ := db.Insert(ProbeTable, r.probedAt, Probe(r.sample.value));
      var p95 := Get(r.sample.value.numeric, "ping_rtt_ms_p95");
      if cfg.enabled && p95.Some? && p95.value >= cfg.triggerP95 && r.checkedAt - lastMtrTs >= cfg.cooldown as real {
        if r.snapshot.Some? && !r.storeRaises {
          var _ := db.Insert(MtrTable, r.storedAt, Mtr(r.snapshot.value));
          lastMtrTs := r.doneAt;
        }
      }
    }

    /** Any number of turns of the endless loop. `lasts[i]` is the cooldown's start as turn i finds
        it, and `fired` lists the turns that store a snapshot, in order. */
    method Loop(rs: seq<Reading>) returns (ghost lasts: seq<real>, ghost fired: seq<nat>)
      modifies this, db
      ensures lastMtrTs == LastAfter(cfg, old(lastMtrTs), rs)
      ensures db.tables == Triple(old(db.tables).modem, old(db.tables).probe + Samples(rs),
                                  old(db.tables).mtr + Snapshots(cfg, old(lastMtrTs), rs))
      ensures |lasts| == |rs| + 1 && lasts[0] == old(lastMtrTs) && lasts[|rs|] == lastMtrTs
      ensures (forall k :: 0 <= k < |fired| ==> fired[k] < |rs|)
        && forall j, k :: 0 <= j < k < |fired| ==> fired[j] < fired[k]
      ensures forall i :: 0 <= i < |rs| ==>
        (i in fired <==>
          && rs[i].sample.Some? && !rs[i].insertRaises && cfg.enabled
          && "ping_rtt_ms_p95" in rs[i].sample.value.numeric
          && rs[i].sample.value.numeric["ping_rtt_ms_p95"] >= cfg.triggerP95
          && rs[i].checkedAt - lasts[i] >= cfg.cooldown as real
          && rs[i].snapshot.Some? && !rs[i].storeRaises)
      ensures forall i :: 0 <= i < |rs| ==> lasts[i + 1] == if i in fired then rs[i].doneAt else lasts[i]
      ensures |db.tables.mtr| == |old(db.tables).mtr| + |fired|
      ensures forall k :: 0 <= k < |fired| ==>
        rs[fired[k]].snapshot.Some?
        && db.tables.mtr[|old(db.tables).mtr| + k] ==
             Row(rs[fired[k]].storedAt, Mtr(rs[fired[k]].snapshot.value), None)
    {
      for i := 0 to |rs|
        invariant lastMtrTs == LastAfter(cfg, old(lastMtrTs), rs[..i])
        invariant db.tables.modem == old(db.tables).modem
        invariant db.tables.probe == old(db.tables).probe + Samples(rs[..i])
        invariant db.tables.mtr == old(db.tables).mtr + Snapshots(cfg, old(lastMtrTs), rs[..i])
      {
        JoinMapSnoc(rs, i, NewSamples);
        SnapshotsSnoc(cfg, old(lastMtrTs), rs[..i], rs[i]);
        assert rs[..i + 1] == rs[..i] + [rs[i]];
        Turn(rs[i]);
      }
      assert rs[..|rs|] == rs;
      lasts, fired := FiredTurns(cfg, old(lastMtrTs), rs);
      RowsBehind(old(db.tables).mtr, Snapshots(cfg, old(lastMtrTs), rs));
    }
  }

  lemma RowsBehind(before: Table, more: Table)
    ensures forall k :: 0 <= k < |more| ==> (before + more)[|before| + k] == more[k]
  {
  }

  /** The turns that store a snapshot, and the cooldown as each turn finds it. */
  ghost predicate Fired(cfg: Config, rs: seq<Reading>, lasts: seq<real>, fired: seq<nat>) {
    && |lasts| == |rs| + 1
    && (forall k :: 0 <= k < |fired| ==> fired[k] < |rs|)
    && (forall j, k :: 0 <= j < k < |fired| ==> fired[j] < fired[k])
    && (forall i :: 0 <= i < |rs| ==> (i in fired <==> Stores(cfg, lasts[i], rs[i])))
    && (forall i :: 0 <= i < |rs| ==> lasts[i + 1] == NextLast(cfg, lasts[i], rs[i]))
  }

  ghost predicate SnapshotsOf(rs: seq<Reading>, fired: seq<nat>, rows: Table) {
    && |rows| == |fired|
    && forall k :: 0 <= k < |fired| ==>
         fired[k] < |rs| && rs[fired[k]].snapshot.Some?
         && rows[k] == Row(rs[fired[k]].storedAt, Mtr(rs[fired[k]].snapshot.value), None)
  }

  lemma FiredSnoc(cfg: Config, rs: seq<Reading>, lasts: seq<real>, fired: seq<nat>, r: Reading)
    requires Fired(cfg, rs, lasts, fired)
    ensures var last := lasts[|rs|];
      Fired(cfg, rs + [r], lasts + [NextLast(cfg, last, r)], if Stores(cfg, last, r) then fired + [|rs|] else fired)
  {
    var last, all := lasts[|rs|], rs + [r];
    var lasts', fired' := lasts + [NextLast(cfg, last, r)], if Stores(cfg, last, r) then fired + [|rs|] else fired;
    assert |rs| !in fired;
    forall i | 0 <= i < |all| ensures i in fired' <==> Stores(cfg, lasts'[i], all[i]) {
      if i == |rs| && Stores(cfg, last, r) {
        assert fired'[|fired|] == i;
      }
    }
  }

  lemma SnapshotsOfSnoc(cfg: Config, rs: seq<Reading>, fired: seq<nat>, rows: Table, last: real, r: Reading)
    requires SnapshotsOf(rs, fired, rows)
    ensures SnapshotsOf(rs + [r], if Stores(cfg, last, r) then fired + [|rs|] else fired,
                        rows + NewSnapshots(cfg, last, r))
  {
    assert (rs + [r])[|rs|] == r;
    NothingAdded(rows);
  }

  lemma {:induction false} FiredTurns(cfg: Config, last: real, rs: seq<Reading>)
    returns (lasts: seq<real>, fired: seq<nat>)
    ensures Fired(cfg, rs, lasts, fired) && lasts[0] == last && lasts[|rs|] == LastAfter(cfg, last, rs)
    ensures SnapshotsOf(rs, fired, Snapshots(cfg, last, rs))
    decreases |rs|
  {
    if rs == [] {
      lasts, fired := [last], [];
    } else {
      var init, r := rs[..|rs| - 1], rs[|rs| - 1];
      assert rs == init + [r];
      var lasts', fired' := FiredTurns(cfg, last, init);
      lasts, fired := OneMoreTurn(cfg, last, init, lasts', fired', r);
    }
  }

  lemma OneMoreTurn(cfg: Config, last: real, init: seq<Reading>, lasts': seq<real>, fired': seq<nat>, r: Reading)
    returns (lasts: seq<real>, fired: seq<nat>)
    requires Fired(cfg, init, lasts', fired') && lasts'[0] == last && lasts'[|init|] == LastAfter(cfg, last, init)
    requires SnapshotsOf(init, fired', Snapshots(cfg, last, init))
    ensures Fired(cfg, init + [r], lasts, fired) && lasts[0] == last
    ensures lasts[|init| + 1] == LastAfter(cfg, last, init + [r])
    ensures SnapshotsOf(init + [r], fired, Snapshots(cfg, last, init + [r]))
  {
    var before := lasts'[|init|];
    FiredSnoc(cfg, init, lasts', fired', r);
    SnapshotsSnoc(cfg, last, init, r);
    SnapshotsOfSnoc(cfg, init, fired', Snapshots(cfg, last, init), before, r);
    lasts := lasts' + [NextLast(cfg, before, r)];
    fired := if Stores(cfg, before, r) then fired' + [|init|] else fired';
  }

  // ----- what the cooldown guarantees -----

  /** The clock does not go back, within a turn or between turns. */
  ghost predicate Forward(from: real, rs: seq<Reading>)
    decreases |rs|
  {
    rs == [] ||
    (from <= rs[0].probedAt <= rs[0].checkedAt <= rs[0].storedAt <= rs[0].doneAt && Forward(rs[0].doneAt, rs[1..]))
  }

  ghost predicate Spaced(ts: seq<real>, gap: real) {
    forall i :: 0 <= i < |ts| - 1 ==> ts[i + 1] - ts[i] >= gap
  }

  /** Consecutive snapshots of one process are at least the cooldown apart. */
  lemma {:induction false} Spacing(cfg: Config, last: real, rs: seq<Reading>, from: real)
    requires Forward(from, rs)
    ensures Spaced(StoredTimes(cfg, last, rs), cfg.cooldown as real)
    ensures var ts := StoredTimes(cfg, last, rs); ts != [] ==> ts[0] >= last + cfg.cooldown as real
    decreases |rs|
  {
    if rs != [] {
      Spacing(cfg, NextLast(cfg, last, rs[0]), rs[1..], rs[0].doneAt);
    }
  }

  lemma {:induction false} SpanAtLeast(ts: seq<real>, gap: real, i: nat, j: nat)
    requires Spaced(ts, gap) && i <= j < |ts|
    ensures ts[j] - ts[i] >= (j - i) as real * gap
    decreases j
  {
    if i < j {
      SpanAtLeast(ts, gap, i, j - 1);
      assert (j - i) as real * gap == (j - 1 - i) as real * gap + gap;
    }
  }

  lemma Quotient(n: real, gap: real, window: real)
    requires gap > 0.0 && n * gap <= window
    ensures n <= window / gap
  {
    assert (window / gap) * gap == window;
  }

  lemma SpacedCount(ts: seq<real>, gap: real, i: nat, j: nat, window: real)
    requires Spaced(ts, gap) && gap > 0.0 && i <= j < |ts| && ts[j] - ts[i] <= window
    ensures j - i <= (window / gap).Floor
  {
    SpanAtLeast(ts, gap, i, j);
    Quotient((j - i) as real, gap, window);
  }

  /** So a window of length W holds at most floor(W / cooldown) + 1 of them. */
  lemma WindowBound(cfg: Config, last: real, rs: seq<Reading>, from: real, i: nat, j: nat, window: real)
    requires Forward(from, rs) && cfg.cooldown > 0
    requires i <= j < |StoredTimes(cfg, last, rs)|
    requires StoredTimes(cfg, last, rs)[j] - StoredTimes(cfg, last, rs)[i] <= window
    ensures j - i + 1 <= (window / cfg.cooldown as real).Floor + 1
  {
    Spacing(cfg, last, rs, from);
    SpacedCount(StoredTimes(cfg, last, rs), cfg.cooldown as real, i, j, window);
  }
}
