/** The push worker's code, statement by statement, with everything it does not control as a
    parameter: rows that other loops insert between its statements, exceptions, the outcome of
    the POST and of the heartbeat. Every call is a run of the protocol, and its outcome is the
    one the world determines. */
module PushWorker {
  import opened Options
  import opened Rows
  import opened Table
  import opened Delivery
  import opened Protocol
  import opened Database
  import opened Backoff
  import opened Worlds

  class Worker {
    const db: Connection
    const interval: int
    var consecutiveFailures: nat
    ghost var remote: Remote
    ghost var stage: Stage
    ghost var batch: Batch

    ghost function S(): State
      reads this, db
    {
      State(db.tables, remote, stage, batch, consecutiveFailures)
    }

    constructor (db: Connection, interval: int)
      requires db.tables == Triple([], [], [])
      ensures this.db == db && this.interval == interval && S() == INITIAL
    {
      this.db, this.interval, consecutiveFailures := db, interval, 0;
      remote, stage, batch := multiset{}, Idle, NO_BATCH;
    }

    /** The modem and probe loops get a turn. */
    method Interfere(arrivals: seq<Arrival>, ghost s0: State, ghost run: seq<Action>) returns (ghost run': seq<Action>)
      requires Arrive(arrivals) && Leads(s0, run, S())
      modifies db
      ensures Leads(s0, run', S()) && db.tables == Grown(old(db.tables), arrivals)
    {
      run' := run;
      GrownByNothing(db.tables);
      for i := 0 to |arrivals|
        invariant Leads(s0, run', S()) && db.tables == Grown(old(db.tables), arrivals[..i])
      {
        var a := arrivals[i];
        assert a in arrivals;
        ghost var mid := S();
        GrownBy(old(db.tables), arrivals[..i], a);
        assert arrivals[..i + 1] == arrivals[..i] + [a];
        var _ := db.Insert(a.table, a.ts, a.payload);
        LeadsThen(s0, run', mid, Protocol.Insert(a.table, a.ts, a.payload));
        run' := run' + [Protocol.Insert(a.table, a.ts, a.payload)];
      }
      assert arrivals[..|arrivals|] == arrivals;
    }

    /** An exception: from here on the loop's handler is next. */
    ghost method Raise(s0: State, run: seq<Action>) returns (run': seq<Action>)
      requires Leads(s0, run, S()) && stage != Failing
      modifies this`stage, this`batch
      ensures Leads(s0, run', S()) && stage == Failing && batch == NO_BATCH
    {
      LeadsThen(s0, run, S(), Abort);
      stage, batch := Failing, NO_BATCH;
      run' := run + [Abort];
    }

    /** One SELECT, with what can happen before it. */
    method SelectTable(name: TableName, arrivals: seq<Arrival>, raises: bool, ghost s0: State, ghost run: seq<Action>)
      returns (rows: Option<seq<StoredSample>>, ghost run': seq<Action>)
      requires Arrive(arrivals) && Leads(s0, run, S())
      requires if name == ModemTable then stage == Idle else stage == Selecting(name)
      modifies db, this`stage, this`batch
      ensures Leads(s0, run', S()) && db.tables == Grown(old(db.tables), arrivals)
      ensures rows.None? <==> raises
      ensures rows.None? ==> stage == Failing && batch == NO_BATCH
      ensures rows.Some? ==> SelectedFrom(db.tables.Get(name), rows.value)
      ensures rows.Some? ==> batch == old(batch).Set(name, rows.value) && stage == AfterSelect(name, batch)
    {
      run' := Interfere(arrivals, s0, run);
      if raises {
        run' := Raise(s0, run');
        return None, run';
      }
      var selected := db.SelectUnpushed(name);
      ghost var ids :| IsSelection(db.tables.Get(name), ids) && selected == Fetch(db.tables.Get(name), ids);
      LeadsThen(s0, run', S(), Select(name, ids));
      batch := batch.Set(name, selected);
      stage := AfterSelect(name, batch);
      rows, run' := Some(selected), run' + [Select(name, ids)];
    }

    /** `push`: no POST for an empty list. Returns whether no exception was raised. */
    method Push(series: seq<RowSeries>, outcome: Outcome, ghost s0: State, ghost run: seq<Action>)
      returns (ok: bool, ghost run': seq<Action>)
      requires Leads(s0, run, S()) && stage == Ready && series == SeriesOf(batch)
      modifies this`remote, this`stage, this`batch
      ensures Leads(s0, run', S())
      ensures ok <==> series == [] || outcome == Accepted
      ensures if ok then stage == Marking(ModemTable) && batch == old(batch) else stage == Failing && batch == NO_BATCH
    {
      ghost var actual := if series == [] then Accepted else outcome;
      LeadsThen(s0, run, S(), Post(actual));
      run' := run + [Post(actual)];
      if actual != Refused {
        remote := remote + Carried(batch);
      }
      if series == [] || outcome == Accepted {
        stage := Marking(ModemTable);
        return true, run';
      }
      stage, batch := Failing, NO_BATCH;
      return false, run';
    }

    /** One UPDATE, with what can happen before it. */
    method MarkTable(name: TableName, rows: seq<StoredSample>, now: real, arrivals: seq<Arrival>, raises: bool,
                     ghost s0: State, ghost run: seq<Action>)
      returns (ok: bool, ghost run': seq<Action>)
      requires Arrive(arrivals) && Leads(s0, run, S()) && stage == Marking(name) && rows == batch.Get(name)
      modifies db, this`stage, this`batch
      ensures Leads(s0, run', S()) && (ok <==> !raises)
      ensures if ok then stage == AfterMark(name, batch) && batch == old(batch)
              else stage == Failing && batch == NO_BATCH
      ensures var grown := Grown(old(db.tables), arrivals);
        db.tables == if ok then MarkOne(grown, name, rows, now) else grown
    {
      run' := Interfere(arrivals, s0, run);
      if raises {
        run' := Raise(s0, run');
        return false, run';
      }
      LeadsThen(s0, run', S(), Mark(name, now));
      db.MarkPushed(name, IdsOf(rows), now);
      stage := AfterMark(name, batch);
      return true, run' + [Mark(name, now)];
    }

    /** The three SELECTs. */
    method SelectAll(w: World, ghost s0: State, ghost run: seq<Action>)
      returns (rows: Option<Batch>, ghost run': seq<Action>)
      requires Possible(w) && Leads(s0, run, S()) && stage == Idle && batch == NO_BATCH
      modifies db, this`stage, this`batch
      ensures Leads(s0, run', S()) && (rows.None? <==> SelectRaises(w))
      ensures db.tables == At(old(db.tables), w, if w.raises(0) then 1 else if w.raises(1) then 2 else 3)
      ensures rows.None? ==> stage == Failing && batch == NO_BATCH
      ensures rows.Some? ==> batch == rows.value && stage == AfterSelect(MtrTable, batch)
      ensures rows.Some? ==> Chosen(old(db.tables), w, rows.value)
    {
      ghost var base := db.tables;
      var modem, probe, mtr;
      assert At(base, w, 0) == base;
      modem, run' := SelectTable(ModemTable, w.arrivals(0), w.raises(0), s0, run);
      assert db.tables == At(base, w, 1);
      if modem.None? { return None, run'; }
      probe, run' := SelectTable(ProbeTable, w.arrivals(1), w.raises(1), s0, run');
      assert db.tables == At(base, w, 2);
      if probe.None? { return None, run'; }
      mtr, run' := SelectTable(MtrTable, w.arrivals(2), w.raises(2), s0, run');
      assert db.tables == At(base, w, 3);
      if mtr.None? { return None, run'; }
      return Some(Triple(modem.value, probe.value, mtr.value)), run';
    }

    /** The three UPDATEs. */
    method MarkAll(rows: Batch, w: World, ghost base: Triple<Table>, ghost s0: State, ghost run: seq<Action>)
      returns (ok: bool, ghost run': seq<Action>)
      requires Possible(w) && Leads(s0, run, S()) && stage == Marking(ModemTable) && rows == batch
      requires db.tables == At(base, w, 4) && AllWithin(db.tables, rows)
      requires !SelectRaises(w) && rows != NO_BATCH && !w.raises(3) && Taken(w, rows)
      modifies db, this`stage, this`batch
      ensures Leads(s0, run', S()) && (ok <==> Drains(w, rows)) && db.tables == CycleTables(base, w, rows)
      ensures if ok then stage == AfterMark(MtrTable, rows) else stage == Failing && batch == NO_BATCH
    {
      CutCycle(base, w, rows);
      FirstUpdate(base, w, rows);
      ok, run' := MarkTable(ModemTable, rows.modem, w.now, w.arrivals(4), w.raises(4), s0, run);
      if !ok { return; }
      assert db.tables == FirstMarked(At(base, w, 5), rows, 1, w.now);
      ok, run' := MarkRest(rows, w, base, s0, run');
    }

    /** The UPDATEs of the probe and mtr tables. */
    method MarkRest(rows: Batch, w: World, ghost base: Triple<Table>, ghost s0: State, ghost run: seq<Action>)
      returns (ok: bool, ghost run': seq<Action>)
      requires Possible(w) && Leads(s0, run, S()) && stage == Marking(ProbeTable) && rows == batch
      requires AllWithin(At(base, w, 4), rows) && db.tables == FirstMarked(At(base, w, 5), rows, 1, w.now)
      modifies db, this`stage, this`batch
      ensures Leads(s0, run', S()) && (ok <==> !w.raises(5) && !w.raises(6))
      ensures db.tables == if w.raises(5) then Half(base, w, rows, 1) else if w.raises(6) then Half(base, w, rows, 2)
                           else FirstMarked(At(base, w, 7), rows, 3, w.now)
      ensures if ok then stage == AfterMark(MtrTable, rows) else stage == Failing && batch == NO_BATCH
    {
      NextUpdate(base, w, rows, 1);
      ok, run' := MarkTable(ProbeTable, rows.probe, w.now, w.arrivals(5), w.raises(5), s0, run);
      if !ok { return; }
      NextUpdate(base, w, rows, 2);
      assert db.tables == FirstMarked(At(base, w, 6), rows, 2, w.now);
      ok, run' := MarkTable(MtrTable, rows.mtr, w.now, w.arrivals(6), w.raises(6), s0, run');
    }

    /** The second half of a cycle: series, POST, UPDATEs. */
    method PushSelected(all: Batch, w: World, ghost base: Triple<Table>, ghost s0: State, ghost run: seq<Action>)
      returns (ok: bool, ghost run': seq<Action>)
      requires Possible(w) && Leads(s0, run, S()) && stage == Ready && all == batch
      requires db.tables == At(base, w, 3) && AllWithin(db.tables, all) && !SelectRaises(w) && all != NO_BATCH
      modifies db, this`remote, this`stage, this`batch
      ensures Leads(s0, run', S()) && (ok <==> Drains(w, all)) && db.tables == CycleTables(base, w, all)
      ensures if ok then stage == AfterMark(MtrTable, all) else stage == Failing && batch == NO_BATCH
    {
      AllWithinGrown(At(base, w, 3), all, w.arrivals(3));
      run' := Interfere(w.arrivals(3), s0, run);
      if w.raises(3) {
        run' := Raise(s0, run');
        return false, run';
      }
      var series := BuildSeriesLoop(all.modem, all.probe, all.mtr);
      ok, run' := Push(series, w.post, s0, run');
      if ok {
        ok, run' := MarkAll(all, w, base, s0, run');
      }
    }

    /** What follows the SELECTs: nothing if they found nothing. */
    method PushIfAny(all: Batch, w: World, ghost base: Triple<Table>, ghost s0: State, ghost run: seq<Action>)
      returns (count: Option<nat>, ghost run': seq<Action>)
      requires Possible(w) && Leads(s0, run, S()) && all == batch && stage == AfterSelect(MtrTable, all)
      requires db.tables == At(base, w, 3) && AllWithin(db.tables, all) && !SelectRaises(w)
      modifies db, this`remote, this`stage, this`batch
      ensures Leads(s0, run', S()) && (count.Some? <==> Drains(w, all)) && db.tables == CycleTables(base, w, all)
      ensures if count.Some? then stage == Drained(count.value) else stage == Failing && batch == NO_BATCH
      ensures count.Some? ==> count.value == |all.modem| + |all.probe| + |all.mtr|
    {
      if all.modem == [] && all.probe == [] && all.mtr == [] {
        assert all == NO_BATCH;
        NoUpdates(base, w, all);
        return Some(0), run;
      }
      var ok;
      ok, run' := PushSelected(all, w, base, s0, run);
      count := if ok then Some(|all.modem| + |all.probe| + |all.mtr|) else None;
    }

    /** One drain cycle: the number of rows pushed, or None for an exception. Whatever happens
        around it, it is a run of the protocol; what it returns and what becomes of the tables
        is what the world and the rows selected determine. */
    method PushUnpushed(w: World, ghost s0: State, ghost run: seq<Action>)
      returns (count: Option<nat>, ghost run': seq<Action>, ghost rows: Batch)
      requires Possible(w) && Leads(s0, run, S()) && stage == Idle && batch == NO_BATCH
      modifies db, this`remote, this`stage, this`batch
      ensures Leads(s0, run', S())
      ensures if SelectRaises(w) then rows == NO_BATCH else Chosen(old(db.tables), w, rows)
      ensures count.Some? <==> Drains(w, rows)
      ensures if count.Some? then stage == Drained(count.value) else stage == Failing && batch == NO_BATCH
      ensures count.Some? ==> count.value == |rows.modem| + |rows.probe| + |rows.mtr|
      ensures db.tables == CycleTables(old(db.tables), w, rows)
    {
      ghost var base := db.tables;
      var selected;
      selected, run' := SelectAll(w, s0, run);
      if selected.None? {
        NoUpdates(base, w, NO_BATCH);
        return None, run', NO_BATCH;
      }
      rows := selected.value;
      ChosenWithin(base, w, rows);
      count, run' := PushIfAny(selected.value, w, base, s0, run');
    }

    /** The heartbeat POST after a drain. */
    method PushHeartbeat(outcome: Outcome, nowMs: int, ghost s0: State, ghost run: seq<Action>)
      returns (ok: bool, ghost run': seq<Action>)
      requires Leads(s0, run, S()) && stage.Drained?
      modifies this
      ensures Leads(s0, run', S()) && (ok <==> outcome == Accepted)
      ensures if ok then stage == Idle && batch == NO_BATCH && consecutiveFailures == 0
              else stage == Failing && batch == NO_BATCH && consecutiveFailures == old(consecutiveFailures)
      ensures remote == old(remote) +
        if outcome == Refused then multiset{}
        else multiset{Series.Point([Model.Label("__name__", "knausen_collector_heartbeat")], Model.Sample(1.0, nowMs))}
    {
      LeadsThen(s0, run, S(), Heartbeat(outcome, nowMs));
      run' := run + [Heartbeat(outcome, nowMs)];
      if outcome != Refused {
        remote := remote + multiset{HeartbeatPoint(nowMs)};
      }
      ok := outcome == Accepted;
      stage, batch := if ok then Idle else Failing, NO_BATCH;
      if ok {
        consecutiveFailures := 0;
      }
    }

    /** One turn of the push loop, up to its sleep: drain, heartbeat, and the handler that
        counts a failure of either. Returns the seconds to sleep. The turn is a run of the
        protocol from where the loop stood to where it sleeps. */
    method Turn(w: World) returns (delay: int, ghost run: seq<Action>, ghost rows: Batch)
      requires Possible(w) && stage == Idle && batch == NO_BATCH
      modifies this, db
      ensures Leads(old(S()), run, S()) && stage == Idle && batch == NO_BATCH
      ensures GoodTurn(w, rows, interval, old(consecutiveFailures), consecutiveFailures, delay, old(db.tables),
                       db.tables)
    {
      ghost var s0 := S();
      var count, ok;
      assert Leads(s0, [], S());
      count, run, rows := PushUnpushed(w, s0, []);
      ok := false;
      if count.Some? {
        run := Interfere(w.arrivals(7), s0, run);
        ok, run := PushHeartbeat(w.heartbeat, w.nowMs, s0, run);
      }
      if !ok {
        LeadsThen(s0, run, S(), Handle);
        consecutiveFailures := consecutiveFailures + 1;
        stage := Idle;
        run := run + [Handle];
        DelayIs(interval, consecutiveFailures);
        delay := Min(interval * Pow2(Min(consecutiveFailures, MAX_EXPONENT)), MAX_BACKOFF);
      } else {
        delay := interval;
      }
    }

    /** Any number of turns of the endless loop: one run of the protocol, and each turn as the
        specification demands. */
    method Loop(worlds: seq<World>) returns (delays: seq<int>, ghost run: seq<Action>, ghost log: Log)
      requires stage == Idle && batch == NO_BATCH && forall w :: w in worlds ==> Possible(w)
      modifies this, db
      ensures Leads(old(S()), run, S()) && stage == Idle && batch == NO_BATCH
      ensures GoodTurns(worlds, interval, old(consecutiveFailures), log) && delays == log.delays
      ensures log.tables[0] == old(db.tables) && log.tables[|worlds|] == db.tables
      ensures consecutiveFailures == Before(old(consecutiveFailures), log.failures, |worlds|)
    {
      ghost var s0 := S();
      delays, run, log := [], [], Log([], [], [], [db.tables]);
      for i := 0 to |worlds|
        invariant Leads(s0, run, S()) && stage == Idle && batch == NO_BATCH
        invariant GoodTurns(worlds[..i], interval, s0.failures, log) && delays == log.delays
        invariant log.tables[0] == s0.db && log.tables[i] == db.tables
        invariant consecutiveFailures == Before(s0.failures, log.failures, i)
      {
        assert worlds[i] in worlds;
        ghost var mid := S();
        var delay;
        ghost var more;
        ghost var rows;
        delay, more, rows := Turn(worlds[i]);
        LeadsOn(s0, run, mid, more, S());
        GoodTurnsSnoc(worlds[..i], interval, s0.failures, log, worlds[i], rows, consecutiveFailures, delay, db.tables);
        assert worlds[..i + 1] == worlds[..i] + [worlds[i]];
        run, delays := run + more, delays + [delay];
        log := Extended(log, rows, consecutiveFailures, delay, db.tables);
      }
      assert worlds[..|worlds|] == worlds;
    }
  }
}
