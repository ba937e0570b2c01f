/** Everything the push worker does not control during one turn of its loop, and what a turn
    then has to do: the specification that the worker's methods are proved against. */
module Worlds {
  import opened Rows
  import opened Table
  import opened Delivery
  import opened Protocol
  import opened Database
  import opened Backoff

  datatype Arrival = Arrival(table: TableName, ts: real, payload: Payload)

  ghost predicate Arrive(arrivals: seq<Arrival>) {
    forall a :: a in arrivals ==> Fits(a.table, a.payload)
  }

  /** What happens around the statements of one turn. The statements are numbered 0, 1, 2
      (selects), 3 (series and POST), 4, 5, 6 (updates) and 7 (heartbeat): `arrivals(k)` come
      before statement k, and `raises(k)` says that it raises without effect. */
  datatype World = World(arrivals: nat -> seq<Arrival>, raises: nat -> bool, post: Outcome, now: real,
                         heartbeat: Outcome, nowMs: int)

  ghost predicate Possible(w: World) {
    forall k :: Arrive(w.arrivals(k))
  }

  /** Nothing goes wrong in this turn. */
  ghost predicate Calm(w: World) {
    (forall k :: !w.raises(k)) && w.post == Accepted && w.heartbeat == Accepted
  }

  /** No row arrives during this turn. */
  ghost predicate Quiet(w: World) {
    forall k :: w.arrivals(k) == []
  }

  // ----- rows that arrive -----

  function NewRows(arrivals: seq<Arrival>, t: TableName): Table {
    if arrivals == [] then []
    else
      var init, a := NewRows(arrivals[..|arrivals| - 1], t), arrivals[|arrivals| - 1];
      if a.table == t then InsertRow(init, a.ts, a.payload) else init
  }

  function Grown(tables: Triple<Table>, arrivals: seq<Arrival>): Triple<Table> {
    Triple(tables.modem + NewRows(arrivals, ModemTable), tables.probe + NewRows(arrivals, ProbeTable),
           tables.mtr + NewRows(arrivals, MtrTable))
  }

  /** The tables with the rows that arrive before statements 0 .. k-1. */
  ghost function At(tables: Triple<Table>, w: World, k: nat): Triple<Table> {
    if k == 0 then tables else Grown(At(tables, w, k - 1), w.arrivals(k - 1))
  }

  lemma InsertLast(t: Table, more: Table, ts: real, payload: Payload)
    ensures InsertRow(t + more, ts, payload) == t + InsertRow(more, ts, payload)
  {
  }

  lemma GrownBy(tables: Triple<Table>, arrivals: seq<Arrival>, a: Arrival)
    ensures var before := Grown(tables, arrivals);
      Grown(tables, arrivals + [a]) == before.Set(a.table, InsertRow(before.Get(a.table), a.ts, a.payload))
  {
    assert (arrivals + [a])[..|arrivals|] == arrivals;
    InsertLast(tables.modem, NewRows(arrivals, ModemTable), a.ts, a.payload);
    InsertLast(tables.probe, NewRows(arrivals, ProbeTable), a.ts, a.payload);
    InsertLast(tables.mtr, NewRows(arrivals, MtrTable), a.ts, a.payload);
  }

  lemma GrownByNothing(tables: Triple<Table>)
    ensures Grown(tables, []) == tables
  {
    assert tables.modem + [] == tables.modem && tables.probe + [] == tables.probe && tables.mtr + [] == tables.mtr;
  }

  // ----- the outcome of a drain cycle -----

  /** A batch as the three SELECTs may return it. */
  ghost predicate Chosen(tables: Triple<Table>, w: World, rows: Batch) {
    && SelectedFrom(At(tables, w, 1).modem, rows.modem)
    && SelectedFrom(At(tables, w, 2).probe, rows.probe)
    && SelectedFrom(At(tables, w, 3).mtr, rows.mtr)
  }

  predicate SelectRaises(w: World) {
    w.raises(0) || w.raises(1) || w.raises(2)
  }

  /** The POST raises no exception; there is none for an empty list of series. */
  predicate Taken(w: World, rows: Batch) {
    |SeriesOf(rows)| == 0 || w.post == Accepted
  }

  /** `push_unpushed` returns. */
  predicate Drains(w: World, rows: Batch) {
    && !SelectRaises(w)
    && (rows == NO_BATCH
        || (!w.raises(3) && Taken(w, rows) && !w.raises(4) && !w.raises(5) && !w.raises(6)))
  }

  /** How many statements' arrivals the cycle gets to see. */
  function Reached(w: World, rows: Batch): nat {
    if w.raises(0) then 1
    else if w.raises(1) then 2
    else if w.raises(2) || rows == NO_BATCH then 3
    else if w.raises(3) || !Taken(w, rows) then 4
    else if w.raises(4) then 5
    else if w.raises(5) then 6
    else 7
  }

  /** How many of the three UPDATEs happen. */
  function Updates(w: World, rows: Batch): nat {
    if SelectRaises(w) || rows == NO_BATCH || w.raises(3) || !Taken(w, rows) || w.raises(4) then 0
    else if w.raises(5) then 1
    else if w.raises(6) then 2
    else 3
  }

  function MarkOne(tables: Triple<Table>, t: TableName, rows: seq<StoredSample>, now: real): Triple<Table> {
    tables.Set(t, MarkRows(tables.Get(t), IdsOf(rows), now))
  }

  function TableOf(k: nat): TableName {
    if k == 0 then ModemTable else if k == 1 then ProbeTable else MtrTable
  }

  /** The first k UPDATEs. */
  function FirstMarked(tables: Triple<Table>, rows: Batch, k: nat, now: real): Triple<Table> {
    if k == 0 then tables
    else MarkOne(FirstMarked(tables, rows, k - 1, now), TableOf(k - 1), rows.Get(TableOf(k - 1)), now)
  }

  ghost function CycleTables(tables: Triple<Table>, w: World, rows: Batch): Triple<Table> {
    FirstMarked(At(tables, w, Reached(w, rows)), rows, Updates(w, rows), w.now)
  }

  // ----- the outcome of a turn -----

  predicate Succeeds(w: World, rows: Batch) {
    Drains(w, rows) && w.heartbeat == Accepted
  }

  ghost function TurnTables(tables: Triple<Table>, w: World, rows: Batch): Triple<Table> {
    var after := CycleTables(tables, w, rows);
    if Drains(w, rows) then Grown(after, w.arrivals(7)) else after
  }

  /** One turn: the batch it selects, what becomes of the tables, of the failure counter, and
      how long the loop then sleeps. */
  ghost predicate GoodTurn(w: World, rows: Batch, interval: int, before: nat, failures: nat, delay: int,
                           tables: Triple<Table>, tables': Triple<Table>) {
    && (if SelectRaises(w) then rows == NO_BATCH else Chosen(tables, w, rows))
    && tables' == TurnTables(tables, w, rows)
    && failures == (if Succeeds(w, rows) then 0 else before + 1)
    && delay == Delay(interval, failures)
  }

  /** Any number of turns. Turn i starts with `tables[i]`, selects `picked[i]`, leaves
      `failures[i]` failures in a row behind, and then the loop sleeps `delays[i]`. */
  datatype Log = Log(picked: seq<Batch>, failures: seq<nat>, delays: seq<int>, tables: seq<Triple<Table>>)

  /** The failure counter before turn `i`. */
  ghost function Before(start: nat, failures: seq<nat>, i: nat): nat
    requires i <= |failures|
  {
    if i == 0 then start else failures[i - 1]
  }

  ghost predicate GoodTurns(worlds: seq<World>, interval: int, start: nat, log: Log) {
    && |log.picked| == |log.failures| == |log.delays| == |worlds| && |log.tables| == |worlds| + 1
    && forall i :: 0 <= i < |worlds| ==>
         GoodTurn(worlds[i], log.picked[i], interval, Before(start, log.failures, i), log.failures[i], log.delays[i],
                  log.tables[i], log.tables[i + 1])
  }

  function Extended(log: Log, rows: Batch, f: nat, d: int, tables: Triple<Table>): Log {
    Log(log.picked + [rows], log.failures + [f], log.delays + [d], log.tables + [tables])
  }

  /** An extended log still has its old entries. */
  lemma EntriesKept(start: nat, log: Log, n: nat, rows: Batch, f: nat, d: int, tables: Triple<Table>, i: nat)
    requires |log.picked| == |log.failures| == |log.delays| == n && |log.tables| == n + 1
    ensures var log' := Extended(log, rows, f, d, tables);
      && (i < n ==> log'.picked[i] == log.picked[i] && log'.failures[i] == log.failures[i])
      && (i < n ==> log'.delays[i] == log.delays[i] && log'.tables[i + 1] == log.tables[i + 1])
      && (i <= n ==> log'.tables[i] == log.tables[i])
      && (i <= n ==> Before(start, log'.failures, i) == Before(start, log.failures, i))
  {
  }

  lemma GoodTurnsSnoc(worlds: seq<World>, interval: int, start: nat, log: Log, w: World, rows: Batch, f: nat, d: int,
                      tables: Triple<Table>)
    requires GoodTurns(worlds, interval, start, log)
    requires GoodTurn(w, rows, interval, Before(start, log.failures, |worlds|), f, d, log.tables[|worlds|], tables)
    ensures GoodTurns(worlds + [w], interval, start, Extended(log, rows, f, d, tables))
  {
    var log' := Extended(log, rows, f, d, tables);
    forall i | 0 <= i < |worlds + [w]|
      ensures GoodTurn((worlds + [w])[i], log'.picked[i], interval, Before(start, log'.failures, i), log'.failures[i],
                       log'.delays[i], log'.tables[i], log'.tables[i + 1])
    {
      EntriesKept(start, log, |worlds|, rows, f, d, tables, i);
    }
  }

  // ----- marking and arrivals do not disturb each other -----

  ghost predicate Within(t: Table, rows: seq<StoredSample>) {
    forall id :: id in IdsOf(rows) ==> id < |t|
  }

  ghost predicate AllWithin(tables: Triple<Table>, rows: Batch) {
    Within(tables.modem, rows.modem) && Within(tables.probe, rows.probe) && Within(tables.mtr, rows.mtr)
  }

  lemma MarkThenGrow(t: Table, rows: seq<StoredSample>, now: real, more: Table)
    requires Within(t, rows)
    ensures MarkRows(t, IdsOf(rows), now) + more == MarkRows(t + more, IdsOf(rows), now)
  {
    assert forall i :: |t| <= i < |t + more| ==> i !in IdsOf(rows);
  }

  lemma WithinGrown(t: Table, rows: seq<StoredSample>, more: Table)
    requires Within(t, rows)
    ensures Within(t + more, rows)
  {
  }

  lemma AllWithinGrown(tables: Triple<Table>, rows: Batch, arrivals: seq<Arrival>)
    requires AllWithin(tables, rows)
    ensures AllWithin(Grown(tables, arrivals), rows)
  {
    WithinGrown(tables.modem, rows.modem, NewRows(arrivals, ModemTable));
    WithinGrown(tables.probe, rows.probe, NewRows(arrivals, ProbeTable));
    WithinGrown(tables.mtr, rows.mtr, NewRows(arrivals, MtrTable));
  }

  lemma GrowOneMarked(tables: Triple<Table>, t: TableName, rows: seq<StoredSample>, now: real, arrivals: seq<Arrival>)
    requires Within(tables.Get(t), rows)
    ensures Grown(MarkOne(tables, t, rows, now), arrivals) == MarkOne(Grown(tables, arrivals), t, rows, now)
  {
    MarkThenGrow(tables.Get(t), rows, now, NewRows(arrivals, t));
  }

  lemma MarkKeepsWithin(tables: Triple<Table>, t: TableName, rows: seq<StoredSample>, now: real, all: Batch)
    requires AllWithin(tables, all)
    ensures AllWithin(MarkOne(tables, t, rows, now), all)
  {
  }

  lemma {:induction false} GrowMarked(tables: Triple<Table>, rows: Batch, k: nat, now: real, arrivals: seq<Arrival>)
    requires AllWithin(tables, rows)
    ensures Grown(FirstMarked(tables, rows, k, now), arrivals) == FirstMarked(Grown(tables, arrivals), rows, k, now)
    ensures AllWithin(FirstMarked(tables, rows, k, now), rows)
  {
    if k > 0 {
      var before, t := FirstMarked(tables, rows, k - 1, now), TableOf(k - 1);
      GrowMarked(tables, rows, k - 1, now, arrivals);
      GrowOneMarked(before, t, rows.Get(t), now, arrivals);
      MarkKeepsWithin(before, t, rows.Get(t), now, rows);
    }
  }

  lemma SelectedWithin(t: Table, rows: seq<StoredSample>)
    requires SelectedFrom(t, rows)
    ensures Within(t, rows)
  {
    var ids :| IsSelection(t, ids) && rows == Fetch(t, ids);
    FetchHolds(t, ids);
  }

  lemma ChosenWithin(tables: Triple<Table>, w: World, rows: Batch)
    requires Chosen(tables, w, rows)
    ensures AllWithin(At(tables, w, 3), rows)
  {
    var one, two, three := At(tables, w, 1), At(tables, w, 2), At(tables, w, 3);
    assert two == Grown(one, w.arrivals(1)) && three == Grown(two, w.arrivals(2));
    SelectedWithin(one.modem, rows.modem);
    SelectedWithin(two.probe, rows.probe);
    SelectedWithin(three.mtr, rows.mtr);
    WithinGrown(one.modem, rows.modem, NewRows(w.arrivals(1), ModemTable));
    WithinGrown(two.modem, rows.modem, NewRows(w.arrivals(2), ModemTable));
    WithinGrown(two.probe, rows.probe, NewRows(w.arrivals(2), ProbeTable));
  }

  lemma NoUpdates(tables: Triple<Table>, w: World, rows: Batch)
    requires SelectRaises(w) || rows == NO_BATCH
    ensures CycleTables(tables, w, rows) == At(tables, w, if w.raises(0) then 1 else if w.raises(1) then 2 else 3)
  {
  }

  /** Where a cycle ends that gets as far as its UPDATEs. */
  lemma CutCycle(tables: Triple<Table>, w: World, rows: Batch)
    requires !SelectRaises(w) && rows != NO_BATCH && !w.raises(3) && Taken(w, rows)
    ensures w.raises(4) ==> CycleTables(tables, w, rows) == Half(tables, w, rows, 0)
    ensures !w.raises(4) && w.raises(5) ==> CycleTables(tables, w, rows) == Half(tables, w, rows, 1)
    ensures !w.raises(4) && !w.raises(5) && w.raises(6) ==> CycleTables(tables, w, rows) == Half(tables, w, rows, 2)
    ensures !w.raises(4) && !w.raises(5) && !w.raises(6) ==>
      CycleTables(tables, w, rows) == FirstMarked(At(tables, w, 7), rows, 3, w.now)
  {
  }

  /** After k UPDATEs and what arrives before the next statement. */
  ghost function Half(tables: Triple<Table>, w: World, rows: Batch, k: nat): Triple<Table> {
    FirstMarked(At(tables, w, 5 + k), rows, k, w.now)
  }

  lemma {:induction false} AtWithin(tables: Triple<Table>, w: World, rows: Batch, j: nat, k: nat)
    requires AllWithin(At(tables, w, j), rows) && j <= k
    ensures AllWithin(At(tables, w, k), rows)
  {
    if j < k {
      AtWithin(tables, w, rows, j, k - 1);
      AllWithinGrown(At(tables, w, k - 1), rows, w.arrivals(k - 1));
    }
  }

  /** The k-th UPDATE, after what arrives before it. */
  lemma NextUpdate(tables: Triple<Table>, w: World, rows: Batch, k: nat)
    requires AllWithin(At(tables, w, 4), rows)
    ensures var before := FirstMarked(At(tables, w, 4 + k), rows, k, w.now);
      && Grown(before, w.arrivals(4 + k)) == Half(tables, w, rows, k)
      && MarkOne(Half(tables, w, rows, k), TableOf(k), rows.Get(TableOf(k)), w.now) ==
           FirstMarked(At(tables, w, 5 + k), rows, k + 1, w.now)
  {
    AtWithin(tables, w, rows, 4, 4 + k);
    GrowMarked(At(tables, w, 4 + k), rows, k, w.now, w.arrivals(4 + k));
    assert At(tables, w, 5 + k) == Grown(At(tables, w, 4 + k), w.arrivals(4 + k));
  }

  lemma FirstUpdate(tables: Triple<Table>, w: World, rows: Batch)
    requires AllWithin(At(tables, w, 4), rows)
    ensures Grown(At(tables, w, 4), w.arrivals(4)) == Half(tables, w, rows, 0)
    ensures MarkOne(Half(tables, w, rows, 0), ModemTable, rows.modem, w.now) ==
      FirstMarked(At(tables, w, 5), rows, 1, w.now)
  {
    NextUpdate(tables, w, rows, 0);
  }
}
