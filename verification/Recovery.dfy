/** The push loop over any number of turns: its failure streaks, and how soon a backlog is gone
    once the remote is reliable again. All of it about the turns that PushWorker.Worker.Loop is
    proved to make. */
module Recovery {
  import opened Options
  import opened Rows
  import opened Table
  import opened Delivery
  import opened Protocol
  import opened Backoff
  import opened Worlds

  // ----- what a turn does, spelled out -----

  /** No statement up to number n raises, and the POST, if there is one to make, is accepted. */
  ghost predicate Through(w: World, rows: Batch, n: nat) {
    (forall k: nat :: k <= n ==> !w.raises(k)) && (SeriesOf(rows) != [] ==> w.post == Accepted)
  }

  /** A turn leaves no failure behind exactly if none of its statements raises and the remote accepts
      what it is sent, the heartbeat included; with nothing selected only the SELECTs count.
      Otherwise there is one failure more. The sleep follows from the count. */
  lemma TurnOutcome(w: World, rows: Batch, interval: int, before: nat, failures: nat, delay: int,
                    tables: Triple<Table>, tables': Triple<Table>)
    requires GoodTurn(w, rows, interval, before, failures, delay, tables, tables')
    ensures failures == 0 <==>
      w.heartbeat == Accepted
      && (if rows == NO_BATCH then !w.raises(0) && !w.raises(1) && !w.raises(2) else Through(w, rows, 6))
    ensures failures == 0 || failures == before + 1
    ensures delay == if failures == 0 then interval else Min(interval * Pow2(Min(failures, 6)), 3600)
  {
    Outcome(w, rows);
    if failures > 0 {
      DelayIs(interval, failures);
    }
  }

  lemma Outcome(w: World, rows: Batch)
    ensures Drains(w, rows) <==>
      if rows == NO_BATCH then !w.raises(0) && !w.raises(1) && !w.raises(2) else Through(w, rows, 6)
  {
    if Drains(w, rows) && rows != NO_BATCH {
      forall k: nat | k <= 6 ensures !w.raises(k) {
        assert k == 0 || k == 1 || k == 2 || k == 3 || k == 4 || k == 5 || k == 6;
      }
    }
  }

  /** A table's row as the turn leaves it: marked with the turn's time if it was selected and the
      table's UPDATE, statement 4, 5 or 6, was reached and made; untouched otherwise. */
  ghost predicate RowAfter(w: World, rows: Batch, t: TableName, i: nat, row: Row, row': Row) {
    && row'.ts == row.ts && row'.payload == row.payload
    && row'.pushedAt ==
       var update := match t case ModemTable => 4 case ProbeTable => 5 case MtrTable => 6;
       if i in IdsOf(rows.Get(t)) && Through(w, rows, update) then Some(w.now) else row.pushedAt
  }

  lemma {:induction false} AtKeeps(tables: Triple<Table>, w: World, k: nat, t: TableName, i: nat)
    requires i < |tables.Get(t)|
    ensures i < |At(tables, w, k).Get(t)| && At(tables, w, k).Get(t)[i] == tables.Get(t)[i]
  {
    if k > 0 {
      AtKeeps(tables, w, k - 1, t, i);
      GrownKeeps(At(tables, w, k - 1), w.arrivals(k - 1), t, i);
    }
  }

  lemma GrownKeeps(tables: Triple<Table>, arrivals: seq<Arrival>, t: TableName, i: nat)
    requires i < |tables.Get(t)|
    ensures i < |Grown(tables, arrivals).Get(t)| && Grown(tables, arrivals).Get(t)[i] == tables.Get(t)[i]
  {
  }

  /** Where the table stands in the order of the UPDATEs. */
  function Place(t: TableName): nat {
    match t case ModemTable => 0 case ProbeTable => 1 case MtrTable => 2
  }

  lemma {:induction false} FirstMarkedRow(tables: Triple<Table>, rows: Batch, k: nat, now: real, t: TableName, i: nat)
    requires i < |tables.Get(t)| && k <= 3
    ensures i < |FirstMarked(tables, rows, k, now).Get(t)|
    ensures FirstMarked(tables, rows, k, now).Get(t)[i] ==
      Marked(tables.Get(t)[i], Place(t) < k && i in IdsOf(rows.Get(t)), now)
  {
    if k > 0 {
      FirstMarkedRow(tables, rows, k - 1, now, t, i);
    }
  }

  lemma UpdatesMade(w: World, rows: Batch, t: TableName)
    requires rows != NO_BATCH
    ensures Place(t) < Updates(w, rows) <==> Through(w, rows, 4 + Place(t))
  {
    if Place(t) < Updates(w, rows) {
      forall k: nat | k <= 4 + Place(t) ensures !w.raises(k) {
        assert k == 0 || k == 1 || k == 2 || k == 3 || k == 4 || k == 5 || k == 6;
      }
    }
  }

  /** Every row that was there is still there, and marked exactly as it should be. */
  lemma TurnMarks(w: World, rows: Batch, interval: int, before: nat, failures: nat, delay: int,
                  tables: Triple<Table>, tables': Triple<Table>, t: TableName, i: nat)
    requires GoodTurn(w, rows, interval, before, failures, delay, tables, tables')
    requires i < |tables.Get(t)|
    ensures i < |tables'.Get(t)| && RowAfter(w, rows, t, i, tables.Get(t)[i], tables'.Get(t)[i])
  {
    AtKeeps(tables, w, Reached(w, rows), t, i);
    FirstMarkedRow(At(tables, w, Reached(w, rows)), rows, Updates(w, rows), w.now, t, i);
    GrownKeeps(CycleTables(tables, w, rows), w.arrivals(7), t, i);
    if rows != NO_BATCH {
      UpdatesMade(w, rows, t);
    }
  }

  // ----- failure streaks -----

  /** Turns a .. b-1 all fail. */
  ghost predicate Fail(worlds: seq<World>, log: Log, a: nat, b: nat) {
    b <= |worlds| && b <= |log.picked| && forall j :: a <= j < b ==> !Succeeds(worlds[j], log.picked[j])
  }

  /** What turn `i` does to the counter, and how long the loop then sleeps. */
  ghost predicate Counts(good: bool, interval: int, before: nat, failures: nat, delay: int) {
    failures == (if good then 0 else before + 1) && delay == Delay(interval, failures)
  }

  lemma TurnCounts(worlds: seq<World>, interval: int, start: nat, log: Log, i: nat)
    requires GoodTurns(worlds, interval, start, log) && i < |worlds|
    ensures Counts(Succeeds(worlds[i], log.picked[i]), interval, Before(start, log.failures, i), log.failures[i],
      log.delays[i])
  {
    assert GoodTurn(worlds[i], log.picked[i], interval, Before(start, log.failures, i), log.failures[i], log.delays[i],
                    log.tables[i], log.tables[i + 1]);
  }

  /** The counter is cleared by a turn that succeeds, drain and heartbeat, and by no other; the
      loop then sleeps for the plain interval. */
  lemma ResetIff(worlds: seq<World>, interval: int, start: nat, log: Log, i: nat)
    requires GoodTurns(worlds, interval, start, log) && i < |worlds|
    ensures log.failures[i] == 0 <==> Succeeds(worlds[i], log.picked[i])
    ensures Succeeds(worlds[i], log.picked[i]) ==> log.delays[i] == interval
  {
    TurnCounts(worlds, interval, start, log, i);
  }

  /** n failing turns in a row, as far as the counter is concerned. */
  lemma {:induction false} CountUp(interval: int, start: nat, failures: seq<nat>, delays: seq<int>, i: nat, n: nat)
    requires n >= 1 && i + n <= |failures| == |delays|
    requires forall j :: i <= j < i + n ==> Counts(false, interval, Before(start, failures, j), failures[j], delays[j])
    ensures var count := Before(start, failures, i) + n;
      failures[i + n - 1] == count && delays[i + n - 1] == Delay(interval, count)
  {
    if n > 1 {
      CountUp(interval, start, failures, delays, i, n - 1);
    }
    assert Counts(false, interval, Before(start, failures, i + n - 1), failures[i + n - 1], delays[i + n - 1]);
  }

  /** n turns failing in a row count n failures on top of those before, and the loop sleeps
      accordingly. */
  lemma FailureStreak(worlds: seq<World>, interval: int, start: nat, log: Log, i: nat, n: nat)
    requires GoodTurns(worlds, interval, start, log) && n >= 1 && Fail(worlds, log, i, i + n)
    ensures var count := Before(start, log.failures, i) + n;
      log.failures[i + n - 1] == count && log.delays[i + n - 1] == Delay(interval, count)
  {
    forall j | i <= j < i + n
      ensures Counts(false, interval, Before(start, log.failures, j), log.failures[j], log.delays[j])
    {
      TurnCounts(worlds, interval, start, log, j);
    }
    CountUp(interval, start, log.failures, log.delays, i, n);
  }

  lemma ClearedBefore(worlds: seq<World>, interval: int, start: nat, log: Log, last: nat)
    requires GoodTurns(worlds, interval, start, log) && last < |worlds| && Succeeds(worlds[last], log.picked[last])
    ensures Before(start, log.failures, last + 1) == 0
  {
    ResetIff(worlds, interval, start, log, last);
  }

  lemma StreakFromZero(worlds: seq<World>, interval: int, start: nat, log: Log, i: nat, n: nat, last: nat)
    requires GoodTurns(worlds, interval, start, log) && n >= 1 && Fail(worlds, log, i, i + n) && last + 1 == i + n
    requires Before(start, log.failures, i) == 0
    ensures log.delays[last] == Delay(interval, n)
  {
    FailureStreak(worlds, interval, start, log, i, n);
  }

  /** After a success in turn i - 1, the n-th failure in a row makes the loop wait for the n-th delay:
      min(interval * 2^min(n, 6), 3600) seconds, by Backoff.DelayIs. */
  lemma BackoffAfterSuccess(worlds: seq<World>, interval: int, start: nat, log: Log, i: nat, n: nat, last: nat)
    requires GoodTurns(worlds, interval, start, log) && i >= 1 && n >= 1 && last + 1 == i + n
    requires Fail(worlds, log, i, i + n) && Succeeds(worlds[i - 1], log.picked[i - 1])
    ensures log.delays[last] == Delay(interval, n)
  {
    ClearedBefore(worlds, interval, start, log, i - 1);
    StreakFromZero(worlds, interval, start, log, i, n, last);
  }

  /** Along a failure streak of the loop the waiting time is positive, never shrinks and never
      exceeds an hour. */
  lemma StreakDelaysGrow(worlds: seq<World>, interval: int, start: nat, log: Log, i: nat, a: nat, b: nat)
    requires GoodTurns(worlds, interval, start, log) && interval > 0 && i <= a <= b && Fail(worlds, log, i, b + 1)
    ensures 0 < log.delays[a] <= log.delays[b] <= 3600
  {
    FailureStreak(worlds, interval, start, log, i, a - i + 1);
    FailureStreak(worlds, interval, start, log, i, b - i + 1);
    DelayGrows(interval, Before(start, log.failures, i) + a - i + 1, Before(start, log.failures, i) + b - i + 1);
  }

  // ----- undisturbed turns -----

  /** Every table's backlog goes down by min(500, backlog). */
  ghost predicate DrainTurn(before: Triple<nat>, after: Triple<nat>) {
    forall t :: after.Get(t) == Max(0, before.Get(t) - 500)
  }

  ghost function Backlogs(tables: Triple<Table>): Triple<nat> {
    Triple(|Unpushed(tables.modem)|, |Unpushed(tables.probe)|, |Unpushed(tables.mtr)|)
  }

  /** Marking one selection of a table. */
  lemma OneDrainBacklog(before: Table, rows: seq<StoredSample>, now: real)
    requires SelectedFrom(before, rows)
    ensures |rows| == Min(BATCH_SIZE, |Unpushed(before)|)
    ensures |Unpushed(MarkRows(before, IdsOf(rows), now))| == Max(0, |Unpushed(before)| - BATCH_SIZE)
  {
    var ids :| IsSelection(before, ids) && rows == Fetch(before, ids);
    FetchHolds(before, ids);
    UnpushedMark(before, ids, now);
  }

  lemma {:induction false} QuietAt(tables: Triple<Table>, w: World, k: nat)
    requires Quiet(w)
    ensures At(tables, w, k) == tables
  {
    if k > 0 {
      QuietAt(tables, w, k - 1);
      GrownByNothing(tables);
    }
  }

  ghost predicate AllSelected(tables: Triple<Table>, rows: Batch) {
    SelectedFrom(tables.modem, rows.modem) && SelectedFrom(tables.probe, rows.probe) &&
      SelectedFrom(tables.mtr, rows.mtr)
  }

  lemma QuietChosen(tables: Triple<Table>, w: World, rows: Batch)
    requires Quiet(w) && Chosen(tables, w, rows)
    ensures AllSelected(tables, rows)
  {
    QuietAt(tables, w, 1);
    QuietAt(tables, w, 2);
    QuietAt(tables, w, 3);
  }

  function AllMarked(tables: Triple<Table>, rows: Batch, now: real): Triple<Table> {
    Triple(MarkRows(tables.modem, IdsOf(rows.modem), now), MarkRows(tables.probe, IdsOf(rows.probe), now),
           MarkRows(tables.mtr, IdsOf(rows.mtr), now))
  }

  lemma ThreeMarks(tables: Triple<Table>, rows: Batch, now: real)
    ensures FirstMarked(tables, rows, 3, now) == AllMarked(tables, rows, now)
    ensures rows == NO_BATCH ==> FirstMarked(tables, rows, 0, now) == AllMarked(tables, rows, now)
  {
    var one := MarkOne(tables, ModemTable, rows.modem, now);
    var two := MarkOne(one, ProbeTable, rows.probe, now);
    assert FirstMarked(tables, rows, 1, now) == one by {
      assert FirstMarked(tables, rows, 0, now) == tables;
    }
    assert FirstMarked(tables, rows, 2, now) == two;
    if rows == NO_BATCH {
      assert IdsOf([]) == [];
      Database.MarkNothing(tables.modem, now);
      Database.MarkNothing(tables.probe, now);
      Database.MarkNothing(tables.mtr, now);
    }
  }

  lemma UndisturbedTables(tables: Triple<Table>, w: World, rows: Batch)
    requires Calm(w) && Quiet(w)
    ensures Succeeds(w, rows) && TurnTables(tables, w, rows) == AllMarked(tables, rows, w.now)
  {
    QuietAt(tables, w, Reached(w, rows));
    ThreeMarks(tables, rows, w.now);
    GrownByNothing(CycleTables(tables, w, rows));
  }

  lemma AllMarkedBacklogs(tables: Triple<Table>, rows: Batch, now: real)
    requires AllSelected(tables, rows)
    ensures DrainTurn(Backlogs(tables), Backlogs(AllMarked(tables, rows, now)))
  {
    OneDrainBacklog(tables.modem, rows.modem, now);
    OneDrainBacklog(tables.probe, rows.probe, now);
    OneDrainBacklog(tables.mtr, rows.mtr, now);
  }

  /** A turn in which nothing goes wrong and no row arrives succeeds and takes min(500, backlog)
      rows off every table. */
  lemma UndisturbedTurn(w: World, rows: Batch, interval: int, before: nat, failures: nat, delay: int,
                        tables: Triple<Table>, tables': Triple<Table>)
    requires GoodTurn(w, rows, interval, before, failures, delay, tables, tables') && Calm(w) && Quiet(w)
    ensures Succeeds(w, rows) && DrainTurn(Backlogs(tables), Backlogs(tables'))
  {
    UndisturbedTables(tables, w, rows);
    QuietChosen(tables, w, rows);
    AllMarkedBacklogs(tables, rows, w.now);
  }

  // ----- time -----

  /** When turn `i` of the loop starts. Turn `j` takes `took[j]` seconds; then the loop sleeps. */
  ghost function StartOf(start: real, took: seq<real>, delays: seq<int>, i: nat): real
    requires |took| == |delays| && i <= |took|
  {
    if i == 0 then start else StartOf(start, took, delays, i - 1) + took[i - 1] + delays[i - 1] as real
  }

  /** When turn `i` is over. */
  ghost function EndOf(start: real, took: seq<real>, delays: seq<int>, i: nat): real
    requires |took| == |delays| && i < |took|
  {
    StartOf(start, took, delays, i) + took[i]
  }

  /** Time spent inside turns a .. b-1. */
  ghost function Busy(took: seq<real>, a: nat, b: nat): real
    requires a <= b <= |took|
  {
    if a == b then 0.0 else Busy(took, a, b - 1) + took[b - 1]
  }

  lemma {:induction false} RegularTurns(start: real, took: seq<real>, delays: seq<int>, interval: int, a: nat, b: nat)
    requires |took| == |delays| && a <= b <= |took|
    requires forall j :: a <= j < b ==> delays[j] == interval
    ensures StartOf(start, took, delays, b) ==
      StartOf(start, took, delays, a) + ((b - a) * interval) as real + Busy(took, a, b)
    decreases b
  {
    if a < b {
      RegularTurns(start, took, delays, interval, a, b - 1);
      assert ((b - a) * interval) as real == ((b - 1 - a) * interval) as real + interval as real;
    }
  }

  lemma {:induction false} BusySplit(took: seq<real>, a: nat, b: nat)
    requires a < b <= |took|
    ensures Busy(took, a, b) == took[a] + Busy(took, a + 1, b)
    decreases b
  {
    if a + 1 < b {
      BusySplit(took, a, b - 1);
    } else {
      assert Busy(took, a, a) == 0.0;
    }
  }

  /** The end of the `cycles`-th turn from `first` on, when every one of them is followed by the
      plain interval and the sleep before is at most `longest`. */
  lemma EndBound(start: real, took: seq<real>, delays: seq<int>, interval: int, first: nat, cycles: nat, longest: int)
    requires |took| == |delays| && 1 <= first && cycles >= 1 && first + cycles <= |took|
    requires delays[first - 1] <= longest && forall j :: first <= j < first + cycles ==> delays[j] == interval
    ensures EndOf(start, took, delays, first + cycles - 1) <=
      StartOf(start, took, delays, first - 1) + longest as real + ((cycles - 1) * interval) as real
      + Busy(took, first - 1, first + cycles)
  {
    var last := first + cycles - 1;
    RegularTurns(start, took, delays, interval, first, last);
    assert last - first == cycles - 1;
    assert Busy(took, first, first + cycles) == Busy(took, first, last) + took[last];
    BusySplit(took, first - 1, first + cycles);
  }

  // ----- recovery -----

  /** From turn `first` on no POST, no heartbeat and no statement fails. */
  ghost predicate Reliable(worlds: seq<World>, first: nat) {
    forall j :: first <= j < |worlds| ==> Calm(worlds[j])
  }

  ghost predicate NoArrivals(worlds: seq<World>, first: nat) {
    forall j :: first <= j < |worlds| ==> Quiet(worlds[j])
  }

  lemma CalmSucceeds(w: World, rows: Batch)
    requires Calm(w)
    ensures Succeeds(w, rows)
  {
  }

  lemma LongestDelay(worlds: seq<World>, interval: int, start: nat, log: Log, i: nat)
    requires GoodTurns(worlds, interval, start, log) && i < |worlds| && interval > 0
    ensures log.delays[i] <= Max(interval, MAX_BACKOFF)
  {
    TurnCounts(worlds, interval, start, log, i);
    if log.failures[i] > 0 {
      DelayGrows(interval, log.failures[i], log.failures[i]);
    }
  }

  /** The `cycles`-th turn from `first` on is over within the longest possible sleep after
      `recovery`, plus the regular pauses between the turns, plus the time the turns take. */
  ghost predicate OnTime(began: real, took: seq<real>, delays: seq<int>, interval: int, first: nat, cycles: nat,
                         recovery: real)
    requires |took| == |delays| && 1 <= first && cycles >= 1 && first + cycles <= |took|
  {
    EndOf(began, took, delays, first + cycles - 1) <=
      recovery + Max(interval, 3600) as real + ((cycles - 1) * interval) as real
      + Busy(took, first - 1, first + cycles)
  }

  /** Bounded recovery: the remote is reliable from time `recovery` on, which falls into or after
      turn `first - 1` of the loop. Then the `cycles`-th turn from `first` on succeeds, and on time. */
  lemma BoundedRecovery(worlds: seq<World>, interval: int, start: nat, log: Log, began: real, took: seq<real>,
                        first: nat, cycles: nat, recovery: real)
    requires GoodTurns(worlds, interval, start, log) && |took| == |worlds| && interval > 0
    requires 1 <= first && cycles >= 1 && first + cycles <= |worlds| && Reliable(worlds, first)
    requires StartOf(began, took, log.delays, first - 1) <= recovery
    ensures Succeeds(worlds[first + cycles - 1], log.picked[first + cycles - 1])
    ensures OnTime(began, took, log.delays, interval, first, cycles, recovery)
  {
    forall j | first <= j < first + cycles
      ensures log.delays[j] == interval && Succeeds(worlds[j], log.picked[j])
    {
      CalmSucceeds(worlds[j], log.picked[j]);
      ResetIff(worlds, interval, start, log, j);
    }
    LongestDelay(worlds, interval, start, log, first - 1);
    EndBound(began, took, log.delays, interval, first, cycles, Max(interval, MAX_BACKOFF));
  }

  /** Reliable turns without arrivals drain every table by 500 rows each. */
  lemma {:induction false} SteadyDrain(worlds: seq<World>, interval: int, start: nat, log: Log, a: nat, b: nat,
                                       t: TableName)
    requires GoodTurns(worlds, interval, start, log) && a <= b <= |worlds|
    requires Reliable(worlds, a) && NoArrivals(worlds, a)
    ensures Backlogs(log.tables[b]).Get(t) == Max(0, Backlogs(log.tables[a]).Get(t) - BATCH_SIZE * (b - a))
    decreases b
  {
    if a < b {
      var j := b - 1;
      SteadyDrain(worlds, interval, start, log, a, j, t);
      assert GoodTurn(worlds[j], log.picked[j], interval, Before(start, log.failures, j), log.failures[j],
                      log.delays[j], log.tables[j], log.tables[j + 1]);
      UndisturbedTurn(worlds[j], log.picked[j], interval, Before(start, log.failures, j), log.failures[j],
                      log.delays[j], log.tables[j], log.tables[j + 1]);
    }
  }

  lemma SteadyDrains(worlds: seq<World>, interval: int, start: nat, log: Log, a: nat, k: nat)
    requires GoodTurns(worlds, interval, start, log) && a + k <= |worlds|
    requires Reliable(worlds, a) && NoArrivals(worlds, a)
    ensures Lowered(Backlogs(log.tables[a]), Backlogs(log.tables[a + k]), k)
  {
    forall t: TableName
      ensures Backlogs(log.tables[a + k]).Get(t) == Max(0, Backlogs(log.tables[a]).Get(t) - BATCH_SIZE * k)
    {
      SteadyDrain(worlds, interval, start, log, a, a + k, t);
    }
  }

  ghost predicate Lowered(waiting: Triple<nat>, after: Triple<nat>, cycles: nat) {
    forall t: TableName :: after.Get(t) == Max(0, waiting.Get(t) - 500 * cycles)
  }

  ghost function Largest(waiting: Triple<nat>): nat {
    Max(waiting.modem, Max(waiting.probe, waiting.mtr))
  }

  lemma ThreeCleared(waiting: Triple<nat>, cycles: nat, after: Triple<nat>)
    requires Largest(waiting) <= 500 * cycles && Lowered(waiting, after, cycles)
    ensures after == Triple(0, 0, 0)
  {
    assert after.Get(ModemTable) == after.modem && after.Get(ProbeTable) == after.probe;
    assert after.Get(MtrTable) == after.mtr;
  }

  lemma NotAllCleared(waiting: Triple<nat>, cycles: nat, before: Triple<nat>)
    requires 500 * cycles < Largest(waiting) && Lowered(waiting, before, cycles)
    ensures before != Triple(0, 0, 0)
  {
    assert before.Get(ModemTable) == before.modem && before.Get(ProbeTable) == before.probe;
    assert before.Get(MtrTable) == before.mtr;
  }

  lemma AllCleared(worlds: seq<World>, interval: int, start: nat, log: Log, first: nat, cycles: nat)
    requires GoodTurns(worlds, interval, start, log) && first + cycles <= |worlds|
    requires Reliable(worlds, first) && NoArrivals(worlds, first)
    requires Largest(Backlogs(log.tables[first])) <= 500 * cycles
    ensures Backlogs(log.tables[first + cycles]) == Triple(0, 0, 0)
  {
    SteadyDrains(worlds, interval, start, log, first, cycles);
    ThreeCleared(Backlogs(log.tables[first]), cycles, Backlogs(log.tables[first + cycles]));
  }

  lemma NotSooner(worlds: seq<World>, interval: int, start: nat, log: Log, first: nat, cycles: nat)
    requires GoodTurns(worlds, interval, start, log) && first + cycles <= |worlds|
    requires Reliable(worlds, first) && NoArrivals(worlds, first)
    requires 500 * cycles < Largest(Backlogs(log.tables[first]))
    ensures Backlogs(log.tables[first + cycles]) != Triple(0, 0, 0)
  {
    SteadyDrains(worlds, interval, start, log, first, cycles);
    NotAllCleared(Backlogs(log.tables[first]), cycles, Backlogs(log.tables[first + cycles]));
  }

  /** The backlog left by an outage is gone: with no new rows, all three tables are empty after
      exactly ceil(N / 500) turns, for the largest backlog N, and on time. */
  lemma BacklogCleared(worlds: seq<World>, interval: int, start: nat, log: Log, began: real, took: seq<real>,
                       first: nat, cycles: nat, recovery: real)
    requires GoodTurns(worlds, interval, start, log) && |took| == |worlds| && interval > 0
    requires 1 <= first && cycles >= 1 && first + cycles <= |worlds|
    requires Reliable(worlds, first) && NoArrivals(worlds, first)
    requires 500 * (cycles - 1) < Largest(Backlogs(log.tables[first])) <= 500 * cycles
    requires StartOf(began, took, log.delays, first - 1) <= recovery
    ensures Backlogs(log.tables[first + cycles]) == Triple(0, 0, 0) != Backlogs(log.tables[first + cycles - 1])
    ensures OnTime(began, took, log.delays, interval, first, cycles, recovery)
  {
    BoundedRecovery(worlds, interval, start, log, began, took, first, cycles, recovery);
    AllCleared(worlds, interval, start, log, first, cycles);
    NotSooner(worlds, interval, start, log, first, cycles - 1);
  }
}
