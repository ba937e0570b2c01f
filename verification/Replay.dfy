/** Whole runs: replay order. */
module Replay {
  import opened Seqs
  import opened Rows
  import opened Table
  import opened Delivery
  import opened Protocol

  /** No row waiting outside the batch is older than a row aboard. */
  ghost predicate BatchFirst(t: Table, rows: seq<StoredSample>) {
    forall r, j :: r in rows && 0 <= j < |t| && t[j].pushedAt.None? && j !in IdsOf(rows) ==> r.ts <= t[j].ts
  }

  ghost predicate NotBehind(rows: seq<StoredSample>, ts: real) {
    forall r :: r in rows ==> r.ts <= ts
  }

  lemma SelectInOrder(t: Table, ids: seq<Id>)
    requires IsSelection(t, ids)
    ensures BatchFirst(t, Fetch(t, ids))
  {
    FetchHolds(t, ids);
    var rows := Fetch(t, ids);
    forall r, j | r in rows && 0 <= j < |t| && t[j].pushedAt.None? && j !in IdsOf(rows) ensures r.ts <= t[j].ts {
      var k :| 0 <= k < |rows| && rows[k] == r;
      assert t[ids[k]].ts == r.ts && j in Unpushed(t);
    }
  }

  /** Marking a batch keeps the pushed rows downward closed exactly when no older row is left
      behind. */
  lemma MarkOrderedIff(t: Table, rows: seq<StoredSample>, now: real)
    requires Holds(t, rows) && Ordered(t)
    ensures Ordered(MarkRows(t, IdsOf(rows), now)) <==> BatchFirst(t, rows)
  {
    if BatchFirst(t, rows) {
      MarkInOrder(t, rows, now);
    }
    if Ordered(MarkRows(t, IdsOf(rows), now)) {
      MarkedFirst(t, rows, now);
    }
  }

  lemma MarkInOrder(t: Table, rows: seq<StoredSample>, now: real)
    requires Holds(t, rows) && Ordered(t) && BatchFirst(t, rows)
    ensures Ordered(MarkRows(t, IdsOf(rows), now))
  {
    var t' := MarkRows(t, IdsOf(rows), now);
    forall i, j | 0 <= i < |t'| && 0 <= j < |t'| && t'[i].pushedAt.Some? && t'[j].pushedAt.None?
      ensures t'[i].ts <= t'[j].ts
    {
      if i in IdsOf(rows) {
        var k :| 0 <= k < |rows| && IdsOf(rows)[k] == i;
        assert rows[k] in rows;
      }
    }
  }

  lemma MarkedFirst(t: Table, rows: seq<StoredSample>, now: real)
    requires Holds(t, rows) && Ordered(MarkRows(t, IdsOf(rows), now))
    ensures BatchFirst(t, rows)
  {
    var t' := MarkRows(t, IdsOf(rows), now);
    forall r, j | r in rows && 0 <= j < |t| && t[j].pushedAt.None? && j !in IdsOf(rows) ensures r.ts <= t[j].ts {
      var k :| 0 <= k < |rows| && rows[k] == r;
      var i := IdsOf(rows)[k];
      assert i in IdsOf(rows) && t'[i].pushedAt.Some? && t'[j].pushedAt.None?;
    }
  }

  lemma InsertFirstIff(t: Table, rows: seq<StoredSample>, ts: real, payload: Payload)
    requires Holds(t, rows)
    ensures BatchFirst(InsertRow(t, ts, payload), rows) <==> BatchFirst(t, rows) && NotBehind(rows, ts)
  {
    var t' := InsertRow(t, ts, payload);
    assert forall i :: 0 <= i < |t| ==> t'[i] == t[i];
    assert t'[|t|].pushedAt.None? && |t| !in IdsOf(rows);
  }

  // ----- the exact condition -----

  ghost predicate OrderedThroughout(s: State, run: seq<Action>, t: TableName)
    requires Legal(s, run)
    decreases |run|
  {
    Ordered(s.db.Get(t)) && (run == [] || OrderedThroughout(Step(s, run[0]), run[1..], t))
  }

  /** The batch under way reaches its UPDATE on the table. */
  ghost predicate BatchMarked(s: State, run: seq<Action>, t: TableName)
    requires Legal(s, run)
    decreases |run|
  {
    run != [] && Pending(s.stage, t) && (Marks(run[0], t) || BatchMarked(Step(s, run[0]), run[1..], t))
  }

  /** If the run starts with an insert, it is not older than a row already pushed, nor than a
      row aboard whose UPDATE then happens. */
  ghost predicate PromptStep(s: State, run: seq<Action>, t: TableName)
    requires Legal(s, run) && run != []
  {
    InsertsInto(run[0], t) ==>
      && NotBeforePushed(s.db.Get(t), run[0].ts)
      && (BatchMarked(Step(s, run[0]), run[1..], t) ==> NotBehind(s.batch.Get(t), run[0].ts))
  }

  ghost predicate Prompt(s: State, run: seq<Action>, t: TableName)
    requires Legal(s, run)
    decreases |run|
  {
    run == [] || (PromptStep(s, run, t) && Prompt(Step(s, run[0]), run[1..], t))
  }

  ghost predicate Settled(s: State, run: seq<Action>, t: TableName)
    requires Legal(s, run)
  {
    BatchMarked(s, run, t) ==> BatchFirst(s.db.Get(t), s.batch.Get(t))
  }

  lemma TableStays(s: State, a: Action, t: TableName)
    requires Enabled(s, a) && !InsertsInto(a, t) && !Marks(a, t)
    ensures Step(s, a).db.Get(t) == s.db.Get(t)
  {
  }

  ghost predicate FirstIf(b: bool, s: State, t: TableName) {
    b ==> BatchFirst(s.db.Get(t), s.batch.Get(t))
  }

  /** The step with what matters of the future: whether the next state's batch will be marked. */
  ghost predicate StepIff(s: State, a: Action, t: TableName, marked: bool)
    requires Enabled(s, a)
  {
    (Ordered(Step(s, a).db.Get(t)) && FirstIf(marked, Step(s, a), t)) <==>
    (FirstIf(Pending(s.stage, t) && (Marks(a, t) || marked), s, t)
     && (InsertsInto(a, t) ==> NotBeforePushed(s.db.Get(t), a.ts) && (marked ==> NotBehind(s.batch.Get(t), a.ts))))
  }

  lemma InsertStep(s: State, a: Action, t: TableName, marked: bool)
    requires TableInv(s, t) && Ordered(s.db.Get(t)) && Enabled(s, a) && InsertsInto(a, t)
    requires marked ==> Pending(s.stage, t)
    ensures StepIff(s, a, t, marked)
  {
    InsertOrderedIff(s.db.Get(t), a.ts, a.payload);
    if Pending(s.stage, t) {
      InsertFirstIff(s.db.Get(t), s.batch.Get(t), a.ts, a.payload);
    }
  }

  lemma SelectStep(s: State, a: Action, t: TableName, marked: bool)
    requires Ordered(s.db.Get(t)) && Enabled(s, a) && a.Select? && a.table == t
    ensures StepIff(s, a, t, marked)
  {
    SelectInOrder(s.db.Get(t), a.ids);
  }

  lemma MarkStep(s: State, a: Action, t: TableName)
    requires TableInv(s, t) && Ordered(s.db.Get(t)) && Enabled(s, a) && Marks(a, t)
    ensures StepIff(s, a, t, false)
  {
    MarkOrderedIff(s.db.Get(t), s.batch.Get(t), a.now);
  }

  lemma QuietStep(s: State, a: Action, t: TableName, marked: bool)
    requires Ordered(s.db.Get(t)) && Enabled(s, a)
    requires !InsertsInto(a, t) && !(a.Select? && a.table == t) && !Marks(a, t)
    requires marked ==> Pending(Step(s, a).stage, t)
    ensures StepIff(s, a, t, marked)
  {
    TableStays(s, a, t);
    if Pending(Step(s, a).stage, t) {
      StillPending(s, a, t);
    }
  }

  lemma OrderedStep(s: State, a: Action, t: TableName, marked: bool)
    requires TableInv(s, t) && Ordered(s.db.Get(t)) && Enabled(s, a)
    requires marked ==> Pending(Step(s, a).stage, t)
    ensures StepIff(s, a, t, marked)
  {
    if InsertsInto(a, t) {
      InsertStep(s, a, t, marked);
    } else if a.Select? && a.table == t {
      SelectStep(s, a, t, marked);
    } else if Marks(a, t) {
      MarkStep(s, a, t);
    } else {
      QuietStep(s, a, t, marked);
    }
  }

  lemma {:induction false} OrderedIff(s: State, run: seq<Action>, t: TableName)
    requires Inv(s) && Ordered(s.db.Get(t)) && Legal(s, run)
    ensures OrderedThroughout(s, run, t) <==> Settled(s, run, t) && Prompt(s, run, t)
    decreases |run|
  {
    if run != [] {
      var s', rest := Step(s, run[0]), run[1..];
      StepInv(s, run[0]);
      assert TableInv(s, t);
      OrderedStep(s, run[0], t, BatchMarked(s', rest, t));
      if Ordered(s'.db.Get(t)) {
        OrderedIff(s', rest, t);
      } else {
        assert !OrderedThroughout(s', rest, t);
      }
    }
  }

  /** Replay order, exactly: at every point of a run from an empty database the pushed rows are
      downward closed in `ts`, if and only if every insert is prompt. */
  lemma ReplayOrderIff(run: seq<Action>, t: TableName)
    requires Legal(INITIAL, run)
    ensures OrderedThroughout(INITIAL, run, t) <==> Prompt(INITIAL, run, t)
  {
    InitialInv();
    OrderedIff(INITIAL, run, t);
  }

  // ----- the marked batches, one after the other -----

  function RowTimes(rows: seq<StoredSample>): (times: seq<real>)
    ensures |times| == |rows|
  {
    Map(rows, (r: StoredSample) => r.ts)
  }

  /** Timestamps marked by a run, batch after batch. */
  ghost function MarkedTimes(s: State, run: seq<Action>, t: TableName): seq<real>
    requires Legal(s, run)
    decreases |run|
  {
    if run == [] then []
    else (if Marks(run[0], t) then RowTimes(s.batch.Get(t)) else []) + MarkedTimes(Step(s, run[0]), run[1..], t)
  }

  ghost predicate Ascending(xs: seq<real>) {
    forall i, j :: 0 <= i < j < |xs| ==> xs[i] <= xs[j]
  }

  ghost predicate FloorOf(t: Table, xs: seq<real>) {
    forall x :: x in xs ==> NotBeforePushed(t, x)
  }

  /** No UPDATE marks a row older than one already pushed. */
  ghost predicate MarksForward(s: State, run: seq<Action>, t: TableName)
    requires Legal(s, run)
    decreases |run|
  {
    run == [] ||
    ((Marks(run[0], t) ==> FloorOf(s.db.Get(t), RowTimes(s.batch.Get(t)))) &&
      MarksForward(Step(s, run[0]), run[1..], t))
  }

  ghost predicate AllBefore(xs: seq<real>, ys: seq<real>) {
    forall x, y :: x in xs && y in ys ==> x <= y
  }

  lemma AscendingAppend(xs: seq<real>, ys: seq<real>)
    ensures Ascending(xs + ys) <==> Ascending(xs) && Ascending(ys) && AllBefore(xs, ys)
  {
    var all := xs + ys;
    if Ascending(all) {
      assert forall i :: 0 <= i < |xs| ==> xs[i] == all[i];
      assert forall j :: 0 <= j < |ys| ==> ys[j] == all[|xs| + j];
      forall x, y | x in xs && y in ys ensures x <= y {
        var i :| 0 <= i < |xs| && xs[i] == x;
        var j :| 0 <= j < |ys| && ys[j] == y;
        assert all[i] <= all[|xs| + j];
      }
    }
    if Ascending(xs) && Ascending(ys) && AllBefore(xs, ys) {
      forall i, j | 0 <= i < j < |all| ensures all[i] <= all[j] {
        if i < |xs| <= j {
          assert xs[i] in xs && ys[j - |xs|] in ys;
        }
      }
    }
  }

  /** After an UPDATE the pushed rows are those from before and those of the batch. */
  lemma PushedByMark(t: Table, rows: seq<StoredSample>, now: real, y: real)
    requires Holds(t, rows)
    ensures NotBeforePushed(MarkRows(t, IdsOf(rows), now), y) <==>
      NotBeforePushed(t, y) && forall x :: x in RowTimes(rows) ==> x <= y
  {
    var t', ids := MarkRows(t, IdsOf(rows), now), IdsOf(rows);
    if NotBeforePushed(t', y) {
      forall i | 0 <= i < |t| && t[i].pushedAt.Some? ensures t[i].ts <= y {
        assert t'[i].pushedAt.Some?;
      }
      forall x | x in RowTimes(rows) ensures x <= y {
        var k :| 0 <= k < |rows| && rows[k].ts == x;
        assert ids[k] in ids && t'[ids[k]].pushedAt.Some?;
      }
    }
    if NotBeforePushed(t, y) && forall x :: x in RowTimes(rows) ==> x <= y {
      forall i | 0 <= i < |t'| && t'[i].pushedAt.Some? ensures t'[i].ts <= y {
        if i in ids {
          var k :| 0 <= k < |ids| && ids[k] == i;
          assert RowTimes(rows)[k] in RowTimes(rows);
        }
      }
    }
  }

  lemma FloorByMark(t: Table, rows: seq<StoredSample>, now: real, ys: seq<real>)
    requires Holds(t, rows)
    ensures FloorOf(MarkRows(t, IdsOf(rows), now), ys) <==> FloorOf(t, ys) && AllBefore(RowTimes(rows), ys)
  {
    forall y {
      PushedByMark(t, rows, now, y);
    }
  }

  lemma FloorAppend(t: Table, xs: seq<real>, ys: seq<real>)
    ensures FloorOf(t, xs + ys) <==> FloorOf(t, xs) && FloorOf(t, ys)
  {
  }

  lemma InsertKeepsFloor(t: Table, ts: real, payload: Payload, ys: seq<real>)
    ensures FloorOf(InsertRow(t, ts, payload), ys) <==> FloorOf(t, ys)
  {
    var t' := InsertRow(t, ts, payload);
    assert forall i :: 0 <= i < |t| ==> t'[i] == t[i];
    forall y ensures NotBeforePushed(t', y) <==> NotBeforePushed(t, y) {
      if NotBeforePushed(t', y) {
        forall i | 0 <= i < |t| && t[i].pushedAt.Some? ensures t[i].ts <= y {
          assert t'[i].pushedAt.Some?;
        }
      }
    }
  }

  /** An UPDATE puts its batch in front of what is marked later. */
  lemma MarkInFront(t: Table, rows: seq<StoredSample>, now: real, later: seq<real>)
    requires Holds(t, rows)
    ensures Ascending(RowTimes(rows) + later) && FloorOf(t, RowTimes(rows) + later) <==>
      FloorOf(t, RowTimes(rows)) && Ascending(later) && FloorOf(MarkRows(t, IdsOf(rows), now), later)
  {
    AscendingAppend(RowTimes(rows), later);
    FloorAppend(t, RowTimes(rows), later);
    FloorByMark(t, rows, now, later);
  }

  lemma FloorStays(s: State, a: Action, t: TableName, later: seq<real>)
    requires Enabled(s, a) && !Marks(a, t)
    ensures FloorOf(Step(s, a).db.Get(t), later) <==> FloorOf(s.db.Get(t), later)
  {
    if InsertsInto(a, t) {
      InsertKeepsFloor(s.db.Get(t), a.ts, a.payload, later);
    } else {
      assert Step(s, a).db.Get(t) == s.db.Get(t);
    }
  }

  /** What the next step contributes to the order of the marked batches. */
  lemma MarkedStep(s: State, a: Action, t: TableName, later: seq<real>)
    requires TableInv(s, t) && Enabled(s, a)
    ensures var xs := if Marks(a, t) then RowTimes(s.batch.Get(t)) else [];
      Ascending(xs + later) && FloorOf(s.db.Get(t), xs + later) <==>
      FloorOf(s.db.Get(t), xs) && Ascending(later) && FloorOf(Step(s, a).db.Get(t), later)
  {
    if Marks(a, t) {
      MarkInFront(s.db.Get(t), s.batch.Get(t), a.now, later);
    } else {
      assert [] + later == later;
      FloorStays(s, a, t, later);
    }
  }

  lemma {:induction false} AscendingIff(s: State, run: seq<Action>, t: TableName)
    requires Inv(s) && Legal(s, run)
    ensures Ascending(MarkedTimes(s, run, t)) && FloorOf(s.db.Get(t), MarkedTimes(s, run, t)) <==>
      MarksForward(s, run, t)
    decreases |run|
  {
    if run != [] {
      StepInv(s, run[0]);
      AscendingIff(Step(s, run[0]), run[1..], t);
      assert TableInv(s, t);
      MarkedStep(s, run[0], t, MarkedTimes(Step(s, run[0]), run[1..], t));
    }
  }

  /** The marked batches of a run, put one after the other, ascend if and only if no UPDATE
      marks a row older than one already pushed. */
  lemma MarkedAscendIff(run: seq<Action>, t: TableName)
    requires Legal(INITIAL, run)
    ensures Ascending(MarkedTimes(INITIAL, run, t)) <==> MarksForward(INITIAL, run, t)
  {
    InitialInv();
    AscendingIff(INITIAL, run, t);
  }

  lemma {:induction false} OrderedMarksForward(s: State, run: seq<Action>, t: TableName)
    requires Inv(s) && Legal(s, run) && OrderedThroughout(s, run, t)
    ensures MarksForward(s, run, t)
    decreases |run|
  {
    if run != [] {
      StepInv(s, run[0]);
      OrderedMarksForward(Step(s, run[0]), run[1..], t);
      if Marks(run[0], t) {
        assert TableInv(s, t);
        WaitingAreLater(s.db.Get(t), s.batch.Get(t));
      }
    }
  }

  lemma WaitingAreLater(t: Table, rows: seq<StoredSample>)
    requires Holds(t, rows) && Ordered(t)
    ensures FloorOf(t, RowTimes(rows))
  {
    forall x | x in RowTimes(rows) ensures NotBeforePushed(t, x) {
      var k :| 0 <= k < |rows| && rows[k].ts == x;
      assert t[IdsOf(rows)[k]].ts == x && t[IdsOf(rows)[k]].pushedAt.None?;
    }
  }

  /** Prompt inserts are enough for both orders. */
  lemma ReplayOrder(run: seq<Action>, t: TableName)
    requires Legal(INITIAL, run) && Prompt(INITIAL, run, t)
    ensures OrderedThroughout(INITIAL, run, t) && Ascending(MarkedTimes(INITIAL, run, t))
  {
    ReplayOrderIff(run, t);
    InitialInv();
    OrderedMarksForward(INITIAL, run, t);
    MarkedAscendIff(run, t);
  }

  // ----- a clock that does not go back -----

  ghost predicate Newest(t: Table, ts: real) {
    forall i :: 0 <= i < |t| ==> t[i].ts <= ts
  }

  /** Every insert into the table is at least as late as all rows before it. */
  ghost predicate ClockForward(s: State, run: seq<Action>, t: TableName)
    requires Legal(s, run)
    decreases |run|
  {
    run == [] ||
    ((InsertsInto(run[0], t) ==> Newest(s.db.Get(t), run[0].ts)) && ClockForward(Step(s, run[0]), run[1..], t))
  }

  lemma NewestNotBehind(t: Table, rows: seq<StoredSample>, ts: real)
    requires Newest(t, ts) && Holds(t, rows)
    ensures NotBehind(rows, ts)
  {
    forall r | r in rows ensures r.ts <= ts {
      var k :| 0 <= k < |rows| && rows[k] == r;
      assert t[IdsOf(rows)[k]].ts == r.ts;
    }
  }

  lemma {:induction false} ForwardIsPrompt(s: State, run: seq<Action>, t: TableName)
    requires Inv(s) && Legal(s, run) && ClockForward(s, run, t)
    ensures Prompt(s, run, t)
    decreases |run|
  {
    if run != [] {
      if InsertsInto(run[0], t) && Pending(s.stage, t) {
        assert TableInv(s, t);
        NewestNotBehind(s.db.Get(t), s.batch.Get(t), run[0].ts);
      }
      StepInv(s, run[0]);
      ForwardIsPrompt(Step(s, run[0]), run[1..], t);
    }
  }

  /** With a clock that does not go back, every run from an empty database replays in order,
      and so do the millisecond timestamps. */
  lemma ReplayInOrder(run: seq<Action>, t: TableName)
    requires Legal(INITIAL, run) && ClockForward(INITIAL, run, t)
    ensures OrderedThroughout(INITIAL, run, t) && Ascending(MarkedTimes(INITIAL, run, t))
    ensures var ms := Map(MarkedTimes(INITIAL, run, t), Millis); forall i, j :: 0 <= i < j < |ms| ==> ms[i] <= ms[j]
  {
    InitialInv();
    ForwardIsPrompt(INITIAL, run, t);
    ReplayOrder(run, t);
    MillisAscending(MarkedTimes(INITIAL, run, t));
  }

  lemma MillisAscending(xs: seq<real>)
    requires Ascending(xs)
    ensures var ms := Map(xs, Millis); forall i, j :: 0 <= i < j < |ms| ==> ms[i] <= ms[j]
  {
    forall i, j | 0 <= i < j < |xs| ensures Millis(xs[i]) <= Millis(xs[j]) {
      MillisMonotone(xs[i], xs[j]);
    }
  }
}
