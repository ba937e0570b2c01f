/** A run in which the clock is set back: what an insert that is not prompt does to replay order. */
module LateInsert {
  import opened Options
  import opened Seqs
  import opened Metrics
  import opened Rows
  import opened Table
  import opened Delivery
  import opened Protocol
  import opened Replay

  const EMPTY_PAYLOAD: Payload := Modem(ModemPayload(map[], None, None, None, None, None))

  /** The row with `ts` 5 arrives while the row with `ts` 10 is aboard, its POST accepted. */
  const LATE_INSERT: seq<Action> :=
    [Insert(ModemTable, 10.0, EMPTY_PAYLOAD)] + ToPost(0) + [Insert(ModemTable, 5.0, EMPTY_PAYLOAD)]

  /** Then the cycle completes, and the next one takes the late row up to its UPDATE. */
  const LATE_CYCLE: seq<Action> := LATE_INSERT + ToSleep() + ToPost(1)

  function ToPost(id: Id): seq<Action> {
    [Select(ModemTable, [id]), Select(ProbeTable, []), Select(MtrTable, []), Post(Accepted)]
  }

  function ToSleep(): seq<Action> {
    [Mark(ModemTable, 11.0), Mark(ProbeTable, 11.0), Mark(MtrTable, 11.0), Heartbeat(Accepted, 11000)]
  }

  lemma ThreeMore<T>(xs: seq<T>, a: T, b: T, c: T)
    ensures xs + [a] + [b] + [c] == xs + [a, b, c]
  {
  }

  lemma LeadsThen4(s: State, run: seq<Action>, mid: State, a: Action, b: Action, c: Action, d: Action)
    requires Leads(s, run, mid) && Enabled(mid, a) && Enabled(Step(mid, a), b) && Enabled(Step(Step(mid, a), b), c)
    requires Enabled(Step(Step(Step(mid, a), b), c), d) && Crash !in [a, b, c, d]
    ensures Leads(s, run + [a, b, c, d], Step(Step(Step(Step(mid, a), b), c), d))
  {
    assert [a, b, c, d][0] != Crash && [a, b, c, d][1] != Crash && [a, b, c, d][2] != Crash && [a, b, c, d][3] != Crash;
    LeadsThen(s, run, mid, a);
    LeadsThen(s, run + [a], Step(mid, a), b);
    LeadsThen(s, run + [a] + [b], Step(Step(mid, a), b), c);
    LeadsThen(s, run + [a] + [b] + [c], Step(Step(Step(mid, a), b), c), d);
    ThreeMore(run, a, b, c);
    Associative(run, [a, b, c], [d]);
    assert [a, b, c] + [d] == [a, b, c, d];
  }

  ghost predicate OnlyWaiting(t: Table, id: Id) {
    id < |t| && forall i :: 0 <= i < |t| ==> (t[i].pushedAt.None? <==> i == id)
  }

  lemma SelectsIt(t: Table, id: Id)
    requires OnlyWaiting(t, id)
    ensures IsSelection(t, [id]) && Fetch(t, [id]) == [Stored(t, id)]
  {
    assert Unpushed(t) == {id};
  }

  lemma SelectsNothing()
    ensures IsSelection([], []) && Fetch([], []) == []
  {
    assert Unpushed([]) == {};
  }

  ghost predicate Asleep(s: State) {
    s.stage == Idle && s.batch == NO_BATCH && s.db.probe == [] && s.db.mtr == []
  }

  lemma FirstSelect(s: State, id: Id)
    requires Asleep(s) && OnlyWaiting(s.db.modem, id)
    ensures Enabled(s, Select(ModemTable, [id]))
    ensures Step(s, Select(ModemTable, [id])) ==
      s.(stage := Selecting(ProbeTable), batch := Triple([Stored(s.db.modem, id)], [], []))
  {
    SelectsIt(s.db.modem, id);
    assert s.db.Get(ModemTable) == s.db.modem;
  }

  lemma EmptySelect(s: State, t: TableName)
    requires s.stage == Selecting(t) && t != ModemTable && s.db.Get(t) == [] && s.batch.Get(t) == []
    ensures Enabled(s, Select(t, [])) && Step(s, Select(t, [])) == s.(stage := AfterSelect(t, s.batch))
  {
    SelectsNothing();
    assert s.batch.Set(t, []) == s.batch;
  }

  lemma AcceptedPost(s: State)
    requires s.stage == Ready
    ensures Enabled(s, Post(Accepted))
    ensures Step(s, Post(Accepted)) == s.(stage := Marking(ModemTable), remote := s.remote + Carried(s.batch))
  {
  }

  lemma UpToReady(run: seq<Action>, s: State, id: Id) returns (s': State)
    requires Leads(INITIAL, run, s) && Asleep(s) && OnlyWaiting(s.db.modem, id)
    ensures Leads(INITIAL, run + [Select(ModemTable, [id]), Select(ProbeTable, []), Select(MtrTable, [])], s')
    ensures s'.stage == Ready && s'.db == s.db && s'.batch == Triple([Stored(s.db.modem, id)], [], [])
  {
    var a, b, c := Select(ModemTable, [id]), Select(ProbeTable, []), Select(MtrTable, []);
    FirstSelect(s, id);
    LeadsThen(INITIAL, run, s, a);
    var s1 := Step(s, a);
    EmptySelect(s1, ProbeTable);
    LeadsThen(INITIAL, run + [a], s1, b);
    var s2 := Step(s1, b);
    EmptySelect(s2, MtrTable);
    LeadsThen(INITIAL, run + [a] + [b], s2, c);
    s' := Step(s2, c);
    ThreeMore(run, a, b, c);
  }

  lemma UpToPost(run: seq<Action>, s: State, id: Id) returns (s': State)
    requires Leads(INITIAL, run, s) && Asleep(s) && OnlyWaiting(s.db.modem, id)
    ensures Leads(INITIAL, run + ToPost(id), s') && s'.stage == Marking(ModemTable)
    ensures s'.db == s.db && s'.batch == Triple([Stored(s.db.modem, id)], [], [])
  {
    var selects := [Select(ModemTable, [id]), Select(ProbeTable, []), Select(MtrTable, [])];
    var ready := UpToReady(run, s, id);
    AcceptedPost(ready);
    LeadsThen(INITIAL, run + selects, ready, Post(Accepted));
    s' := Step(ready, Post(Accepted));
    Associative(run, selects, [Post(Accepted)]);
    assert selects + [Post(Accepted)] == ToPost(id);
  }

  lemma MarkOf(s: State, t: TableName, now: real)
    requires s.stage == Marking(t)
    ensures Enabled(s, Mark(t, now)) && Step(s, Mark(t, now)) ==
      s.(db := s.db.Set(t, MarkRows(s.db.Get(t), IdsOf(s.batch.Get(t)), now)), stage := AfterMark(t, s.batch))
  {
  }

  lemma EmptyMark(s: State, t: TableName, now: real)
    requires s.stage == Marking(t) && s.db.Get(t) == []
    ensures Enabled(s, Mark(t, now)) && Step(s, Mark(t, now)) == s.(stage := AfterMark(t, s.batch))
  {
    MarkOf(s, t, now);
    assert MarkRows([], IdsOf(s.batch.Get(t)), now) == [];
    assert s.db.Set(t, []) == s.db;
  }

  /** The cycle completes. */
  lemma UpToSleep(run: seq<Action>, s: State) returns (s': State)
    requires Leads(INITIAL, run, s) && s.stage == Marking(ModemTable) && s.db.probe == [] && s.db.mtr == []
    ensures Leads(INITIAL, run + ToSleep(), s') && Asleep(s')
    ensures s'.db.modem == MarkRows(s.db.modem, IdsOf(s.batch.modem), 11.0)
  {
    MarkOf(s, ModemTable, 11.0);
    var db := s.db.(modem := MarkRows(s.db.modem, IdsOf(s.batch.modem), 11.0));
    var s1 := s.(db := db, stage := Marking(ProbeTable));
    var s2 := s1.(stage := Marking(MtrTable));
    var s3 := s1.(stage := AfterMark(MtrTable, s.batch));
    EmptyMark(s1, ProbeTable, 11.0);
    EmptyMark(s2, MtrTable, 11.0);
    LeadsThen4(INITIAL, run, s, Mark(ModemTable, 11.0), Mark(ProbeTable, 11.0), Mark(MtrTable, 11.0),
               Heartbeat(Accepted, 11000));
    s' := Step(s3, Heartbeat(Accepted, 11000));
  }

  // ----- the run -----

  const FIRST: Row := Row(10.0, EMPTY_PAYLOAD, None)
  const LATE: Row := Row(5.0, EMPTY_PAYLOAD, None)

  lemma LeadsInsert(run: seq<Action>, s: State, ts: real) returns (s': State)
    requires Leads(INITIAL, run, s)
    ensures Leads(INITIAL, run + [Insert(ModemTable, ts, EMPTY_PAYLOAD)], s')
    ensures s' == s.(db := s.db.(modem := InsertRow(s.db.modem, ts, EMPTY_PAYLOAD)))
  {
    LeadsThen(INITIAL, run, s, Insert(ModemTable, ts, EMPTY_PAYLOAD));
    s' := Step(s, Insert(ModemTable, ts, EMPTY_PAYLOAD));
  }

  /** The state after the late insert: nothing is pushed yet, so the insert is not older than a
      pushed row, only than a row aboard. */
  lemma AfterLateInsert() returns (s: State)
    ensures Leads(INITIAL, LATE_INSERT, s) && s.stage == Marking(ModemTable)
    ensures s.db == Triple([FIRST, LATE], [], []) && s.batch == Triple([Stored([FIRST], 0)], [], [])
  {
    var first := Insert(ModemTable, 10.0, EMPTY_PAYLOAD);
    var late := Insert(ModemTable, 5.0, EMPTY_PAYLOAD);
    var s1 := LeadsInsert([], INITIAL, 10.0);
    assert [] + [first] == [first];
    var s2 := UpToPost([first], s1, 0);
    s := LeadsInsert([first] + ToPost(0), s2, 5.0);
    assert InsertRow([], 10.0, EMPTY_PAYLOAD) == [FIRST] && InsertRow([FIRST], 5.0, EMPTY_PAYLOAD) == [FIRST, LATE];
  }

  /** Every insert is at least as late as the pushed rows at its time, and still the first
      UPDATE pushes a row that is younger than one left waiting. */
  lemma LateInsertBreaksOrder()
    ensures var run := LATE_INSERT + [Mark(ModemTable, 11.0)];
      && Legal(INITIAL, LATE_INSERT) && Ordered(Run(INITIAL, LATE_INSERT).db.modem)
      && Legal(INITIAL, run) && !Ordered(Run(INITIAL, run).db.modem)
  {
    var s := AfterLateInsert();
    MarkOf(s, ModemTable, 11.0);
    LeadsThen(INITIAL, LATE_INSERT, s, Mark(ModemTable, 11.0));
    MarkedPair();
  }

  lemma MarkedPair()
    ensures var t := MarkRows([FIRST, LATE], IdsOf([Stored([FIRST], 0)]), 11.0);
      t == [FIRST.(pushedAt := Some(11.0)), LATE] && OnlyWaiting(t, 1) && !Ordered(t)
  {
    var rows := [Stored([FIRST], 0)];
    var t := MarkRows([FIRST, LATE], IdsOf(rows), 11.0);
    assert IdsOf(rows) == [0];
    assert 0 in IdsOf(rows) && 1 !in IdsOf(rows);
    assert t[0].pushedAt.Some? && t[1].pushedAt.None? && t[0].ts > t[1].ts;
  }

  lemma {:induction false} LastMark(s: State, run: seq<Action>, a: Action, t: TableName)
    requires Legal(s, run + [a]) && Legal(s, run) && Marks(a, t) && MarksForward(s, run + [a], t)
    ensures FloorOf(Run(s, run).db.Get(t), RowTimes(Run(s, run).batch.Get(t)))
    decreases |run|
  {
    if run == [] {
      assert run + [a] == [a];
    } else {
      assert (run + [a])[0] == run[0] && (run + [a])[1..] == run[1..] + [a];
      LastMark(Step(s, run[0]), run[1..], a, t);
    }
  }

  /** And once the late row is marked, the marked batches no longer ascend. */
  lemma LateRowBreaksReplay()
    ensures var run := LATE_CYCLE + [Mark(ModemTable, 12.0)];
      Legal(INITIAL, run) && !Ascending(MarkedTimes(INITIAL, run, ModemTable))
  {
    var s := AfterLateInsert();
    var run1 := LATE_INSERT + ToSleep();
    var s1 := UpToSleep(LATE_INSERT, s);
    MarkedPair();
    var s2 := UpToPost(run1, s1, 1);
    var last := Mark(ModemTable, 12.0);
    LeadsThen(INITIAL, LATE_CYCLE, s2, last);
    MarkedAscendIff(LATE_CYCLE + [last], ModemTable);
    var table := s2.db.Get(ModemTable);
    assert table[0].pushedAt.Some? && table[0].ts == 10.0;
    assert RowTimes(s2.batch.Get(ModemTable))[0] == 5.0;
    assert 5.0 in RowTimes(s2.batch.Get(ModemTable)) && !NotBeforePushed(table, 5.0);
    if MarksForward(INITIAL, LATE_CYCLE + [last], ModemTable) {
      LastMark(INITIAL, LATE_CYCLE, last, ModemTable);
      assert false;
    }
  }
}
