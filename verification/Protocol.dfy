/** The delivery protocol as a transition system: the loops that insert rows, the one push
    worker at every position of its cycle, the remote, and faults between any two statements. */
module Protocol {
  import opened Options
  import opened Model
  import opened Seqs
  import opened Rows
  import opened Table
  import opened Delivery

  /** Where the push worker stands. `Selecting(t)` and `Marking(t)`: the statement on `t` is
      next; `Ready`: all three selects done; `Drained(n)`: `push_unpushed` returned n and the
      heartbeat is next; `Failing`: an exception is on its way to the loop's handler. */
  datatype Stage = Idle | Selecting(next: TableName) | Ready | Marking(next: TableName) | Drained(count: nat) | Failing

  datatype State = State(db: Triple<Table>, remote: Remote, stage: Stage, batch: Batch, failures: nat)

  datatype Outcome =
    | Accepted // the remote took the samples and the client knows
    | Refused  // the remote took nothing and the client sees an error
    | Lost     // the remote took the samples but the client sees an error

  datatype Action =
    | Insert(table: TableName, ts: real, payload: Payload)
    | Select(table: TableName, ids: seq<Id>)
    | Post(outcome: Outcome)
    | Mark(table: TableName, now: real)
    | Heartbeat(outcome: Outcome, nowMs: int)
    | Abort // an exception out of any other statement of the cycle
    | Handle // the loop's exception handler
    | Crash // the process dies and is started again

  predicate Fits(name: TableName, payload: Payload) {
    match name
    case ModemTable => payload.Modem?
    case ProbeTable => payload.Probe?
    case MtrTable => payload.Mtr?
  }

  const NO_BATCH: Batch := Triple([], [], [])

  function HeartbeatPoint(nowMs: int): RowPoint {
    Series.Point([Label("__name__", "knausen_collector_heartbeat")], Sample(1.0, nowMs))
  }

  /** A POST is only made for a non-empty list of series, so nothing can go wrong without one. */
  ghost predicate Enabled(s: State, a: Action) {
    match a
    case Insert(t, _, payload) => Fits(t, payload)
    case Select(t, ids) =>
      (if t == ModemTable then s.stage == Idle else s.stage == Selecting(t)) && IsSelection(s.db.Get(t), ids)
    case Post(outcome) => s.stage == Ready && (outcome == Accepted || SeriesOf(s.batch) != [])
    case Mark(t, _) => s.stage == Marking(t)
    case Heartbeat(_, _) => s.stage.Drained?
    case Abort => s.stage != Failing
    case Handle => s.stage == Failing
    case Crash => true
  }

  function Fail(s: State): State {
    s.(stage := Failing, batch := NO_BATCH)
  }

  function AfterSelect(t: TableName, batch: Batch): Stage {
    match t
    case ModemTable => Selecting(ProbeTable)
    case ProbeTable => Selecting(MtrTable)
    case MtrTable => if batch == NO_BATCH then Drained(0) else Ready
  }

  function AfterMark(t: TableName, batch: Batch): Stage {
    match t
    case ModemTable => Marking(ProbeTable)
    case ProbeTable => Marking(MtrTable)
    case MtrTable => Drained(|batch.modem| + |batch.probe| + |batch.mtr|)
  }

  ghost function Step(s: State, a: Action): State
    requires Enabled(s, a)
  {
    match a
    case Insert(t, ts, payload) => s.(db := s.db.Set(t, InsertRow(s.db.Get(t), ts, payload)))
    case Select(t, ids) =>
      var batch := s.batch.Set(t, Fetch(s.db.Get(t), ids));
      s.(batch := batch, stage := AfterSelect(t, batch))
    case Post(Accepted) => s.(remote := s.remote + Carried(s.batch), stage := Marking(ModemTable))
    case Post(Refused) => Fail(s)
    case Post(Lost) => Fail(s.(remote := s.remote + Carried(s.batch)))
    case Mark(t, now) =>
      var marked := MarkRows(s.db.Get(t), IdsOf(s.batch.Get(t)), now);
      s.(db := s.db.Set(t, marked), stage := AfterMark(t, s.batch))
    case Heartbeat(outcome, nowMs) =>
      var remote := if outcome == Refused then s.remote else s.remote + multiset{HeartbeatPoint(nowMs)};
      if outcome == Accepted then State(s.db, remote, Idle, NO_BATCH, 0) else Fail(s.(remote := remote))
    case Abort => Fail(s)
    case Handle => s.(stage := Idle, failures := s.failures + 1)
    case Crash => s.(stage := Idle, batch := NO_BATCH, failures := 0)
  }

  /** A run: the actions can happen one after the other from `s`. */
  ghost predicate Legal(s: State, run: seq<Action>)
    decreases |run|
  {
    run == [] || (Enabled(s, run[0]) && Legal(Step(s, run[0]), run[1..]))
  }

  ghost function Run(s: State, run: seq<Action>): State
    requires Legal(s, run)
    decreases |run|
  {
    if run == [] then s else Run(Step(s, run[0]), run[1..])
  }

  predicate InsertsInto(a: Action, t: TableName) {
    a.Insert? && a.table == t
  }

  predicate Marks(a: Action, t: TableName) {
    a.Mark? && a.table == t
  }

  const INITIAL: State := State(Triple([], [], []), multiset{}, Idle, NO_BATCH, 0)

  /** What the environment may do: rows arrive and the process dies at any moment, an exception can
      end the cycle anywhere, and a POST can have any of its three outcomes. */
  lemma AnyMoment(s: State, t: TableName, ts: real, payload: Payload)
    ensures Fits(t, payload) ==>
      && Enabled(s, Insert(t, ts, payload))
      && Step(s, Insert(t, ts, payload)) == s.(db := s.db.Set(t, s.db.Get(t) + [Row(ts, payload, None)]))
    ensures Enabled(s, Crash) && Step(s, Crash) == State(s.db, s.remote, Idle, Triple([], [], []), 0)
    ensures s.stage != Failing ==>
      Enabled(s, Abort) && Step(s, Abort) == State(s.db, s.remote, Failing, Triple([], [], []), s.failures)
    ensures s.stage == Failing ==>
      Enabled(s, Handle) && Step(s, Handle) == State(s.db, s.remote, Idle, s.batch, s.failures + 1)
  {
  }

  /** An accepted POST leaves the batch's samples at the remote and leads on to the UPDATEs; a refused
      one leaves nothing; a lost one leaves the samples, but to the worker it has failed. */
  lemma PostOutcomes(s: State)
    requires s.stage == Ready && SeriesOf(s.batch) != []
    ensures Enabled(s, Post(Accepted)) && Enabled(s, Post(Refused)) && Enabled(s, Post(Lost))
    ensures Step(s, Post(Accepted)) ==
      State(s.db, s.remote + Carried(s.batch), Marking(ModemTable), s.batch, s.failures)
    ensures Step(s, Post(Refused)) == State(s.db, s.remote, Failing, Triple([], [], []), s.failures)
    ensures Step(s, Post(Lost)) == State(s.db, s.remote + Carried(s.batch), Failing, Triple([], [], []), s.failures)
  {
  }

  // ----- the invariant -----

  function Rank(t: TableName): nat {
    match t case ModemTable => 0 case ProbeTable => 1 case MtrTable => 2
  }

  /** The table has been selected in the cycle under way and not yet marked. */
  predicate Pending(stage: Stage, t: TableName) {
    match stage
    case Idle => false
    case Selecting(next) => Rank(t) < Rank(next)
    case Ready => true
    case Marking(next) => Rank(t) >= Rank(next)
    case Drained(_) => false
    case Failing => false
  }

  ghost predicate Aboard(s: State, t: TableName, id: Id) {
    Pending(s.stage, t) && id in IdsOf(s.batch.Get(t))
  }

  /** The batch of a pending table is a sorted list of distinct rows of that table, none of
      them pushed. */
  ghost predicate Holds(t: Table, rows: seq<StoredSample>) {
    var ids := IdsOf(rows);
    && (forall i :: 0 <= i < |ids| ==> 0 <= ids[i] < |t| && t[ids[i]].pushedAt.None? && rows[i] == Stored(t, ids[i]))
    && Distinct(ids)
    && (forall i, j :: 0 <= i < j < |rows| ==> rows[i].ts <= rows[j].ts)
    && |rows| <= BATCH_SIZE
  }

  ghost predicate Typed(name: TableName, t: Table) {
    forall i :: 0 <= i < |t| ==> Fits(name, t[i].payload)
  }

  /** Nothing is marked that the remote has not accepted. */
  ghost predicate Safe(t: Table, remote: Remote) {
    forall i :: 0 <= i < |t| && t[i].pushedAt.Some? ==> Delivered(remote, Stored(t, i))
  }

  ghost predicate TableInv(s: State, t: TableName) {
    && Typed(t, s.db.Get(t))
    && Safe(s.db.Get(t), s.remote)
    && (Pending(s.stage, t) ==> Holds(s.db.Get(t), s.batch.Get(t)))
    && (Pending(s.stage, t) && s.stage.Marking? ==> forall r :: r in s.batch.Get(t) ==> Delivered(s.remote, r))
    && (s.stage.Idle? || s.stage.Failing? || (s.stage.Selecting? && !Pending(s.stage, t)) ==> s.batch.Get(t) == [])
  }

  ghost predicate Inv(s: State) {
    (forall t :: TableInv(s, t)) && s.stage != Selecting(ModemTable)
  }

  // ----- every step keeps it -----

  lemma FetchHolds(t: Table, ids: seq<Id>)
    requires IsSelection(t, ids)
    ensures Holds(t, Fetch(t, ids)) && IdsOf(Fetch(t, ids)) == ids
  {
  }

  lemma HoldsInsert(t: Table, rows: seq<StoredSample>, ts: real, payload: Payload)
    requires Holds(t, rows)
    ensures Holds(InsertRow(t, ts, payload), rows)
  {
  }

  lemma InsertInv(s: State, name: TableName, ts: real, payload: Payload, t: TableName)
    requires TableInv(s, t) && Fits(name, payload)
    ensures TableInv(Step(s, Insert(name, ts, payload)), t)
  {
    if Pending(s.stage, t) {
      HoldsInsert(s.db.Get(t), s.batch.Get(t), ts, payload);
    }
    if t == name {
      SafeInsert(s.db.Get(t), s.remote, ts, payload);
    }
  }

  lemma SafeInsert(t: Table, remote: Remote, ts: real, payload: Payload)
    requires Safe(t, remote)
    ensures Safe(InsertRow(t, ts, payload), remote)
  {
    var t' := InsertRow(t, ts, payload);
    forall i | 0 <= i < |t'| && t'[i].pushedAt.Some? ensures Delivered(remote, Stored(t', i)) {
      assert Stored(t', i) == Stored(t, i);
    }
  }

  lemma SelectInv(s: State, name: TableName, ids: seq<Id>, t: TableName)
    requires TableInv(s, t) && Enabled(s, Select(name, ids)) && s.stage != Selecting(ModemTable)
    ensures TableInv(Step(s, Select(name, ids)), t)
  {
    FetchHolds(s.db.Get(name), ids);
  }

  lemma SafeMonotone(t: Table, remote: Remote, more: Remote)
    requires Safe(t, remote)
    ensures Safe(t, remote + more)
  {
    forall i | 0 <= i < |t| && t[i].pushedAt.Some? ensures Delivered(remote + more, Stored(t, i)) {
      DeliveredMonotone(remote, more, Stored(t, i));
    }
  }

  lemma PostInv(s: State, outcome: Outcome, t: TableName)
    requires TableInv(s, t) && Enabled(s, Post(outcome))
    ensures TableInv(Step(s, Post(outcome)), t)
  {
    SafeMonotone(s.db.Get(t), s.remote, Carried(s.batch));
    if outcome == Accepted {
      forall r | r in s.batch.Get(t) ensures Delivered(s.remote + Carried(s.batch), r) {
        CarriedRow(s.batch, t, r);
        DeliveredLate(s.remote, Carried(s.batch), r);
      }
    }
  }

  lemma MarkSafe(t: Table, rows: seq<StoredSample>, remote: Remote, now: real)
    requires Safe(t, remote) && Holds(t, rows)
    requires forall r :: r in rows ==> Delivered(remote, r)
    ensures Safe(MarkRows(t, IdsOf(rows), now), remote)
  {
    var t' := MarkRows(t, IdsOf(rows), now);
    forall i | 0 <= i < |t'| && t'[i].pushedAt.Some? ensures Delivered(remote, Stored(t', i)) {
      assert Stored(t', i) == Stored(t, i);
      if i in IdsOf(rows) {
        var k :| 0 <= k < |rows| && IdsOf(rows)[k] == i;
        assert rows[k] in rows;
      }
    }
  }

  lemma MarkInv(s: State, name: TableName, now: real, t: TableName)
    requires TableInv(s, t) && Enabled(s, Mark(name, now))
    ensures TableInv(Step(s, Mark(name, now)), t)
  {
    if t == name {
      MarkSafe(s.db.Get(t), s.batch.Get(t), s.remote, now);
    }
  }

  lemma HeartbeatInv(s: State, outcome: Outcome, nowMs: int, t: TableName)
    requires TableInv(s, t) && Enabled(s, Heartbeat(outcome, nowMs))
    ensures TableInv(Step(s, Heartbeat(outcome, nowMs)), t)
  {
    SafeMonotone(s.db.Get(t), s.remote, multiset{HeartbeatPoint(nowMs)});
  }

  lemma StepTableInv(s: State, a: Action, t: TableName)
    requires TableInv(s, t) && s.stage != Selecting(ModemTable) && Enabled(s, a)
    ensures TableInv(Step(s, a), t)
  {
    match a
    case Insert(name, ts, payload) => InsertInv(s, name, ts, payload, t);
    case Select(name, ids) => SelectInv(s, name, ids, t);
    case Post(outcome) => PostInv(s, outcome, t);
    case Mark(name, now) => MarkInv(s, name, now, t);
    case Heartbeat(outcome, nowMs) => HeartbeatInv(s, outcome, nowMs, t);
    case Abort =>
    case Handle =>
    case Crash =>
  }

  lemma StepInv(s: State, a: Action)
    requires Inv(s) && Enabled(s, a)
    ensures Inv(Step(s, a))
  {
    forall t ensures TableInv(Step(s, a), t) {
      assert TableInv(s, t);
      StepTableInv(s, a, t);
    }
  }

  lemma {:induction false} RunInv(s: State, run: seq<Action>)
    requires Inv(s) && Legal(s, run)
    ensures Inv(Run(s, run))
    decreases |run|
  {
    if run != [] {
      StepInv(s, run[0]);
      RunInv(Step(s, run[0]), run[1..]);
    }
  }

  lemma InitialInv()
    ensures Inv(INITIAL)
  {
  }

  /** At least once: in whatever order inserts, statements, POST outcomes and faults follow
      each other, a row with `pushed_at` set has had every one of its samples accepted. */
  lemma Safety(run: seq<Action>, t: TableName, id: Id)
    requires Legal(INITIAL, run)
    requires id < |Run(INITIAL, run).db.Get(t)| && Run(INITIAL, run).db.Get(t)[id].pushedAt.Some?
    ensures Delivered(Run(INITIAL, run).remote, Stored(Run(INITIAL, run).db.Get(t), id))
  {
    InitialInv();
    RunInv(INITIAL, run);
    assert TableInv(Run(INITIAL, run), t);
  }

  /** A table pending after a step that does not SELECT from it was pending before, with the same
      batch. */
  lemma StillPending(s: State, a: Action, t: TableName)
    requires Enabled(s, a) && !(a.Select? && a.table == t) && Pending(Step(s, a).stage, t)
    ensures Pending(s.stage, t) && Step(s, a).batch.Get(t) == s.batch.Get(t) && !Marks(a, t)
  {
  }

  // ----- runs put together -----

  lemma {:induction false} RunAppend(s: State, a: seq<Action>, b: seq<Action>)
    requires Legal(s, a) && Legal(Run(s, a), b)
    ensures Legal(s, a + b) && Run(s, a + b) == Run(Run(s, a), b)
    decreases |a|
  {
    if a == [] {
      assert a + b == b;
    } else {
      RunAppend(Step(s, a[0]), a[1..], b);
      assert (a + b)[0] == a[0] && (a + b)[1..] == a[1..] + b;
    }
  }

  lemma OneStep(s: State, a: Action)
    requires Enabled(s, a)
    ensures Legal(s, [a]) && Run(s, [a]) == Step(s, a)
  {
    var run := [a];
    assert run[1..] == [];
    assert Legal(Step(s, a), run[1..]) && Run(Step(s, a), run[1..]) == Step(s, a);
  }

  /** The run leads from `s` to `s'`, without the process dying on the way. */
  ghost predicate Leads(s: State, run: seq<Action>, s': State) {
    Legal(s, run) && Run(s, run) == s' && Crash !in run
  }

  lemma LeadsThen(s: State, run: seq<Action>, mid: State, a: Action)
    requires Leads(s, run, mid) && Enabled(mid, a) && a != Crash
    ensures Leads(s, run + [a], Step(mid, a))
  {
    OneStep(mid, a);
    RunAppend(s, run, [a]);
  }

  lemma LeadsOn(s: State, run: seq<Action>, mid: State, more: seq<Action>, s': State)
    requires Leads(s, run, mid) && Leads(mid, more, s')
    ensures Leads(s, run + more, s')
  {
    RunAppend(s, run, more);
  }
}
