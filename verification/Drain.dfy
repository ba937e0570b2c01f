/** Whole runs: how fast the backlog drains. */
module Drain {
  import opened Rows
  import opened Table
  import opened Delivery
  import opened Protocol
  import opened Accounting

  ghost function Backlog(s: State, t: TableName): nat {
    |Unpushed(s.db.Get(t))|
  }

  /** The number of UPDATEs on the table, one per cycle that gets that far. */
  ghost function MarkCount(run: seq<Action>, t: TableName): nat {
    if run == [] then 0 else (if Marks(run[0], t) then 1 else 0) + MarkCount(run[1..], t)
  }

  /** The number of rows those UPDATEs mark. */
  ghost function MarkedRows(s: State, run: seq<Action>, t: TableName): nat
    requires Legal(s, run)
    decreases |run|
  {
    if run == [] then 0
    else (if Marks(run[0], t) then |s.batch.Get(t)| else 0) + MarkedRows(Step(s, run[0]), run[1..], t)
  }

  lemma BacklogStep(s: State, a: Action, t: TableName)
    requires Inv(s) && Enabled(s, a)
    ensures Backlog(Step(s, a), t) + (if Marks(a, t) then |s.batch.Get(t)| else 0) ==
      Backlog(s, t) + (if InsertsInto(a, t) then 1 else 0)
  {
    if InsertsInto(a, t) {
      UnpushedInsert(s.db.Get(t), a.ts, a.payload);
    } else if Marks(a, t) {
      var ids := IdsOf(s.batch.Get(t));
      assert TableInv(s, t);
      MarkHeld(s.db.Get(t), s.batch.Get(t), a.now);
    } else {
      assert Step(s, a).db.Get(t) == s.db.Get(t);
    }
  }

  ghost function HeldIds(t: Table, rows: seq<StoredSample>): (ids: seq<Id>)
    requires Holds(t, rows)
    ensures |ids| == |rows| && ids == IdsOf(rows)
  {
    seq(|rows|, i requires 0 <= i < |rows| => IdsOf(rows)[i] as nat)
  }

  lemma MarkHeld(t: Table, rows: seq<StoredSample>, now: real)
    requires Holds(t, rows)
    ensures Unpushed(MarkRows(t, IdsOf(rows), now)) == Unpushed(t) - Members(HeldIds(t, rows))
    ensures |Unpushed(MarkRows(t, IdsOf(rows), now))| == |Unpushed(t)| - |rows|
  {
    UnpushedMark(t, HeldIds(t, rows), now);
  }

  /** Conservation: what waits at the end, plus what was marked, is what waited at the start,
      plus what was inserted. */
  lemma {:induction false} BacklogConserved(s: State, run: seq<Action>, t: TableName)
    requires Inv(s) && Legal(s, run)
    ensures Backlog(Run(s, run), t) + MarkedRows(s, run, t) == Backlog(s, t) + Inserts(run, t)
    decreases |run|
  {
    if run != [] {
      BacklogStep(s, run[0], t);
      StepInv(s, run[0]);
      BacklogConserved(Step(s, run[0]), run[1..], t);
    }
  }

  // ----- one cycle -----

  /** A table still pending at the end of a run without a SELECT on it was pending all along,
      with the same batch and no UPDATE. */
  lemma {:induction false} BatchStays(s: State, run: seq<Action>, t: TableName)
    requires Legal(s, run) && Pending(Run(s, run).stage, t)
    requires forall a :: a in run && a.Select? ==> a.table != t
    ensures Pending(s.stage, t) && Run(s, run).batch.Get(t) == s.batch.Get(t)
    ensures MarkedRows(s, run, t) == 0
    decreases |run|
  {
    if run != [] {
      assert run[0] in run;
      BatchStays(Step(s, run[0]), run[1..], t);
      StillPending(s, run[0], t);
    }
  }

  /** One cycle with inserts at any moment: from a table's SELECT to its UPDATE the backlog
      changes by exactly min(500, backlog at the SELECT) down and the rows inserted up. */
  lemma CycleDrop(s: State, ids: seq<Id>, run: seq<Action>, t: TableName, now: real)
    requires Inv(s) && Enabled(s, Select(t, ids)) && Legal(Step(s, Select(t, ids)), run)
    requires forall a :: a in run && a.Select? ==> a.table != t
    requires Enabled(Run(Step(s, Select(t, ids)), run), Mark(t, now))
    ensures Backlog(Step(Run(Step(s, Select(t, ids)), run), Mark(t, now)), t) ==
      Backlog(s, t) - Min(500, Backlog(s, t)) + Inserts(run, t)
  {
    var s1 := Step(s, Select(t, ids));
    StepInv(s, Select(t, ids));
    RunInv(s1, run);
    BatchStays(s1, run, t);
    BacklogConserved(s1, run, t);
    BacklogStep(Run(s1, run), Mark(t, now), t);
    assert s1.db == s.db && |s1.batch.Get(t)| == |ids|;
  }

  // ----- without inserts -----

  ghost predicate FullBatch(s: State, t: TableName) {
    Pending(s.stage, t) ==> |s.batch.Get(t)| == Min(BATCH_SIZE, Backlog(s, t))
  }

  lemma FullBatchStep(s: State, a: Action, t: TableName)
    requires Inv(s) && Enabled(s, a) && FullBatch(s, t) && !InsertsInto(a, t)
    ensures FullBatch(Step(s, a), t)
  {
    if a.Mark? && a.table == t {
    } else {
      assert Step(s, a).db.Get(t) == s.db.Get(t);
      if !(a.Select? && a.table == t) && Pending(Step(s, a).stage, t) {
        assert Pending(s.stage, t) && Step(s, a).batch.Get(t) == s.batch.Get(t);
      }
    }
  }

  /** Exact drain: however selects, failures and crashes interleave, each UPDATE on a table
      into which nothing is inserted lowers its backlog by min(500, backlog). */
  lemma {:induction false} DrainExact(s: State, run: seq<Action>, t: TableName)
    requires Inv(s) && Legal(s, run) && FullBatch(s, t)
    requires forall a :: a in run ==> !InsertsInto(a, t)
    ensures Backlog(Run(s, run), t) == Max(0, Backlog(s, t) - 500 * MarkCount(run, t))
    decreases |run|
  {
    if run != [] {
      assert run[0] in run;
      BacklogStep(s, run[0], t);
      FullBatchStep(s, run[0], t);
      StepInv(s, run[0]);
      DrainExact(Step(s, run[0]), run[1..], t);
      if Marks(run[0], t) {
        assert Pending(s.stage, t);
      }
    }
  }

  /** The run has at least ceil(backlog / 500) UPDATEs on the table. */
  ghost predicate Enough(run: seq<Action>, t: TableName, backlog: nat) {
    500 * MarkCount(run, t) >= backlog
  }

  /** A backlog of n is gone after ceil(n / 500) UPDATEs and not before. */
  lemma DrainedIff(s: State, run: seq<Action>, t: TableName)
    requires Inv(s) && Legal(s, run) && s.stage == Idle
    requires forall a :: a in run ==> !InsertsInto(a, t)
    ensures Backlog(Run(s, run), t) == 0 <==> 500 * MarkCount(run, t) >= Backlog(s, t)
  {
    DrainExact(s, run, t);
  }

  // ----- the next call returns 0 -----

  lemma IdleBatch(s: State)
    requires Inv(s) && s.stage == Idle
    ensures s.batch == NO_BATCH
  {
    assert TableInv(s, ModemTable) && TableInv(s, ProbeTable) && TableInv(s, MtrTable);
  }

  lemma EmptyBatch(s: State, ids: seq<Id>, t: TableName)
    requires Backlog(s, t) == 0 && IsSelection(s.db.Get(t), ids)
    ensures Fetch(s.db.Get(t), ids) == []
  {
  }

  /** With nothing waiting, three selects lead straight to the return of 0: no POST, no UPDATE. */
  lemma EmptyCallReturnsZero(s: State, m: seq<Id>, p: seq<Id>, r: seq<Id>)
    requires Inv(s) && s.stage == Idle && forall t :: Backlog(s, t) == 0
    requires Legal(s, [Select(ModemTable, m), Select(ProbeTable, p), Select(MtrTable, r)])
    ensures Run(s, [Select(ModemTable, m), Select(ProbeTable, p), Select(MtrTable, r)]) == s.(stage := Drained(0))
  {
    var run := [Select(ModemTable, m), Select(ProbeTable, p), Select(MtrTable, r)];
    IdleBatch(s);
    assert Backlog(s, ModemTable) == 0 && Backlog(s, ProbeTable) == 0 && Backlog(s, MtrTable) == 0;
    var s1 := Step(s, run[0]);
    assert run[1..] == [run[1], run[2]] && run[1..][1..] == [run[2]] && run[1..][1..][1..] == [];
    EmptyBatch(s, m, ModemTable);
    assert s1.batch == NO_BATCH;
    var s2 := Step(s1, run[1]);
    assert s1.db == s.db && Backlog(s1, ProbeTable) == 0;
    EmptyBatch(s1, p, ProbeTable);
    assert s2.batch == NO_BATCH;
    assert s2.db == s.db && Backlog(s2, MtrTable) == 0;
    assert Legal(s1, run[1..]) && Legal(s2, run[1..][1..]);
    assert run[1..][1..][0] == run[2];
    EmptyBatch(s2, r, MtrTable);
    var s3 := Step(s2, run[2]);
    assert s3.batch == NO_BATCH;
    assert Run(s, run) == Run(s1, run[1..]) == Run(s2, run[1..][1..]) == Run(s3, []);
  }

  // ----- the counts returned -----

  /** The value returned by the step, if it is the one that ends `push_unpushed`. */
  ghost function ReturnedBy(s: State, a: Action): nat
    requires Enabled(s, a)
  {
    if (a.Select? || a.Mark?) && Step(s, a).stage.Drained? then Step(s, a).stage.count else 0
  }

  ghost function Returned(s: State, run: seq<Action>): nat
    requires Legal(s, run)
    decreases |run|
  {
    if run == [] then 0 else ReturnedBy(s, run[0]) + Returned(Step(s, run[0]), run[1..])
  }

  /** Rows already marked in the cycle under way. */
  function MarkedSoFar(s: State): nat {
    match s.stage
    case Marking(ProbeTable) => |s.batch.modem|
    case Marking(MtrTable) => |s.batch.modem| + |s.batch.probe|
    case _ => 0
  }

  /** Rows whose mark no return value will report, because the cycle is cut off here. */
  ghost function Unreported(s: State, run: seq<Action>): nat
    requires Legal(s, run)
    decreases |run|
  {
    if run == [] then 0
    else (if run[0].Abort? || run[0].Crash? then MarkedSoFar(s) else 0) + Unreported(Step(s, run[0]), run[1..])
  }

  ghost function AllMarked(s: State, run: seq<Action>): nat
    requires Legal(s, run)
  {
    MarkedRows(s, run, ModemTable) + MarkedRows(s, run, ProbeTable) + MarkedRows(s, run, MtrTable)
  }

  lemma ReturnedStep(s: State, a: Action)
    requires Inv(s) && Enabled(s, a)
    ensures MarkedSoFar(s) + (if a.Mark? then |s.batch.Get(a.table)| else 0) ==
      ReturnedBy(s, a) + (if a.Abort? || a.Crash? then MarkedSoFar(s) else 0) + MarkedSoFar(Step(s, a))
  {
  }

  /** Every marked row is reported by exactly one return value, unless its cycle was cut off
      between two UPDATEs. */
  lemma {:induction false} ReturnedCounts(s: State, run: seq<Action>)
    requires Inv(s) && Legal(s, run)
    ensures MarkedSoFar(s) + AllMarked(s, run) == Returned(s, run) + Unreported(s, run) + MarkedSoFar(Run(s, run))
    decreases |run|
  {
    if run != [] {
      ReturnedStep(s, run[0]);
      StepInv(s, run[0]);
      ReturnedCounts(Step(s, run[0]), run[1..]);
    }
  }

  /** A drain without inserts and without a cut between two UPDATEs: once each table has had
      ceil(backlog / 500) UPDATEs all three are empty, and the returned counts add up to the
      initial backlog. */
  lemma DrainReturnsBacklog(s: State, run: seq<Action>)
    requires Inv(s) && Legal(s, run) && s.stage == Idle && Run(s, run).stage == Idle
    requires forall a :: a in run ==> !a.Insert?
    requires Unreported(s, run) == 0
    requires forall t :: Enough(run, t, Backlog(s, t))
    ensures forall t :: Backlog(Run(s, run), t) == 0
    ensures Returned(s, run) == Backlog(s, ModemTable) + Backlog(s, ProbeTable) + Backlog(s, MtrTable)
  {
    ReturnedCounts(s, run);
    forall t ensures Backlog(Run(s, run), t) == 0 && MarkedRows(s, run, t) == Backlog(s, t) {
      DrainedIff(s, run, t);
      BacklogConserved(s, run, t);
      NoInserts(run, t);
    }
    assert Returned(s, run) == AllMarked(s, run);
  }

  lemma {:induction false} NoInserts(run: seq<Action>, t: TableName)
    requires forall a :: a in run ==> !InsertsInto(a, t)
    ensures Inserts(run, t) == 0
  {
    if run != [] {
      assert run[0] in run;
      NoInserts(run[1..], t);
    }
  }

  // ----- with inserts: no row waits for ever -----

  /** The waiting rows that may be selected before row `id`. */
  ghost function Ahead(t: Table, id: Id): set<Id>
    requires id < |t|
  {
    set u | u in Unpushed(t) && u != id && t[u].ts <= t[id].ts
  }

  /** Row `id` is aboard, or the batch is full of rows ahead of it. */
  ghost predicate Advances(t: Table, rows: seq<StoredSample>, id: Id)
    requires id < |t|
  {
    id in IdsOf(rows) || (|rows| == BATCH_SIZE && forall k :: k in IdsOf(rows) ==> k in Ahead(t, id))
  }

  lemma SelectionAdvances(t: Table, ids: seq<Id>, id: Id)
    requires id in Unpushed(t) && IsSelection(t, ids)
    ensures Advances(t, Fetch(t, ids), id)
  {
    FetchHolds(t, ids);
    if id !in ids {
      DistinctCard(ids);
      assert Members(ids) <= Unpushed(t) - {id};
      SubsetCard(Members(ids), Unpushed(t) - {id});
      forall k | k in ids ensures k in Ahead(t, id) {
        var i :| 0 <= i < |ids| && ids[i] == k;
      }
    }
  }

  lemma SubsetCard(a: set<Id>, b: set<Id>)
    requires a <= b
    ensures |a| <= |b|
  {
    assert b == a + (b - a);
  }

  lemma MarkShortensWait(t: Table, rows: seq<StoredSample>, id: Id, now: real)
    requires Holds(t, rows) && id in Unpushed(t) && Advances(t, rows, id)
    ensures var t' := MarkRows(t, IdsOf(rows), now);
      t'[id].pushedAt.Some? || |Ahead(t', id)| + BATCH_SIZE == |Ahead(t, id)|
  {
    var t' := MarkRows(t, IdsOf(rows), now);
    if id !in IdsOf(rows) {
      var ids := HeldIds(t, rows);
      MarkHeld(t, rows, now);
      DistinctCard(ids);
      assert Ahead(t', id) == Ahead(t, id) - Members(ids);
      assert Members(ids) <= Ahead(t, id);
      var rest := Ahead(t, id) - Members(ids);
      assert Ahead(t, id) == rest + Members(ids);
      assert |rest + Members(ids)| == |rest| + |Members(ids)|;
    }
  }

  lemma InsertBehind(t: Table, id: Id, ts: real, payload: Payload)
    requires id < |t| && t[id].ts < ts
    ensures Ahead(InsertRow(t, ts, payload), id) == Ahead(t, id)
  {
    UnpushedInsert(t, ts, payload);
  }

  /** The row is still waiting in a state from which each UPDATE advances it. */
  ghost predicate Waiting(s: State, t: TableName, id: Id) {
    && id in Unpushed(s.db.Get(t))
    && (Pending(s.stage, t) ==> Advances(s.db.Get(t), s.batch.Get(t), id))
  }

  /** The row is pushed, or waits on with the rows ahead of it down by 500 at each UPDATE. */
  ghost predicate WaitsOn(s: State, a: Action, t: TableName, id: Id)
    requires Enabled(s, a) && id < |s.db.Get(t)| && id < |Step(s, a).db.Get(t)|
  {
    || IsPushed(Step(s, a), t, id)
    || (Waiting(Step(s, a), t, id)
        && |Ahead(Step(s, a).db.Get(t), id)| + (if Marks(a, t) then BATCH_SIZE else 0) == |Ahead(s.db.Get(t), id)|)
  }

  lemma WaitInsert(s: State, a: Action, t: TableName, id: Id)
    requires TableInv(s, t) && Enabled(s, a) && Waiting(s, t, id) && InsertsInto(a, t) && s.db.Get(t)[id].ts < a.ts
    ensures WaitsOn(s, a, t, id)
  {
    UnpushedInsert(s.db.Get(t), a.ts, a.payload);
    InsertBehind(s.db.Get(t), id, a.ts, a.payload);
  }

  lemma WaitMark(s: State, a: Action, t: TableName, id: Id)
    requires TableInv(s, t) && Enabled(s, a) && Waiting(s, t, id) && Marks(a, t)
    ensures WaitsOn(s, a, t, id)
  {
    MarkShortensWait(s.db.Get(t), s.batch.Get(t), id, a.now);
  }

  lemma WaitOther(s: State, a: Action, t: TableName, id: Id)
    requires Enabled(s, a) && Waiting(s, t, id) && !InsertsInto(a, t) && !Marks(a, t)
    ensures id < |Step(s, a).db.Get(t)| && WaitsOn(s, a, t, id)
  {
    var s' := Step(s, a);
    assert s'.db.Get(t) == s.db.Get(t);
    if a.Select? && a.table == t {
      SelectionAdvances(s.db.Get(t), a.ids, id);
    } else if Pending(s'.stage, t) {
      assert Pending(s.stage, t) && s'.batch.Get(t) == s.batch.Get(t);
    }
  }

  lemma WaitStep(s: State, a: Action, t: TableName, id: Id)
    requires Inv(s) && Enabled(s, a) && Waiting(s, t, id)
    requires InsertsInto(a, t) ==> s.db.Get(t)[id].ts < a.ts
    ensures id < |Step(s, a).db.Get(t)| && WaitsOn(s, a, t, id)
    ensures Step(s, a).db.Get(t)[id].ts == s.db.Get(t)[id].ts
  {
    StepExtends(s, a, t);
    assert TableInv(s, t);
    if InsertsInto(a, t) {
      WaitInsert(s, a, t, id);
    } else if Marks(a, t) {
      WaitMark(s, a, t, id);
    } else {
      WaitOther(s, a, t, id);
    }
  }

  ghost predicate LaterInserts(run: seq<Action>, t: TableName, ts: real) {
    forall a :: a in run && InsertsInto(a, t) ==> ts < a.ts
  }

  /** No starvation: a row with k rows ahead of it is marked by the time its table has had
      floor(k / 500) + 1 UPDATEs, in any run whose inserts are strictly later. */
  lemma {:induction false} WaitBound(s: State, run: seq<Action>, t: TableName, id: Id)
    requires Inv(s) && Legal(s, run) && Waiting(s, t, id)
    requires LaterInserts(run, t, s.db.Get(t)[id].ts)
    requires MarkCount(run, t) > |Ahead(s.db.Get(t), id)| / 500
    ensures IsPushed(Run(s, run), t, id)
    decreases |run|
  {
    var a, s' := run[0], Step(s, run[0]);
    assert a in run;
    WaitStep(s, a, t, id);
    StepInv(s, a);
    if IsPushed(s', t, id) {
      ArchiveConserved(s', run[1..], t);
    } else {
      assert LaterInserts(run[1..], t, s'.db.Get(t)[id].ts);
      WaitBound(s', run[1..], t, id);
    }
  }
}
