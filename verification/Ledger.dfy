/** Whole runs: what the remote holds, sample by sample. */
module Ledger {
  import opened Seqs
  import opened Rows
  import opened Table
  import opened Delivery
  import opened Protocol
  import opened Accounting

  // ----- sums -----

  function Sum(n: nat, f: nat -> nat): nat {
    if n == 0 then 0 else Sum(n - 1, f) + f(n - 1)
  }

  lemma {:induction false} SumAdd(n: nat, f: nat -> nat, g: nat -> nat, h: nat -> nat)
    requires forall i: nat :: i < n ==> h(i) == f(i) + g(i)
    ensures Sum(n, h) == Sum(n, f) + Sum(n, g)
  {
    if n > 0 {
      SumAdd(n - 1, f, g, h);
    }
  }

  lemma {:induction false} SumZero(n: nat, f: nat -> nat)
    requires forall i: nat :: i < n ==> f(i) == 0
    ensures Sum(n, f) == 0
  {
    if n > 0 {
      SumZero(n - 1, f);
    }
  }

  lemma {:induction false} SumSame(n: nat, f: nat -> nat, g: nat -> nat)
    requires forall i: nat :: i < n ==> f(i) == g(i)
    ensures Sum(n, f) == Sum(n, g)
  {
    if n > 0 {
      SumSame(n - 1, f, g);
    }
  }

  function Single(j: nat, c: nat): nat -> nat {
    i => if i == j then c else 0
  }

  lemma {:induction false} SumSingle(n: nat, j: nat, c: nat)
    requires j < n
    ensures Sum(n, Single(j, c)) == c
  {
    if j == n - 1 {
      SumZero(n - 1, Single(j, c));
    } else {
      SumSingle(n - 1, j, c);
    }
  }

  // ----- one batch -----

  /** How often a row projects to the point. */
  ghost function Points(row: StoredSample, x: RowPoint): nat {
    multiset(RowPoints(row))[x]
  }

  ghost function Weight(t: Table, x: RowPoint): nat -> nat {
    (i: nat) => if i < |t| then Points(Stored(t, i), x) else 0
  }

  ghost function Chosen(ids: seq<int>, w: nat -> nat): nat -> nat {
    i => if i in ids then w(i) else 0
  }

  /** Distinct rows of the table, as they are stored. */
  ghost predicate RowsOf(t: Table, rows: seq<StoredSample>) {
    && Distinct(IdsOf(rows))
    && forall k :: 0 <= k < |rows| ==> 0 <= rows[k].id < |t| && rows[k] == Stored(t, rows[k].id)
  }

  lemma CountAppend<T>(a: seq<T>, b: seq<T>, x: T)
    ensures multiset(a + b)[x] == multiset(a)[x] + multiset(b)[x]
  {
  }

  lemma PointsSnoc(rows: seq<StoredSample>, x: RowPoint)
    requires rows != []
    ensures var last := |rows| - 1;
      multiset(TablePoints(rows))[x] == multiset(TablePoints(rows[..last]))[x] + Points(rows[last], x)
  {
    var last := |rows| - 1;
    JoinMapSnoc(rows, last, RowPoints);
    assert rows[..last + 1] == rows;
    CountAppend(TablePoints(rows[..last]), RowPoints(rows[last]), x);
  }

  /** A batch carries each of its rows' points once. */
  lemma {:induction false} BatchSum(t: Table, rows: seq<StoredSample>, x: RowPoint)
    requires RowsOf(t, rows)
    ensures Sum(|t|, Chosen(IdsOf(rows), Weight(t, x))) == multiset(TablePoints(rows))[x]
  {
    var w := Weight(t, x);
    if rows == [] {
      SumZero(|t|, Chosen([], w));
    } else {
      var last := |rows| - 1;
      var init, id := rows[..last], rows[last].id;
      BatchSum(t, init, x);
      PointsSnoc(rows, x);
      SumSingle(|t|, id, w(id));
      ChosenSnoc(rows, w);
      SumAdd(|t|, Chosen(IdsOf(init), w), Single(id, w(id)), Chosen(IdsOf(rows), w));
    }
  }

  lemma ChosenSnoc(rows: seq<StoredSample>, w: nat -> nat)
    requires rows != [] && Distinct(IdsOf(rows)) && rows[|rows| - 1].id >= 0
    ensures var last := |rows| - 1;
      forall i: nat :: Chosen(IdsOf(rows), w)(i) ==
        Chosen(IdsOf(rows[..last]), w)(i) + Single(rows[last].id, w(rows[last].id))(i)
  {
    var last := |rows| - 1;
    var ids, init := IdsOf(rows), IdsOf(rows[..last]);
    assert ids == init + [rows[last].id];
    assert forall k :: 0 <= k < last ==> ids[k] == init[k] && ids[k] != ids[last];
  }

  // ----- one step -----

  function Times(c: nat -> nat, w: nat -> nat): nat -> nat {
    i => c(i) * w(i)
  }

  lemma TimesAdd(n: nat, d: nat -> nat, c: nat -> nat, total: nat -> nat, w: nat -> nat)
    requires forall i: nat :: total(i) == d(i) + c(i)
    ensures Sum(n, Times(total, w)) == Sum(n, Times(d, w)) + Sum(n, Times(c, w))
  {
    forall i: nat ensures Times(total, w)(i) == Times(d, w)(i) + Times(c, w)(i) {
      Distribute(d(i), c(i), w(i));
    }
    SumAdd(n, Times(d, w), Times(c, w), Times(total, w));
  }

  lemma TimesNone(n: nat, c: nat -> nat, w: nat -> nat)
    requires forall i: nat :: c(i) == 0
    ensures Sum(n, Times(c, w)) == 0
  {
    SumZero(n, Times(c, w));
  }

  lemma Distribute(d: nat, c: nat, w: nat)
    ensures (d + c) * w == d * w + c * w
  {
  }

  /** 1 for the rows delivered by the step. */
  ghost function DeliveredNow(s: State, a: Action, t: TableName): nat -> nat {
    (i: nat) => if Delivers(s, a, t, i) then 1 else 0
  }

  ghost function DeliveryCounts(s: State, run: seq<Action>, t: TableName): nat -> nat
    requires Legal(s, run)
  {
    (i: nat) => Deliveries(s, run, t, i)
  }

  lemma CountsStep(s: State, run: seq<Action>, t: TableName)
    requires Legal(s, run) && run != []
    ensures forall i: nat ::
      DeliveryCounts(s, run, t)(i) == DeliveredNow(s, run[0], t)(i) + DeliveryCounts(Step(s, run[0]), run[1..], t)(i)
  {
  }

  lemma DeliveryStep(s: State, run: seq<Action>, t: TableName, w: nat -> nat, n: nat)
    requires Legal(s, run) && run != []
    ensures Sum(n, Times(DeliveryCounts(s, run, t), w)) ==
      Sum(n, Times(DeliveredNow(s, run[0], t), w)) + Sum(n, Times(DeliveryCounts(Step(s, run[0]), run[1..], t), w))
  {
    CountsStep(s, run, t);
    TimesAdd(n, DeliveredNow(s, run[0], t), DeliveryCounts(Step(s, run[0]), run[1..], t), DeliveryCounts(s, run, t), w);
  }

  ghost function Beats(a: Action): Remote {
    if a.Heartbeat? && a.outcome != Refused
    then multiset{Series.Point([Model.Label("__name__", "knausen_collector_heartbeat")], Model.Sample(1.0, a.nowMs))}
    else multiset{}
  }

  ghost function Heartbeats(run: seq<Action>): Remote {
    if run == [] then multiset{} else Beats(run[0]) + Heartbeats(run[1..])
  }

  lemma StoredLater(before: Table, after: Table, rows: seq<StoredSample>)
    requires Holds(before, rows) && Extends(before, after)
    ensures RowsOf(after, rows)
  {
    forall k | 0 <= k < |rows| ensures 0 <= rows[k].id < |after| && rows[k] == Stored(after, rows[k].id) {
      assert rows[k].id == IdsOf(rows)[k];
    }
  }

  ghost predicate Posts(a: Action) {
    a.Post? && a.outcome != Refused
  }

  lemma DeliveredIsChosen(s: State, a: Action, t: TableName, w: nat -> nat)
    requires Posts(a)
    ensures forall i: nat :: Times(DeliveredNow(s, a, t), w)(i) == Chosen(IdsOf(s.batch.Get(t)), w)(i)
  {
    forall i: nat ensures Times(DeliveredNow(s, a, t), w)(i) == Chosen(IdsOf(s.batch.Get(t)), w)(i) {
      assert Delivers(s, a, t, i) <==> i in IdsOf(s.batch.Get(t));
    }
  }

  lemma NothingDelivered(s: State, a: Action, t: TableName, w: nat -> nat)
    requires !Posts(a)
    ensures forall i: nat :: Times(DeliveredNow(s, a, t), w)(i) == 0
  {
    forall i: nat ensures Times(DeliveredNow(s, a, t), w)(i) == 0 {
      assert !Delivers(s, a, t, i);
    }
  }

  lemma PostShare(s: State, a: Action, t: TableName, after: Table, x: RowPoint)
    requires Posts(a) && RowsOf(after, s.batch.Get(t))
    ensures Sum(|after|, Times(DeliveredNow(s, a, t), Weight(after, x))) == multiset(TablePoints(s.batch.Get(t)))[x]
  {
    var ids, w := IdsOf(s.batch.Get(t)), Weight(after, x);
    BatchSum(after, s.batch.Get(t), x);
    DeliveredIsChosen(s, a, t, w);
    SumSame(|after|, Times(DeliveredNow(s, a, t), w), Chosen(ids, w));
  }

  lemma ReadyHolds(s: State, a: Action, t: TableName)
    requires TableInv(s, t) && Enabled(s, a) && Posts(a)
    ensures Holds(s.db.Get(t), s.batch.Get(t))
  {
  }

  /** What a step delivers from one table. */
  lemma TableStep(s: State, a: Action, t: TableName, after: Table, x: RowPoint)
    requires TableInv(s, t) && Enabled(s, a) && Extends(s.db.Get(t), after)
    ensures Sum(|after|, Times(DeliveredNow(s, a, t), Weight(after, x))) ==
      if Posts(a) then multiset(TablePoints(s.batch.Get(t)))[x] else 0
  {
    if Posts(a) {
      ReadyHolds(s, a, t);
      StoredLater(s.db.Get(t), after, s.batch.Get(t));
      PostShare(s, a, t, after, x);
    } else {
      NothingDelivered(s, a, t, Weight(after, x));
      SumZero(|after|, Times(DeliveredNow(s, a, t), Weight(after, x)));
    }
  }

  lemma CarriedCount(batch: Batch, x: RowPoint)
    ensures Carried(batch)[x] == multiset(TablePoints(batch.modem))[x] + multiset(TablePoints(batch.probe))[x]
      + multiset(TablePoints(batch.mtr))[x]
  {
    CarriedIs(batch);
    CountAppend(TablePoints(batch.modem) + TablePoints(batch.probe), TablePoints(batch.mtr), x);
    CountAppend(TablePoints(batch.modem), TablePoints(batch.probe), x);
  }

  lemma RemoteStep(s: State, a: Action, x: RowPoint)
    requires Enabled(s, a)
    ensures Step(s, a).remote[x] == s.remote[x] + Beats(a)[x] + if Posts(a) then Carried(s.batch)[x] else 0
  {
  }

  // ----- the ledger -----

  /** The table's rows' points, each row's as often as the run delivers it. */
  ghost function Share(s: State, run: seq<Action>, t: TableName, after: Table, x: RowPoint): nat
    requires Legal(s, run)
  {
    Sum(|after|, Times(DeliveryCounts(s, run, t), Weight(after, x)))
  }

  lemma ShareStep(s: State, run: seq<Action>, t: TableName, after: Table, x: RowPoint)
    requires Inv(s) && Legal(s, run) && run != [] && Extends(s.db.Get(t), after)
    ensures Share(s, run, t, after, x) == Share(Step(s, run[0]), run[1..], t, after, x)
      + if Posts(run[0]) then multiset(TablePoints(s.batch.Get(t)))[x] else 0
  {
    assert TableInv(s, t);
    DeliveryStep(s, run, t, Weight(after, x), |after|);
    TableStep(s, run[0], t, after, x);
  }

  lemma ShareNone(s: State, t: TableName, after: Table, x: RowPoint)
    ensures Share(s, [], t, after, x) == 0
  {
    TimesNone(|after|, DeliveryCounts(s, [], t), Weight(after, x));
  }

  ghost function Shares(s: State, run: seq<Action>, after: Triple<Table>, x: RowPoint): nat
    requires Legal(s, run)
  {
    Share(s, run, ModemTable, after.modem, x) + Share(s, run, ProbeTable, after.probe, x) +
      Share(s, run, MtrTable, after.mtr, x)
  }

  ghost predicate AllExtend(before: Triple<Table>, after: Triple<Table>) {
    Extends(before.modem, after.modem) && Extends(before.probe, after.probe) && Extends(before.mtr, after.mtr)
  }

  lemma SharesStep(s: State, run: seq<Action>, after: Triple<Table>, x: RowPoint)
    requires Inv(s) && Legal(s, run) && run != [] && AllExtend(s.db, after)
    ensures Shares(s, run, after, x) ==
      Shares(Step(s, run[0]), run[1..], after, x) + if Posts(run[0]) then Carried(s.batch)[x] else 0
  {
    ShareStep(s, run, ModemTable, after.modem, x);
    ShareStep(s, run, ProbeTable, after.probe, x);
    ShareStep(s, run, MtrTable, after.mtr, x);
    CarriedCount(s.batch, x);
  }

  lemma RunExtends(s: State, run: seq<Action>)
    requires Inv(s) && Legal(s, run)
    ensures AllExtend(s.db, Run(s, run).db)
  {
    ArchiveConserved(s, run, ModemTable);
    ArchiveConserved(s, run, ProbeTable);
    ArchiveConserved(s, run, MtrTable);
  }

  lemma {:induction false} LedgerRun(s: State, run: seq<Action>, x: RowPoint)
    requires Inv(s) && Legal(s, run)
    ensures Run(s, run).remote[x] == s.remote[x] + Shares(s, run, Run(s, run).db, x) + Heartbeats(run)[x]
    decreases |run|
  {
    if run == [] {
      ShareNone(s, ModemTable, s.db.modem, x);
      ShareNone(s, ProbeTable, s.db.probe, x);
      ShareNone(s, MtrTable, s.db.mtr, x);
    } else {
      RunExtends(s, run);
      StepInv(s, run[0]);
      LedgerRun(Step(s, run[0]), run[1..], x);
      SharesStep(s, run, Run(s, run).db, x);
      RemoteStep(s, run[0], x);
    }
  }

  /** The ledger balances: after any run from an empty database, and sample by sample, the remote
      holds what every row projects to as often as the row was delivered, and the heartbeats. */
  lemma RemoteIsDeliveries(run: seq<Action>, x: RowPoint)
    requires Legal(INITIAL, run)
    ensures Run(INITIAL, run).remote[x] == Shares(INITIAL, run, Run(INITIAL, run).db, x) + Heartbeats(run)[x]
  {
    InitialInv();
    LedgerRun(INITIAL, run, x);
  }

  // ----- without interruptions -----

  ghost function PushedOnly(t: Table, x: RowPoint): nat -> nat {
    (i: nat) => if i < |t| && t[i].pushedAt.Some? then Points(Stored(t, i), x) else 0
  }

  /** The pushed rows' points, each row once. */
  ghost function PushedPoints(t: Table, x: RowPoint): nat {
    Sum(|t|, PushedOnly(t, x))
  }

  lemma ShareIsPushed(run: seq<Action>, t: TableName, x: RowPoint)
    requires Legal(INITIAL, run) && !Run(INITIAL, run).stage.Marking?
    requires forall a :: a in run ==> !Interrupts(a)
    ensures Share(INITIAL, run, t, Run(INITIAL, run).db.Get(t), x) == PushedPoints(Run(INITIAL, run).db.Get(t), x)
  {
    var after := Run(INITIAL, run).db.Get(t);
    var f, g := Times(DeliveryCounts(INITIAL, run, t), Weight(after, x)), PushedOnly(after, x);
    forall i: nat | i < |after| ensures f(i) == g(i) {
      ExactlyOnce(run, t, i);
      assert DeliveryCounts(INITIAL, run, t)(i) == if after[i].pushedAt.Some? then 1 else 0;
    }
    SumSame(|after|, f, g);
  }

  /** Without interruptions the remote holds exactly the samples of the pushed rows, each row's
      once, and the heartbeats. */
  lemma RemoteIsPushedRows(run: seq<Action>, x: RowPoint)
    requires Legal(INITIAL, run) && !Run(INITIAL, run).stage.Marking?
    requires forall a :: a in run ==> !Interrupts(a)
    ensures var db := Run(INITIAL, run).db;
      Run(INITIAL, run).remote[x] ==
        PushedPoints(db.modem, x) + PushedPoints(db.probe, x) + PushedPoints(db.mtr, x) + Heartbeats(run)[x]
  {
    RemoteIsDeliveries(run, x);
    ShareIsPushed(run, ModemTable, x);
    ShareIsPushed(run, ProbeTable, x);
    ShareIsPushed(run, MtrTable, x);
  }
}
