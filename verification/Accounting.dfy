/** Whole runs: how often each row is delivered, and what never happens to a stored row. */
module Accounting {
  import opened Rows
  import opened Table
  import opened Delivery
  import opened Protocol

  // ----- deliveries -----

  ghost predicate OnBatch(s: State, t: TableName, id: Id) {
    id in IdsOf(s.batch.Get(t))
  }

  /** The step is a successful or a lost POST with the row aboard. */
  ghost predicate Delivers(s: State, a: Action, t: TableName, id: Id) {
    a.Post? && a.outcome != Refused && OnBatch(s, t, id)
  }

  /** The step ends a cycle whose POST the remote accepted, before the row's UPDATE. */
  ghost predicate Orphans(s: State, a: Action, t: TableName, id: Id) {
    || (a == Post(Lost) && OnBatch(s, t, id))
    || ((a.Abort? || a.Crash?) && s.stage.Marking? && Aboard(s, t, id))
  }

  ghost function Deliveries(s: State, run: seq<Action>, t: TableName, id: Id): nat
    requires Legal(s, run)
    decreases |run|
  {
    if run == [] then 0
    else (if Delivers(s, run[0], t, id) then 1 else 0) + Deliveries(Step(s, run[0]), run[1..], t, id)
  }

  ghost function OrphanCount(s: State, run: seq<Action>, t: TableName, id: Id): nat
    requires Legal(s, run)
    decreases |run|
  {
    if run == [] then 0
    else (if Orphans(s, run[0], t, id) then 1 else 0) + OrphanCount(Step(s, run[0]), run[1..], t, id)
  }

  ghost predicate IsPushed(s: State, t: TableName, id: Id) {
    id < |s.db.Get(t)| && s.db.Get(t)[id].pushedAt.Some?
  }

  /** Deliveries that are accounted for: a mark, or a mark still to come in this cycle. */
  ghost function Credit(s: State, t: TableName, id: Id): nat {
    (if IsPushed(s, t, id) then 1 else 0) + (if s.stage.Marking? && Aboard(s, t, id) then 1 else 0)
  }

  lemma CreditMark(s: State, name: TableName, now: real, t: TableName, id: Id)
    requires Inv(s) && Enabled(s, Mark(name, now))
    ensures Credit(Step(s, Mark(name, now)), t, id) == Credit(s, t, id)
  {
    var s' := Step(s, Mark(name, now));
    if t == name {
      assert TableInv(s, t);
      if OnBatch(s, t, id) {
        var k :| 0 <= k < |IdsOf(s.batch.Get(t))| && IdsOf(s.batch.Get(t))[k] == id;
        assert !IsPushed(s, t, id) && IsPushed(s', t, id);
      }
    }
  }

  lemma CreditInsert(s: State, name: TableName, ts: real, payload: Payload, t: TableName, id: Id)
    requires Inv(s) && Fits(name, payload)
    ensures Credit(Step(s, Insert(name, ts, payload)), t, id) == Credit(s, t, id)
  {
    var s' := Step(s, Insert(name, ts, payload));
    assert IsPushed(s', t, id) <==> IsPushed(s, t, id);
  }

  ghost predicate Balanced(s: State, a: Action, t: TableName, id: Id)
    requires Enabled(s, a)
  {
    Credit(Step(s, a), t, id) + (if Orphans(s, a, t, id) then 1 else 0) ==
      Credit(s, t, id) + (if Delivers(s, a, t, id) then 1 else 0)
  }

  lemma CreditAccepted(s: State, t: TableName, id: Id)
    requires Enabled(s, Post(Accepted))
    ensures Balanced(s, Post(Accepted), t, id)
  {
    assert Step(s, Post(Accepted)).db == s.db;
    assert IsPushed(Step(s, Post(Accepted)), t, id) <==> IsPushed(s, t, id);
  }

  lemma CreditFailed(s: State, outcome: Outcome, t: TableName, id: Id)
    requires Enabled(s, Post(outcome)) && outcome != Accepted
    ensures Balanced(s, Post(outcome), t, id)
  {
    assert Step(s, Post(outcome)).db == s.db;
    assert Step(s, Post(outcome)).stage == Failing && s.stage == Ready;
  }

  /** Steps that leave the tables and the remote's samples alone. */
  lemma CreditOther(s: State, a: Action, t: TableName, id: Id)
    requires Enabled(s, a) && !a.Insert? && !a.Mark? && !a.Post?
    ensures Balanced(s, a, t, id)
  {
    assert Step(s, a).db == s.db;
  }

  lemma CreditStep(s: State, a: Action, t: TableName, id: Id)
    requires Inv(s) && Enabled(s, a)
    ensures Balanced(s, a, t, id)
  {
    if a.Insert? {
      CreditInsert(s, a.table, a.ts, a.payload, t, id);
    } else if a.Mark? {
      CreditMark(s, a.table, a.now, t, id);
    } else if a.Post? {
      if a.outcome == Accepted {
        CreditAccepted(s, t, id);
      } else {
        CreditFailed(s, a.outcome, t, id);
      }
    } else {
      CreditOther(s, a, t, id);
    }
  }

  lemma {:induction false} CreditRun(s: State, run: seq<Action>, t: TableName, id: Id)
    requires Inv(s) && Legal(s, run)
    ensures Credit(Run(s, run), t, id) + OrphanCount(s, run, t, id) == Credit(s, t, id) + Deliveries(s, run, t, id)
    decreases |run|
  {
    if run != [] {
      CreditStep(s, run[0], t, id);
      StepInv(s, run[0]);
      CreditRun(Step(s, run[0]), run[1..], t, id);
    }
  }

  /** Exact accounting: outside the marking phase a row has been delivered once for its mark,
      plus once for each cycle that was cut off between its POST and its UPDATE. */
  lemma DuplicateAccounting(run: seq<Action>, t: TableName, id: Id)
    requires Legal(INITIAL, run) && !Run(INITIAL, run).stage.Marking?
    ensures Deliveries(INITIAL, run, t, id) ==
      (if IsPushed(Run(INITIAL, run), t, id) then 1 else 0) + OrphanCount(INITIAL, run, t, id)
  {
    InitialInv();
    CreditRun(INITIAL, run, t, id);
    assert Credit(INITIAL, t, id) == 0;
  }

  ghost predicate Interrupts(a: Action) {
    a.Abort? || a.Crash? || a == Post(Lost)
  }

  lemma {:induction false} NoOrphans(s: State, run: seq<Action>, t: TableName, id: Id)
    requires Legal(s, run) && forall a :: a in run ==> !Interrupts(a)
    ensures OrphanCount(s, run, t, id) == 0
    decreases |run|
  {
    if run != [] {
      assert run[0] in run;
      NoOrphans(Step(s, run[0]), run[1..], t, id);
    }
  }

  /** Without interruptions delivery is exactly once: refused POSTs and failed heartbeats do
      not count as interruptions. */
  lemma ExactlyOnce(run: seq<Action>, t: TableName, id: Id)
    requires Legal(INITIAL, run) && !Run(INITIAL, run).stage.Marking?
    requires forall a :: a in run ==> !Interrupts(a)
    ensures Deliveries(INITIAL, run, t, id) == if IsPushed(Run(INITIAL, run), t, id) then 1 else 0
  {
    DuplicateAccounting(run, t, id);
    NoOrphans(INITIAL, run, t, id);
  }

  // ----- the archive -----

  ghost function Inserts(run: seq<Action>, t: TableName): nat {
    if run == [] then 0 else (if run[0].Insert? && run[0].table == t then 1 else 0) + Inserts(run[1..], t)
  }

  lemma StepExtends(s: State, a: Action, t: TableName)
    requires Inv(s) && Enabled(s, a)
    ensures Extends(s.db.Get(t), Step(s, a).db.Get(t))
    ensures |Step(s, a).db.Get(t)| == |s.db.Get(t)| + (if a.Insert? && a.table == t then 1 else 0)
  {
    if a.Mark? && a.table == t {
      assert TableInv(s, t);
      MarkExtends(s.db.Get(t), s.batch.Get(t), a.now);
    } else if !(a.Insert? && a.table == t) {
      assert Step(s, a).db.Get(t) == s.db.Get(t);
    }
  }

  lemma MarkExtends(t: Table, rows: seq<StoredSample>, now: real)
    requires Holds(t, rows)
    ensures Extends(t, MarkRows(t, IdsOf(rows), now))
  {
    assert forall k :: 0 <= k < |IdsOf(rows)| ==> t[IdsOf(rows)[k]].pushedAt.None?;
  }

  /** No run removes a row, changes its `ts` or payload, or writes its `pushed_at` a second
      time; and a table has grown by exactly the rows inserted. */
  lemma {:induction false} ArchiveConserved(s: State, run: seq<Action>, t: TableName)
    requires Inv(s) && Legal(s, run)
    ensures Extends(s.db.Get(t), Run(s, run).db.Get(t))
    ensures |Run(s, run).db.Get(t)| == |s.db.Get(t)| + Inserts(run, t)
    decreases |run|
  {
    if run != [] {
      var s' := Step(s, run[0]);
      StepExtends(s, run[0], t);
      StepInv(s, run[0]);
      ArchiveConserved(s', run[1..], t);
      var before, mid, after := s.db.Get(t), s'.db.Get(t), Run(s, run).db.Get(t);
      forall i | 0 <= i < |before|
        ensures after[i].ts == before[i].ts && after[i].payload == before[i].payload
        ensures before[i].pushedAt.Some? ==> after[i].pushedAt == before[i].pushedAt
      {
        assert mid[i].ts == before[i].ts;
      }
    }
  }

  /** A row that arrives after its table was selected is not marked before the table is
      selected again, whatever else happens. */
  lemma {:induction false} LateRowsWait(s: State, run: seq<Action>, t: TableName, bound: nat, id: Id)
    requires Inv(s) && Legal(s, run) && Late(s, t, bound, id)
    requires forall a :: a in run && a.Select? ==> a.table != t
    ensures !IsPushed(Run(s, run), t, id)
    decreases |run|
  {
    if run != [] {
      assert run[0] in run;
      LateStep(s, run[0], t, bound, id);
      StepInv(s, run[0]);
      LateRowsWait(Step(s, run[0]), run[1..], t, bound, id);
    }
  }

  /** Row `id` is not pushed, and no row at or above `bound` is aboard. */
  ghost predicate Late(s: State, t: TableName, bound: nat, id: Id) {
    && bound <= id && !IsPushed(s, t, id)
    && (Pending(s.stage, t) ==> forall i :: i in IdsOf(s.batch.Get(t)) ==> i < bound)
  }

  lemma LateStep(s: State, a: Action, t: TableName, bound: nat, id: Id)
    requires Inv(s) && Enabled(s, a) && Late(s, t, bound, id)
    requires a.Select? ==> a.table != t
    ensures Late(Step(s, a), t, bound, id)
  {
    var s' := Step(s, a);
    assert Pending(s'.stage, t) ==> Pending(s.stage, t) && s'.batch.Get(t) == s.batch.Get(t);
    assert !IsPushed(s', t, id);
  }

  /** The instance for the moment right after a SELECT. */
  lemma RowsAfterSelectWait(s: State, ids: seq<Id>, t: TableName, run: seq<Action>, id: Id)
    requires Inv(s) && Enabled(s, Select(t, ids)) && Legal(Step(s, Select(t, ids)), run)
    requires forall a :: a in run && a.Select? ==> a.table != t
    requires |s.db.Get(t)| <= id
    ensures !IsPushed(Run(Step(s, Select(t, ids)), run), t, id)
  {
    StepInv(s, Select(t, ids));
    FetchHolds(s.db.Get(t), ids);
    LateRowsWait(Step(s, Select(t, ids)), run, t, |s.db.Get(t)|, id);
  }
}
