/** One append-only table: its rows, and the three statements run on it. SQLite numbers the
    rows of a table from 1 in the order of insertion and none is ever deleted, so a row is
    identified here by its position. */
module Table {
  import opened Options
  import opened Seqs
  import opened Rows

  type Id = nat

  datatype Row = Row(ts: real, payload: Payload, pushedAt: Option<real>)

  type Table = seq<Row>

  const BATCH_SIZE: nat := 500

  function Min(a: int, b: int): int { if a < b then a else b }

  function Max(a: int, b: int): int { if a < b then b else a }

  /** INSERT: the new row is not pushed. */
  function InsertRow(t: Table, ts: real, payload: Payload): Table {
    t + [Row(ts, payload, None)]
  }

  ghost function Unpushed(t: Table): set<Id> {
    set i | 0 <= i < |t| && t[i].pushedAt.None?
  }

  /** SELECT ... WHERE pushed_at IS NULL ORDER BY ts LIMIT 500: any order among equal `ts`. */
  ghost predicate IsSelection(t: Table, ids: seq<Id>) {
    && Distinct(ids)
    && (forall i :: 0 <= i < |ids| ==> ids[i] in Unpushed(t))
    && |ids| == Min(BATCH_SIZE, |Unpushed(t)|)
    && (forall i, j :: 0 <= i < j < |ids| ==> t[ids[i]].ts <= t[ids[j]].ts)
    && (forall i, u :: 0 <= i < |ids| && u in Unpushed(t) && u !in ids ==> t[ids[i]].ts <= t[u].ts)
  }

  function Marked(row: Row, hit: bool, now: real): Row {
    if hit then row.(pushedAt := Some(now)) else row
  }

  /** UPDATE ... SET pushed_at = now WHERE id IN (...) */
  function MarkRows(t: Table, ids: seq<int>, now: real): (r: Table)
    ensures |r| == |t|
  {
    seq(|t|, i requires 0 <= i < |t| => Marked(t[i], i in ids, now))
  }

  function Stored(t: Table, id: Id): StoredSample
    requires id < |t|
  {
    StoredSample(id, t[id].ts, t[id].payload)
  }

  /** The rows a SELECT hands over. */
  function Fetch(t: Table, ids: seq<Id>): (rows: seq<StoredSample>)
    requires forall i :: 0 <= i < |ids| ==> ids[i] < |t|
    ensures |rows| == |ids|
  {
    seq(|ids|, i requires 0 <= i < |ids| => Stored(t, ids[i]))
  }

  /** What a SELECT may return. */
  ghost predicate SelectedFrom(t: Table, rows: seq<StoredSample>) {
    exists ids :: IsSelection(t, ids) && rows == Fetch(t, ids)
  }

  function IdsOf(rows: seq<StoredSample>): (ids: seq<int>)
    ensures |ids| == |rows|
  {
    Map(rows, (r: StoredSample) => r.id)
  }

  // ----- facts -----

  lemma UnpushedInsert(t: Table, ts: real, payload: Payload)
    ensures Unpushed(InsertRow(t, ts, payload)) == Unpushed(t) + {|t|}
    ensures |Unpushed(InsertRow(t, ts, payload))| == |Unpushed(t)| + 1
  {
    var t' := InsertRow(t, ts, payload);
    assert forall i :: 0 <= i < |t| ==> t'[i] == t[i];
    assert |t| !in Unpushed(t);
  }

  ghost function Members(ids: seq<Id>): set<Id> {
    set i: Id | i in ids
  }

  lemma {:induction false} DistinctCard(ids: seq<Id>)
    requires Distinct(ids)
    ensures |Members(ids)| == |ids|
  {
    if ids != [] {
      var head, tail := ids[0], ids[1..];
      assert forall i :: 0 <= i < |tail| ==> tail[i] == ids[i + 1];
      DistinctCard(tail);
      MembersCons(head, tail);
      assert ids == [head] + tail;
      assert head !in tail;
    }
  }

  lemma MembersCons(head: Id, tail: seq<Id>)
    ensures Members([head] + tail) == Members(tail) + {head}
  {
  }

  lemma UnpushedMark(t: Table, ids: seq<Id>, now: real)
    requires Distinct(ids) && forall i :: 0 <= i < |ids| ==> ids[i] in Unpushed(t)
    ensures Unpushed(MarkRows(t, ids, now)) == Unpushed(t) - Members(ids)
    ensures |Unpushed(MarkRows(t, ids, now))| == |Unpushed(t)| - |ids|
  {
    DistinctCard(ids);
    assert Members(ids) <= Unpushed(t);
    var rest := Unpushed(t) - Members(ids);
    assert Unpushed(t) == rest + Members(ids);
    assert |rest + Members(ids)| == |rest| + |Members(ids)|;
    assert Unpushed(MarkRows(t, ids, now)) == rest;
  }

  // ----- the archive -----

  /** Rows are only added, keep `ts` and `payload` for ever, and keep the first `pushed_at`
      they get. */
  ghost predicate Extends(before: Table, after: Table) {
    && |before| <= |after|
    && forall i :: 0 <= i < |before| ==>
         after[i].ts == before[i].ts && after[i].payload == before[i].payload
         && (before[i].pushedAt.Some? ==> after[i].pushedAt == before[i].pushedAt)
  }

  // ----- order -----

  /** Every pushed row is at most as late as every row still waiting: the pushed rows are
      downward closed in `ts`. */
  ghost predicate Ordered(t: Table) {
    forall i, j :: 0 <= i < |t| && 0 <= j < |t| && t[i].pushedAt.Some? && t[j].pushedAt.None? ==> t[i].ts <= t[j].ts
  }

  ghost predicate NotBeforePushed(t: Table, ts: real) {
    forall i :: 0 <= i < |t| && t[i].pushedAt.Some? ==> t[i].ts <= ts
  }

  /** While no cycle is under way, an insert keeps the order exactly when it is not older
      than a row already pushed. */
  lemma InsertOrderedIff(t: Table, ts: real, payload: Payload)
    requires Ordered(t)
    ensures Ordered(InsertRow(t, ts, payload)) <==> NotBeforePushed(t, ts)
  {
    var t' := InsertRow(t, ts, payload);
    assert forall i :: 0 <= i < |t| ==> t'[i] == t[i];
    if Ordered(t') {
      forall i | 0 <= i < |t| && t[i].pushedAt.Some? ensures t[i].ts <= ts {
        assert t'[i].pushedAt.Some? && t'[|t|].pushedAt.None?;
      }
    }
  }
}
