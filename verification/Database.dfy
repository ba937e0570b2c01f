/** The SQLite buffer: one connection, three tables updated in place. */
module Database {
  import opened Options
  import opened Seqs
  import opened Sorting
  import opened Rows
  import opened Table
  import opened Delivery

  function TimeOf(t: Table): Id -> real {
    (id: Id) => if id < |t| then t[id].ts else 0.0
  }

  lemma {:induction false} DistinctCount(ids: seq<Id>)
    ensures Distinct(ids) <==> forall x :: multiset(ids)[x] <= 1
  {
    if ids != [] {
      var head, tail := ids[0], ids[1..];
      DistinctCount(tail);
      assert ids == [head] + tail;
      assert forall i :: 0 <= i < |tail| ==> tail[i] == ids[i + 1];
      if Distinct(ids) {
        assert head !in tail;
        forall x ensures multiset(ids)[x] <= 1 {
          assert Distinct(tail);
        }
      }
      if forall x :: multiset(ids)[x] <= 1 {
        forall x ensures multiset(tail)[x] <= 1 {
          assert multiset(ids)[x] <= 1;
        }
        assert multiset(ids)[head] <= 1;
        assert head !in multiset(tail);
        forall i, j | 0 <= i < j < |ids| ensures ids[i] != ids[j] {
          if i == 0 {
            assert tail[j - 1] in multiset(tail);
          } else {
            assert tail[i - 1] != tail[j - 1];
          }
        }
      }
    }
  }

  lemma SortedMembers(waiting: seq<Id>, key: Id -> real)
    requires Distinct(waiting)
    ensures Distinct(StableSort(waiting, key)) && Members(StableSort(waiting, key)) == Members(waiting)
  {
    var sorted := StableSort(waiting, key);
    StableSortCorrect(waiting, key);
    DistinctCount(waiting);
    DistinctCount(sorted);
    forall x: Id ensures x in sorted <==> x in waiting {
      assert x in sorted <==> x in multiset(sorted);
      assert x in waiting <==> x in multiset(waiting);
    }
  }

  lemma MemberOf(t: Table, sorted: seq<Id>, i: nat)
    requires Members(sorted) == Unpushed(t) && i < |sorted|
    ensures sorted[i] in Unpushed(t) && TimeOf(t)(sorted[i]) == t[sorted[i]].ts
  {
    assert sorted[i] in Members(sorted);
  }

  lemma TakeHas(ids: seq<Id>, n: nat, k: nat)
    requires n <= |ids| && k < |ids|
    ensures k < n ==> ids[k] in ids[..n]
  {
    assert k < n ==> ids[..n][k] == ids[k];
  }

  lemma InTimeOrder(t: Table, sorted: seq<Id>, i: nat, j: nat)
    requires Members(sorted) == Unpushed(t) && Sorted(sorted, TimeOf(t)) && i <= j < |sorted|
    ensures sorted[i] in Unpushed(t) && sorted[j] in Unpushed(t) && t[sorted[i]].ts <= t[sorted[j]].ts
  {
    MemberOf(t, sorted, i);
    MemberOf(t, sorted, j);
    assert i < j ==> TimeOf(t)(sorted[i]) <= TimeOf(t)(sorted[j]);
  }

  lemma CutKeepsEarliest(t: Table, sorted: seq<Id>, n: nat, i: nat, u: Id)
    requires Members(sorted) == Unpushed(t) && Sorted(sorted, TimeOf(t)) && i < n <= |sorted|
    requires u in Unpushed(t) && u !in sorted[..n]
    ensures sorted[i] in Unpushed(t) && t[sorted[i]].ts <= t[u].ts
  {
    assert u in Members(sorted);
    var k :| 0 <= k < |sorted| && sorted[k] == u;
    TakeHas(sorted, n, k);
    InTimeOrder(t, sorted, i, k);
  }

  /** A sorted list of all waiting rows, cut at 500, is a selection. */
  lemma CutIsSelection(t: Table, sorted: seq<Id>)
    requires Distinct(sorted) && Members(sorted) == Unpushed(t) && Sorted(sorted, TimeOf(t))
    ensures IsSelection(t, sorted[..Min(BATCH_SIZE, |sorted|)])
  {
    DistinctCard(sorted);
    var n := Min(BATCH_SIZE, |sorted|);
    var ids := sorted[..n];
    forall i | 0 <= i < |ids| ensures ids[i] in Unpushed(t) {
      MemberOf(t, sorted, i);
    }
    forall i, u | 0 <= i < |ids| && u in Unpushed(t) && u !in ids ensures t[ids[i]].ts <= t[u].ts {
      CutKeepsEarliest(t, sorted, n, i, u);
    }
    forall i, j | 0 <= i < j < |ids| ensures t[ids[i]].ts <= t[ids[j]].ts {
      InTimeOrder(t, sorted, i, j);
    }
  }

  /** Sorting the waiting rows by `ts` and cutting at 500 is a selection, so there always is one. */
  lemma SelectionBySort(t: Table, waiting: seq<Id>)
    requires Distinct(waiting) && Members(waiting) == Unpushed(t)
    ensures IsSelection(t, StableSort(waiting, TimeOf(t))[..Min(BATCH_SIZE, |waiting|)])
  {
    StableSortCorrect(waiting, TimeOf(t));
    SortedMembers(waiting, TimeOf(t));
    CutIsSelection(t, StableSort(waiting, TimeOf(t)));
  }

  /** What a SELECT promises: rows of the table as they are stored, each waiting and none twice,
      sorted by `ts`; 500 of them or all that wait; and no row left out is older. */
  ghost predicate Oldest500(t: Table, rows: seq<StoredSample>) {
    && (forall i :: 0 <= i < |rows| ==>
          && 0 <= rows[i].id < |t| && t[rows[i].id].pushedAt == None
          && rows[i].ts == t[rows[i].id].ts && rows[i].payload == t[rows[i].id].payload)
    && (forall i, j :: 0 <= i < j < |rows| ==> rows[i].id != rows[j].id && rows[i].ts <= rows[j].ts)
    && |rows| <= 500
    && (forall u :: 0 <= u < |t| && t[u].pushedAt == None && (forall i :: 0 <= i < |rows| ==> rows[i].id != u) ==>
          |rows| == 500 && forall i :: 0 <= i < |rows| ==> rows[i].ts <= t[u].ts)
  }

  lemma LeftOut(t: Table, ids: seq<Id>, u: Id)
    requires IsSelection(t, ids) && u in Unpushed(t) && u !in ids
    ensures |ids| == 500
  {
    DistinctCard(ids);
    assert Members(ids) <= Unpushed(t) - {u};
    var rest := Unpushed(t) - {u} - Members(ids);
    assert Unpushed(t) == rest + {u} + Members(ids);
    assert |Unpushed(t)| == |rest| + 1 + |Members(ids)|;
  }

  lemma SelectionIsOldest(t: Table, ids: seq<Id>)
    requires IsSelection(t, ids)
    ensures Oldest500(t, Fetch(t, ids))
  {
    var rows := Fetch(t, ids);
    assert forall i :: 0 <= i < |rows| ==> rows[i] == Stored(t, ids[i]) && ids[i] in Unpushed(t);
    forall u | 0 <= u < |t| && t[u].pushedAt == None && (forall i :: 0 <= i < |rows| ==> rows[i].id != u)
      ensures |rows| == 500 && forall i :: 0 <= i < |rows| ==> rows[i].ts <= t[u].ts
    {
      assert forall i :: 0 <= i < |ids| ==> ids[i] == rows[i].id;
      LeftOut(t, ids, u);
    }
  }

  lemma MarkNothing(t: Table, now: real)
    ensures MarkRows(t, [], now) == t
  {
  }

  class Connection {
    var tables: Triple<Table>

    constructor ()
      ensures tables == Triple([], [], [])
    {
      tables := Triple([], [], []);
    }

    /** Returns the new row's id. */
    method Insert(name: TableName, ts: real, payload: Payload) returns (id: Id)
      modifies this
      ensures tables == old(tables).Set(name, InsertRow(old(tables).Get(name), ts, payload))
      ensures tables.Get(name) == old(tables).Get(name) + [Row(ts, payload, None)]
      ensures id == |old(tables).Get(name)|
    {
      id := |tables.Get(name)|;
      tables := tables.Set(name, InsertRow(tables.Get(name), ts, payload));
    }

    method SelectUnpushed(name: TableName) returns (rows: seq<StoredSample>)
      ensures SelectedFrom(tables.Get(name), rows)
      ensures Oldest500(tables.Get(name), rows)
    {
      var t := tables.Get(name);
      var waiting: seq<Id> := [];
      for i := 0 to |t|
        invariant Distinct(waiting)
        invariant Members(waiting) == set u | 0 <= u < i && t[u].pushedAt.None?
      {
        if t[i].pushedAt.None? {
          assert forall u :: u in waiting ==> u in Members(waiting);
          assert Members(waiting + [i]) == Members(waiting) + {i};
          waiting := waiting + [i];
        }
      }
      var chosen := StableSort(waiting, TimeOf(t))[..Min(BATCH_SIZE, |waiting|)];
      SelectionBySort(t, waiting);
      SelectionIsOldest(t, chosen);
      rows := Fetch(t, chosen);
    }

    method MarkPushed(name: TableName, ids: seq<int>, now: real)
      modifies this
      ensures tables == old(tables).Set(name, MarkRows(old(tables).Get(name), ids, now))
      ensures |tables.Get(name)| == |old(tables).Get(name)|
      ensures forall i :: 0 <= i < |tables.Get(name)| ==>
        var row, row' := old(tables).Get(name)[i], tables.Get(name)[i];
        && row'.ts == row.ts && row'.payload == row.payload
        && row'.pushedAt == if i in ids then Some(now) else row.pushedAt
    {
      if ids == [] {
        MarkNothing(tables.Get(name), now);
        return;
      }
      tables := tables.Set(name, MarkRows(tables.Get(name), ids, now));
    }
  }
}
