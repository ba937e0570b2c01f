/** What an accepted POST leaves at the remote end. */
module Delivery {
  import opened Seqs
  import opened Series
  import opened Rows

  /** One value for each of the three tables. */
  datatype TableName = ModemTable | ProbeTable | MtrTable

  datatype Triple<T> = Triple(modem: T, probe: T, mtr: T) {
    function Get(name: TableName): T {
      match name
      case ModemTable => modem
      case ProbeTable => probe
      case MtrTable => mtr
    }

    function Set(name: TableName, value: T): (r: Triple<T>)
      ensures r.Get(name) == value
      ensures forall other :: other != name ==> r.Get(other) == Get(other)
    {
      match name
      case ModemTable => this.(modem := value)
      case ProbeTable => this.(probe := value)
      case MtrTable => this.(mtr := value)
    }
  }

  type Batch = Triple<seq<StoredSample>>

  type Remote = multiset<RowPoint>

  function SeriesOf(batch: Batch): seq<RowSeries> {
    BuildSeries(batch.modem, batch.probe, batch.mtr)
  }

  /** Every sample carried by the batch's series. */
  ghost function Carried(batch: Batch): Remote {
    multiset(Flatten(SeriesOf(batch)))
  }

  /** The remote has accepted every sample the row projects to. */
  ghost predicate Delivered(remote: Remote, row: StoredSample) {
    multiset(RowPoints(row)) <= remote
  }

  lemma DeliveredMonotone(remote: Remote, more: Remote, row: StoredSample)
    requires Delivered(remote, row)
    ensures Delivered(remote + more, row)
  {
  }

  lemma DeliveredLate(remote: Remote, more: Remote, row: StoredSample)
    requires Delivered(more, row)
    ensures Delivered(remote + more, row)
  {
  }

  lemma {:induction false} JoinContains<T>(parts: seq<seq<T>>, i: nat)
    requires i < |parts|
    ensures multiset(parts[i]) <= multiset(Join(parts))
  {
    if i > 0 {
      JoinContains(parts[1..], i - 1);
    }
  }

  lemma TableContains(rows: seq<StoredSample>, row: StoredSample)
    requires row in rows
    ensures multiset(RowPoints(row)) <= multiset(TablePoints(rows))
  {
    var i :| 0 <= i < |rows| && rows[i] == row;
    JoinContains(Map(rows, RowPoints), i);
  }

  lemma CarriedIs(batch: Batch)
    ensures Carried(batch) == multiset(AllPoints(batch.modem, batch.probe, batch.mtr))
  {
    Conservation(AllPoints(batch.modem, batch.probe, batch.mtr));
  }

  lemma PartOf<T>(a: seq<T>, b: seq<T>, c: seq<T>)
    ensures multiset(a) <= multiset(a + b + c) && multiset(b) <= multiset(a + b + c) &&
      multiset(c) <= multiset(a + b + c)
  {
    assert multiset(a + b + c) == multiset(a) + multiset(b) + multiset(c);
  }

  lemma CarriedTable(batch: Batch, name: TableName)
    ensures multiset(TablePoints(batch.Get(name))) <= Carried(batch)
  {
    CarriedIs(batch);
    PartOf(TablePoints(batch.modem), TablePoints(batch.probe), TablePoints(batch.mtr));
  }

  lemma NonEmptyPart<T>(part: seq<T>, whole: multiset<T>)
    requires multiset(part) <= whole && part != []
    ensures whole != multiset{}
  {
    assert part[0] in multiset(part);
  }

  /** A POST of a batch carries every sample of every row aboard, and there is one to make
      as soon as some row aboard projects to a sample. */
  lemma CarriedRow(batch: Batch, name: TableName, row: StoredSample)
    requires row in batch.Get(name)
    ensures Delivered(Carried(batch), row)
    ensures RowPoints(row) != [] ==> SeriesOf(batch) != []
  {
    CarriedTable(batch, name);
    TableContains(batch.Get(name), row);
    if RowPoints(row) != [] {
      NonEmptyPart(RowPoints(row), Carried(batch));
    }
  }
}
