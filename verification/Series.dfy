/** Grouping points into series: an insertion-ordered dictionary filled in place, then one
    stable sort per group; and the specification it refines. */
module Series {
  import opened Model
  import opened Seqs
  import opened Sorting

  type PushSample = Sample<real>
  type PushSeries<L> = TimeSeries<L, real>

  /** One emitted value. Grouping only ever compares label sets, so `L` stays abstract. */
  datatype Point<L> = Point(labels: L, sample: PushSample)

  // ----- specification -----

  function Time(s: PushSample): real { s.timestampMs as real }

  /** The samples emitted under one label set, in emission order. */
  function SamplesOf<L(==)>(points: seq<Point<L>>, labels: L): seq<PushSample> {
    if points == [] then []
    else (if points[0].labels == labels then [points[0].sample] else []) + SamplesOf(points[1..], labels)
  }

  /** The label sets in the order of their first emission. */
  function FirstSeen<L(==)>(points: seq<Point<L>>): seq<L> {
    if points == [] then []
    else
      var seen := FirstSeen(points[..|points| - 1]);
      var labels := points[|points| - 1].labels;
      if labels in seen then seen else seen + [labels]
  }

  function Group<L(==)>(points: seq<Point<L>>, labels: L): PushSeries<L> {
    TimeSeries(labels, StableSort(SamplesOf(points, labels), Time))
  }

  function Assemble<L(==)>(points: seq<Point<L>>): seq<PushSeries<L>> {
    Map(FirstSeen(points), labels => Group(points, labels))
  }

  // ----- the dictionary -----

  lemma {:induction false} SamplesOfAppend<L>(a: seq<Point<L>>, b: seq<Point<L>>, labels: L)
    ensures SamplesOf(a + b, labels) == SamplesOf(a, labels) + SamplesOf(b, labels)
  {
    if a == [] {
      assert a + b == b;
    } else {
      var head := if a[0].labels == labels then [a[0].sample] else [];
      SamplesOfAppend(a[1..], b, labels);
      assert (a + b)[0] == a[0] && (a + b)[1..] == a[1..] + b;
      Associative(head, SamplesOf(a[1..], labels), SamplesOf(b, labels));
    }
  }

  lemma SamplesOfParts<L>(a: seq<Point<L>>, b: seq<Point<L>>, c: seq<Point<L>>, labels: L)
    ensures SamplesOf(a + b + c, labels) == SamplesOf(a, labels) + SamplesOf(b, labels) + SamplesOf(c, labels)
  {
    SamplesOfAppend(a + b, c, labels);
    SamplesOfAppend(a, b, labels);
  }

  lemma SamplesOfSnoc<L>(points: seq<Point<L>>, p: Point<L>, labels: L)
    ensures SamplesOf(points + [p], labels) ==
      SamplesOf(points, labels) + (if p.labels == labels then [p.sample] else [])
  {
    SamplesOfAppend(points, [p], labels);
    assert SamplesOf([p][1..], labels) == [];
  }

  /** The dictionary's contents. */
  function Groups<L(==)>(points: seq<Point<L>>): map<L, seq<PushSample>> {
    if points == [] then map[]
    else Appended(Groups(points[..|points| - 1]), points[|points| - 1])
  }

  /** `bucket.setdefault(labels, []).append(sample)`, as a value. */
  function Appended<L(==)>(lists: map<L, seq<PushSample>>, p: Point<L>): map<L, seq<PushSample>> {
    lists[p.labels := (if p.labels in lists then lists[p.labels] else []) + [p.sample]]
  }

  lemma EmittedSnoc<L>(points: seq<Point<L>>, p: Point<L>)
    ensures Groups(points + [p]) == Appended(Groups(points), p)
    ensures FirstSeen(points + [p]) ==
      if p.labels in FirstSeen(points) then FirstSeen(points) else FirstSeen(points) + [p.labels]
  {
    assert (points + [p])[..|points|] == points;
  }

  lemma {:induction false} GroupsKeys<L>(points: seq<Point<L>>, labels: L)
    ensures labels in Groups(points) <==> labels in FirstSeen(points)
  {
    if points != [] {
      var init, p := points[..|points| - 1], points[|points| - 1];
      GroupsKeys(init, labels);
      GroupsKeys(init, p.labels);
    }
  }

  lemma {:induction false} GroupsAre<L>(points: seq<Point<L>>, labels: L)
    ensures SamplesOf(points, labels) == if labels in Groups(points) then Groups(points)[labels] else []
  {
    if points != [] {
      var init, p := points[..|points| - 1], points[|points| - 1];
      GroupsAre(init, labels);
      assert points == init + [p];
      SamplesOfSnoc(init, p, labels);
    }
  }

  /** A dict from label sets to sample lists; Python keeps its keys in insertion order. */
  class Bucket<L(==)> {
    var keys: seq<L>
    var lists: map<L, seq<PushSample>>
    ghost var emitted: seq<Point<L>>

    ghost predicate Valid()
      reads this
    {
      keys == FirstSeen(emitted) && lists == Groups(emitted)
    }

    constructor ()
      ensures Valid() && emitted == []
    {
      keys, lists, emitted := [], map[], [];
    }

    method Emit(p: Point<L>)
      requires Valid()
      modifies this
      ensures Valid() && emitted == old(emitted) + [p]
    {
      EmittedSnoc(emitted, p);
      GroupsKeys(emitted, p.labels);
      if p.labels !in lists {
        keys := keys + [p.labels];
        lists := lists[p.labels := []];
      }
      lists := lists[p.labels := lists[p.labels] + [p.sample]];
      emitted := emitted + [p];
    }

    method EmitRow(points: seq<Point<L>>)
      requires Valid()
      modifies this
      ensures Valid() && emitted == old(emitted) + points
    {
      for j := 0 to |points|
        invariant Valid() && emitted == old(emitted) + points[..j]
      {
        Emit(points[j]);
        assert points[..j + 1] == points[..j] + [points[j]];
      }
      assert points[..|points|] == points;
    }

    /** Every point of every row, in order. */
    method EmitRows<R>(rows: seq<R>, project: R -> seq<Point<L>>)
      requires Valid()
      modifies this
      ensures Valid() && emitted == old(emitted) + Join(Map(rows, project))
    {
      for i := 0 to |rows|
        invariant Valid() && emitted == old(emitted) + Join(Map(rows[..i], project))
      {
        EmitRow(project(rows[i]));
        JoinMapSnoc(rows, i, project);
      }
      assert rows[..|rows|] == rows;
    }

    /** One series per key, its samples sorted by timestamp. */
    method Collect() returns (series: seq<PushSeries<L>>)
      requires Valid()
      ensures series == Assemble(emitted)
    {
      series := [];
      for i := 0 to |keys|
        invariant |series| == i
        invariant forall j :: 0 <= j < i ==> series[j] == Group(emitted, keys[j])
      {
        assert keys[i] in keys;
        GroupsKeys(emitted, keys[i]);
        GroupsAre(emitted, keys[i]);
        series := series + [TimeSeries(keys[i], StableSort(lists[keys[i]], Time))];
      }
    }
  }

  // ----- what the specification means -----

  lemma {:induction false} FirstSeenDistinct<L>(points: seq<Point<L>>)
    ensures Distinct(FirstSeen(points))
    ensures forall labels :: labels in FirstSeen(points) <==> SamplesOf(points, labels) != []
  {
    if points != [] {
      var init, p := points[..|points| - 1], points[|points| - 1];
      FirstSeenDistinct(init);
      assert points == init + [p];
      forall labels {
        SamplesOfSnoc(init, p, labels);
      }
    }
  }

  /** Where a label set is first emitted; the number of points if never. */
  function FirstIndex<L(==)>(points: seq<Point<L>>, labels: L): (i: nat)
    ensures i <= |points|
  {
    if points == [] || points[0].labels == labels then 0 else 1 + FirstIndex(points[1..], labels)
  }

  lemma {:induction false} FirstIndexSnoc<L>(points: seq<Point<L>>, p: Point<L>, labels: L)
    ensures FirstIndex(points, labels) < |points| ==> FirstIndex(points + [p], labels) == FirstIndex(points, labels)
    ensures FirstIndex(points, labels) == |points| && p.labels == labels ==>
      FirstIndex(points + [p], labels) == |points|
    ensures FirstIndex(points, labels) < |points| <==> SamplesOf(points, labels) != []
  {
    if points != [] {
      FirstIndexSnoc(points[1..], p, labels);
      assert (points + [p])[1..] == points[1..] + [p];
    }
  }

  /** Label sets in strictly increasing order of first emission. */
  ghost predicate InOrder<L>(points: seq<Point<L>>, seen: seq<L>) {
    forall i, j :: 0 <= i < j < |seen| ==> FirstIndex(points, seen[i]) < FirstIndex(points, seen[j])
  }

  lemma {:induction false} FirstSeenOrder<L>(points: seq<Point<L>>)
    ensures InOrder(points, FirstSeen(points))
  {
    if points != [] {
      var init, p := points[..|points| - 1], points[|points| - 1];
      var seen := FirstSeen(init);
      FirstSeenOrder(init);
      FirstSeenDistinct(init);
      assert points == init + [p];
      FirstIndexSnoc(init, p, p.labels);
      forall i | 0 <= i < |seen|
        ensures FirstIndex(points, seen[i]) == FirstIndex(init, seen[i]) < |init|
      {
        assert seen[i] in seen;
        assert SamplesOf(init, seen[i]) != [];
        FirstIndexSnoc(init, p, seen[i]);
        assert FirstIndex(init + [p], seen[i]) == FirstIndex(init, seen[i]);
      }
    }
  }

  lemma {:induction false} EmittedSamples<L>(points: seq<Point<L>>, p: Point<L>)
    requires p in points
    ensures p.sample in SamplesOf(points, p.labels)
  {
    if p != points[0] {
      EmittedSamples(points[1..], p);
    }
  }

  /** Distinct label sets, in the order of their first emission, none without samples, and
      every emitted label set among them. */
  lemma AssembleShape<L>(points: seq<Point<L>>)
    ensures var labels := Map(Assemble(points), (ts: PushSeries<L>) => ts.labels);
      Distinct(labels) && InOrder(points, labels) && (forall p :: p in points ==> p.labels in labels)
    ensures forall ts :: ts in Assemble(points) ==> ts.samples != []
  {
    FirstSeenDistinct(points);
    FirstSeenOrder(points);
    assert Map(Assemble(points), (ts: PushSeries<L>) => ts.labels) == FirstSeen(points);
    forall p | p in points ensures p.labels in FirstSeen(points) {
      EmittedSamples(points, p);
    }
    forall ts | ts in Assemble(points) ensures ts.samples != [] {
      assert ts.labels in FirstSeen(points);
    }
  }

  /** A series' samples are sorted, and samples of one millisecond keep their emission
      order. By Sorting.StableUnique nothing else satisfies both. */
  lemma AssembleSamples<L>(points: seq<Point<L>>, i: nat)
    requires i < |Assemble(points)|
    ensures var ts := Assemble(points)[i];
      && Sorted(ts.samples, Time)
      && (forall k :: Sorting.Bucket(ts.samples, Time, k) == Sorting.Bucket(SamplesOf(points, ts.labels), Time, k))
  {
    StableSortCorrect(SamplesOf(points, Assemble(points)[i].labels), Time);
  }

  // ----- conservation -----

  function PointsOf<L>(ts: PushSeries<L>): seq<Point<L>> {
    Map(ts.samples, s => Point(ts.labels, s))
  }

  /** Every point carried by a list of series. */
  function Flatten<L>(series: seq<PushSeries<L>>): seq<Point<L>> {
    Join(Map(series, PointsOf))
  }

  lemma {:induction false} SamplesOfCount<L>(points: seq<Point<L>>, p: Point<L>)
    ensures multiset(SamplesOf(points, p.labels))[p.sample] == multiset(points)[p]
  {
    if points != [] {
      var samples := SamplesOf(points, p.labels);
      SamplesOfCount(points[1..], p);
      CountCons(points, p);
      if points[0].labels == p.labels {
        CountCons(samples, p.sample);
        assert samples[1..] == SamplesOf(points[1..], p.labels);
      }
    }
  }

  lemma {:induction false} MapCount<L>(labels: L, samples: seq<PushSample>, p: Point<L>)
    ensures multiset(Map(samples, s => Point(labels, s)))[p] ==
      if p.labels == labels then multiset(samples)[p.sample] else 0
  {
    if samples != [] {
      var m := Map(samples, s => Point(labels, s));
      MapCount(labels, samples[1..], p);
      CountCons(samples, p.sample);
      CountCons(m, p);
      assert m[1..] == Map(samples[1..], s => Point(labels, s));
    }
  }

  lemma {:induction false} FlattenCount<L>(series: seq<PushSeries<L>>, p: Point<L>)
    requires forall i, j :: 0 <= i < j < |series| ==> series[i].labels != series[j].labels
    ensures (forall i :: 0 <= i < |series| ==> series[i].labels != p.labels) ==> multiset(Flatten(series))[p] == 0
    ensures forall i :: 0 <= i < |series| && series[i].labels == p.labels ==>
      multiset(Flatten(series))[p] == multiset(series[i].samples)[p.sample]
  {
    if series != [] {
      var tail := series[1..];
      FlattenCount(tail, p);
      MapCount(series[0].labels, series[0].samples, p);
      assert Map(series, PointsOf)[1..] == Map(tail, PointsOf);
      assert Flatten(series) == PointsOf(series[0]) + Flatten(tail);
      assert forall i :: 0 <= i < |tail| ==> tail[i] == series[i + 1];
      forall i | 0 <= i < |series| && series[i].labels == p.labels
        ensures multiset(Flatten(series))[p] == multiset(series[i].samples)[p.sample]
      {
        if i > 0 {
          assert series[i] == tail[i - 1];
        }
      }
    }
  }

  lemma AssembledCount<L(!new)>(points: seq<Point<L>>, p: Point<L>)
    ensures multiset(Flatten(Assemble(points)))[p] == multiset(SamplesOf(points, p.labels))[p.sample]
  {
    var out, seen, group := Assemble(points), FirstSeen(points), SamplesOf(points, p.labels);
    FirstSeenDistinct(points);
    assert forall i :: 0 <= i < |out| ==> out[i].labels == seen[i];
    FlattenCount(out, p);
    if p.labels in seen {
      var i :| 0 <= i < |seen| && seen[i] == p.labels;
      StableSortCorrect(group, Time);
      assert out[i].samples == StableSort(group, Time);
    } else {
      assert group == [];
    }
  }

  /** Grouping and sorting lose no point and invent none. */
  lemma Conservation<L(!new)>(points: seq<Point<L>>)
    ensures multiset(Flatten(Assemble(points))) == multiset(points)
  {
    forall p ensures multiset(Flatten(Assemble(points)))[p] == multiset(points)[p] {
      AssembledCount(points, p);
      SamplesOfCount(points, p);
    }
  }

  /** A sample of an assembled series was emitted. */
  lemma SampleEmitted<L(!new)>(points: seq<Point<L>>, ts: PushSeries<L>, s: PushSample)
    requires ts in Assemble(points) && s in ts.samples
    ensures Point(ts.labels, s) in points
  {
    Conservation(points);
    var p := Point(ts.labels, s);
    var i :| 0 <= i < |ts.samples| && ts.samples[i] == s;
    assert PointsOf(ts)[i] == p && p in PointsOf(ts);
    var k :| 0 <= k < |Assemble(points)| && Assemble(points)[k] == ts;
    assert Map(Assemble(points), PointsOf)[k] == PointsOf(ts);
    JoinHas(Map(Assemble(points), PointsOf), p);
    assert p in multiset(Flatten(Assemble(points)));
  }

  // ----- unique timestamps -----

  ghost predicate StrictlyIncreasing(samples: seq<PushSample>) {
    forall i, j :: 0 <= i < j < |samples| ==> samples[i].timestampMs < samples[j].timestampMs
  }

  predicate Apart<L(==)>(p: Point<L>, q: Point<L>) {
    p.labels == q.labels ==> p.sample.timestampMs != q.sample.timestampMs
  }

  /** No label set is emitted twice for one millisecond. */
  ghost predicate NoClash<L>(points: seq<Point<L>>) {
    Pairwise(points, Apart)
  }

  lemma NoClashCons<L>(p: Point<L>, tail: seq<Point<L>>)
    ensures NoClash([p] + tail) <==> NoClash(tail) && forall q :: q in tail ==> Apart(p, q)
  {
    PairwiseAppend([p], tail, Apart);
    assert p in [p];
  }

  ghost predicate Fresh(ms: int, samples: seq<PushSample>) {
    forall s :: s in samples ==> s.timestampMs != ms
  }

  ghost predicate NoRepeat(samples: seq<PushSample>) {
    samples == [] || (Fresh(samples[0].timestampMs, samples[1..]) && NoRepeat(samples[1..]))
  }

  lemma {:induction false} InsertNoRepeat(s: PushSample, samples: seq<PushSample>)
    ensures NoRepeat(Insert(s, samples, Time)) <==> NoRepeat(samples) && Fresh(s.timestampMs, samples)
  {
    if samples == [] || Time(s) <= Time(samples[0]) {
      assert ([s] + samples)[1..] == samples;
    } else {
      var head, tail := samples[0], samples[1..];
      InsertNoRepeat(s, tail);
      InsertContents(s, tail, Time);
      var inserted := Insert(s, tail, Time);
      forall x ensures x in inserted <==> x == s || x in tail {
        assert x in inserted <==> x in multiset(inserted);
      }
      assert s in inserted;
      assert samples == [head] + tail;
      assert ([head] + inserted)[1..] == inserted;
    }
  }

  lemma {:induction false} SortNoRepeat(samples: seq<PushSample>)
    ensures NoRepeat(StableSort(samples, Time)) <==> NoRepeat(samples)
  {
    if samples != [] {
      var tail := samples[1..];
      var sorted := StableSort(tail, Time);
      SortNoRepeat(tail);
      InsertNoRepeat(samples[0], sorted);
      StableSortCorrect(tail, Time);
      assert forall x :: (x in sorted <==> x in multiset(sorted)) && (x in tail <==> x in multiset(tail));
    }
  }

  lemma {:induction false} SortedStrict(samples: seq<PushSample>)
    requires Sorted(samples, Time)
    ensures StrictlyIncreasing(samples) <==> NoRepeat(samples)
  {
    if samples != [] {
      var head, tail := samples[0], samples[1..];
      assert Sorted(tail, Time);
      SortedStrict(tail);
      assert forall i :: 1 <= i < |samples| ==>
        samples[i] == tail[i - 1] && samples[i] in tail && Time(head) <= Time(samples[i]);
      if StrictlyIncreasing(samples) {
        assert StrictlyIncreasing(tail);
        assert Fresh(head.timestampMs, tail);
      }
    }
  }

  lemma {:induction false} SamplesOfFresh<L>(points: seq<Point<L>>, labels: L, ms: int)
    ensures Fresh(ms, SamplesOf(points, labels)) <==>
      (forall q :: q in points && q.labels == labels ==> q.sample.timestampMs != ms)
  {
    if points != [] {
      var head, tail := points[0], points[1..];
      SamplesOfFresh(tail, labels, ms);
      assert points == [head] + tail;
      assert forall s :: s in SamplesOf(points, labels) <==>
        s in SamplesOf(tail, labels) || (head.labels == labels && s == head.sample);
    }
  }

  ghost predicate GroupUnique<L>(points: seq<Point<L>>, labels: L) {
    NoRepeat(SamplesOf(points, labels))
  }

  lemma {:induction false} NoClashPerLabel<L>(points: seq<Point<L>>)
    ensures NoClash(points) <==> forall labels :: GroupUnique(points, labels)
  {
    if points != [] {
      var p, tail := points[0], points[1..];
      NoClashPerLabel(tail);
      NoClashCons(p, tail);
      assert points == [p] + tail;
      var group := SamplesOf(tail, p.labels);
      SamplesOfFresh(tail, p.labels, p.sample.timestampMs);
      assert SamplesOf(points, p.labels) == [p.sample] + group;
      assert ([p.sample] + group)[1..] == group;
      forall labels | labels != p.labels ensures SamplesOf(points, labels) == SamplesOf(tail, labels) {
      }
      assert Fresh(p.sample.timestampMs, group) <==> forall q :: q in tail ==> Apart(p, q);
      assert GroupUnique(points, p.labels) <==> Fresh(p.sample.timestampMs, group) && GroupUnique(tail, p.labels);
      forall labels | labels != p.labels ensures GroupUnique(points, labels) <==> GroupUnique(tail, labels) {
      }
      if forall labels :: GroupUnique(points, labels) {
        forall labels ensures GroupUnique(tail, labels) {
          assert GroupUnique(points, labels);
        }
      }
    }
  }

  lemma GroupStrict<L>(points: seq<Point<L>>, labels: L)
    ensures StrictlyIncreasing(StableSort(SamplesOf(points, labels), Time)) <==> GroupUnique(points, labels)
  {
    var group := SamplesOf(points, labels);
    StableSortCorrect(group, Time);
    SortedStrict(StableSort(group, Time));
    SortNoRepeat(group);
  }

  /** The promise "unique per timestamp": it is kept exactly when no label set was emitted
      twice for one millisecond, because sorting does not remove duplicates. */
  lemma StrictlyIncreasingIff<L>(points: seq<Point<L>>)
    ensures (forall ts :: ts in Assemble(points) ==> StrictlyIncreasing(ts.samples)) <==> NoClash(points)
  {
    var out := Assemble(points);
    FirstSeenDistinct(points);
    NoClashPerLabel(points);
    if forall ts :: ts in out ==> StrictlyIncreasing(ts.samples) {
      forall labels ensures GroupUnique(points, labels) {
        if labels in FirstSeen(points) {
          var i :| 0 <= i < |FirstSeen(points)| && FirstSeen(points)[i] == labels;
          assert out[i] in out;
          GroupStrict(points, labels);
        }
      }
    }
    if NoClash(points) {
      forall ts | ts in out ensures StrictlyIncreasing(ts.samples) {
        GroupStrict(points, ts.labels);
        assert GroupUnique(points, ts.labels);
      }
    }
  }
}
