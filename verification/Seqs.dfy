/** Sequences: mapping, joining, and freedom from repetition. */
module Seqs {
  function Map<T, U>(items: seq<T>, f: T -> U): (r: seq<U>)
    ensures |r| == |items| && forall i :: 0 <= i < |items| ==> r[i] == f(items[i])
  {
    seq(|items|, i requires 0 <= i < |items| => f(items[i]))
  }

  function Join<T>(parts: seq<seq<T>>): seq<T> {
    if parts == [] then [] else parts[0] + Join(parts[1..])
  }

  lemma Associative<T>(a: seq<T>, b: seq<T>, c: seq<T>)
    ensures a + (b + c) == (a + b) + c
  {
  }

  lemma {:induction false} JoinAppend<T>(a: seq<seq<T>>, b: seq<seq<T>>)
    ensures Join(a + b) == Join(a) + Join(b)
  {
    if a == [] {
      assert a + b == b;
    } else {
      JoinAppend(a[1..], b);
      assert (a + b)[0] == a[0] && (a + b)[1..] == a[1..] + b;
      Associative(a[0], Join(a[1..]), Join(b));
    }
  }

  lemma JoinSnoc<T>(a: seq<seq<T>>, x: seq<T>)
    ensures Join(a + [x]) == Join(a) + x
  {
    JoinAppend(a, [x]);
    assert Join([x]) == x + Join([]);
  }

  lemma {:induction false} JoinHas<T>(parts: seq<seq<T>>, x: T)
    ensures x in Join(parts) <==> exists i :: 0 <= i < |parts| && x in parts[i]
  {
    if parts != [] {
      JoinHas(parts[1..], x);
      if x in Join(parts[1..]) {
        var i :| 0 <= i < |parts[1..]| && x in parts[1..][i];
        assert x in parts[i + 1];
      }
      if i :| 1 <= i < |parts| && x in parts[i] {
        assert x in parts[1..][i - 1];
      }
    }
  }

  lemma JoinMapSnoc<T, U>(items: seq<T>, i: nat, f: T -> seq<U>)
    requires i < |items|
    ensures Join(Map(items[..i + 1], f)) == Join(Map(items[..i], f)) + f(items[i])
  {
    assert Map(items[..i + 1], f) == Map(items[..i], f) + [f(items[i])];
    JoinSnoc(Map(items[..i], f), f(items[i]));
  }

  lemma CountCons<T>(xs: seq<T>, x: T)
    requires xs != []
    ensures multiset(xs)[x] == (if xs[0] == x then 1 else 0) + multiset(xs[1..])[x]
  {
    assert xs == [xs[0]] + xs[1..];
  }

  ghost predicate Distinct<T>(xs: seq<T>) {
    forall i, j :: 0 <= i < j < |xs| ==> xs[i] != xs[j]
  }

  /** Every element stands in `rel` to every later one. */
  ghost predicate Pairwise<T>(xs: seq<T>, rel: (T, T) -> bool) {
    forall i, j :: 0 <= i < j < |xs| ==> rel(xs[i], xs[j])
  }

  ghost predicate Across<T>(a: seq<T>, b: seq<T>, rel: (T, T) -> bool) {
    forall x, y :: x in a && y in b ==> rel(x, y)
  }

  lemma PairwiseAppend<T>(a: seq<T>, b: seq<T>, rel: (T, T) -> bool)
    ensures Pairwise(a + b, rel) <==> Pairwise(a, rel) && Pairwise(b, rel) && Across(a, b, rel)
  {
    var all := a + b;
    if Pairwise(all, rel) {
      forall i, j | 0 <= i < j < |a| ensures rel(a[i], a[j]) {
        assert rel(all[i], all[j]);
      }
      forall i, j | 0 <= i < j < |b| ensures rel(b[i], b[j]) {
        assert rel(all[|a| + i], all[|a| + j]);
      }
      forall x, y | x in a && y in b ensures rel(x, y) {
        var i :| 0 <= i < |a| && a[i] == x;
        var j :| 0 <= j < |b| && b[j] == y;
        assert rel(all[i], all[|a| + j]);
      }
    }
  }

  lemma AcrossJoin<T>(head: seq<T>, parts: seq<seq<T>>, rel: (T, T) -> bool)
    ensures Across(head, Join(parts), rel) <==> forall b :: b in parts ==> Across(head, b, rel)
  {
    if Across(head, Join(parts), rel) {
      forall b, x, y | b in parts && x in head && y in b ensures rel(x, y) {
        JoinHas(parts, y);
      }
    }
    if forall b :: b in parts ==> Across(head, b, rel) {
      forall x, y | x in head && y in Join(parts) ensures rel(x, y) {
        JoinHas(parts, y);
        var i :| 0 <= i < |parts| && y in parts[i];
        assert parts[i] in parts;
      }
    }
  }

  lemma {:induction false} PairwiseJoin<T>(parts: seq<seq<T>>, rel: (T, T) -> bool)
    ensures Pairwise(Join(parts), rel) <==>
      (forall i :: 0 <= i < |parts| ==> Pairwise(parts[i], rel)) && Pairwise(parts, (a, b) => Across(a, b, rel))
  {
    if parts != [] {
      var head, tail := parts[0], parts[1..];
      PairwiseJoin(tail, rel);
      PairwiseAppend(head, Join(tail), rel);
      PairwiseAppend([head], tail, (a, b) => Across(a, b, rel));
      AcrossJoin(head, tail, rel);
      assert parts == [head] + tail;
      assert forall i :: 0 <= i < |tail| ==> tail[i] == parts[i + 1];
    }
  }
}
