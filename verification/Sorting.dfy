/** Python's `sorted(xs, key=...)`: a stable sort, what pins it down, and its order statistics. */
module Sorting {
  ghost predicate Sorted<T>(xs: seq<T>, key: T -> real) {
    forall i, j :: 0 <= i < j < |xs| ==> key(xs[i]) <= key(xs[j])
  }

  /** The elements with key `k`, in order. */
  function Bucket<T>(xs: seq<T>, key: T -> real, k: real): seq<T> {
    if xs == [] then []
    else (if key(xs[0]) == k then [xs[0]] else []) + Bucket(xs[1..], key, k)
  }

  function Insert<T>(x: T, xs: seq<T>, key: T -> real): (r: seq<T>)
    ensures |r| == |xs| + 1
  {
    if xs == [] || key(x) <= key(xs[0]) then [x] + xs
    else [xs[0]] + Insert(x, xs[1..], key)
  }

  function StableSort<T>(xs: seq<T>, key: T -> real): (r: seq<T>)
    ensures |r| == |xs|
  {
    if xs == [] then [] else Insert(xs[0], StableSort(xs[1..], key), key)
  }

  lemma {:induction false} InsertContents<T>(x: T, xs: seq<T>, key: T -> real)
    ensures multiset(Insert(x, xs, key)) == multiset{x} + multiset(xs)
  {
    if xs == [] || key(x) <= key(xs[0]) {
    } else {
      InsertContents(x, xs[1..], key);
      assert xs == [xs[0]] + xs[1..];
    }
  }

  lemma {:induction false} InsertSorted<T>(x: T, xs: seq<T>, key: T -> real)
    requires Sorted(xs, key)
    ensures Sorted(Insert(x, xs, key), key)
  {
    if xs == [] || key(x) <= key(xs[0]) {
    } else {
      InsertSorted(x, xs[1..], key);
      InsertContents(x, xs[1..], key);
      var tail := Insert(x, xs[1..], key);
      forall j | 0 <= j < |tail| ensures key(xs[0]) <= key(tail[j]) {
        assert tail[j] in multiset(tail);
      }
    }
  }

  lemma {:induction false} InsertBucket<T>(x: T, xs: seq<T>, key: T -> real, k: real)
    ensures Bucket(Insert(x, xs, key), key, k) == Bucket([x] + xs, key, k)
  {
    assert ([x] + xs)[1..] == xs;
    if xs == [] || key(x) <= key(xs[0]) {
    } else {
      InsertBucket(x, xs[1..], key, k);
      assert ([x] + xs[1..])[1..] == xs[1..];
    }
  }

  lemma BucketCons<T>(x: T, xs: seq<T>, key: T -> real, k: real)
    ensures Bucket([x] + xs, key, k) == (if key(x) == k then [x] else []) + Bucket(xs, key, k)
  {
    assert ([x] + xs)[1..] == xs;
  }

  lemma {:induction false} SortBucket<T>(xs: seq<T>, key: T -> real, k: real)
    ensures Bucket(StableSort(xs, key), key, k) == Bucket(xs, key, k)
  {
    if xs != [] {
      SortBucket(xs[1..], key, k);
      InsertBucket(xs[0], StableSort(xs[1..], key), key, k);
      BucketCons(xs[0], StableSort(xs[1..], key), key, k);
    }
  }

  lemma {:induction false} SortContents<T>(xs: seq<T>, key: T -> real)
    ensures Sorted(StableSort(xs, key), key) && multiset(StableSort(xs, key)) == multiset(xs)
  {
    if xs != [] {
      SortContents(xs[1..], key);
      InsertSorted(xs[0], StableSort(xs[1..], key), key);
      InsertContents(xs[0], StableSort(xs[1..], key), key);
      assert xs == [xs[0]] + xs[1..];
    }
  }

  /** The result is sorted, has the same elements, and keeps the order of equal keys. */
  lemma StableSortCorrect<T>(xs: seq<T>, key: T -> real)
    ensures Sorted(StableSort(xs, key), key)
    ensures multiset(StableSort(xs, key)) == multiset(xs)
    ensures forall k :: Bucket(StableSort(xs, key), key, k) == Bucket(xs, key, k)
  {
    SortContents(xs, key);
    forall k {
      SortBucket(xs, key, k);
    }
  }

  lemma {:induction false} BucketHas<T>(xs: seq<T>, key: T -> real, i: nat)
    requires i < |xs|
    ensures Bucket(xs, key, key(xs[i])) != []
  {
    if i > 0 {
      BucketHas(xs[1..], key, i - 1);
    }
  }

  lemma {:induction false} BucketFrom<T>(xs: seq<T>, key: T -> real, k: real)
    ensures Bucket(xs, key, k) != [] ==> exists i :: 0 <= i < |xs| && key(xs[i]) == k
  {
    if xs != [] && key(xs[0]) != k {
      BucketFrom(xs[1..], key, k);
      if Bucket(xs[1..], key, k) != [] {
        var i :| 0 <= i < |xs[1..]| && key(xs[1..][i]) == k;
        assert key(xs[i + 1]) == k;
      }
    }
  }

  /** Sortedness and the order of equal keys leave no freedom: this is the only outcome
      of a stable sort. */
  lemma {:induction false} StableUnique<T>(a: seq<T>, b: seq<T>, key: T -> real)
    requires Sorted(a, key) && Sorted(b, key)
    requires forall k :: Bucket(a, key, k) == Bucket(b, key, k)
    ensures a == b
  {
    if b != [] {
      BucketHas(b, key, 0);
    }
    if a != [] {
      BucketHas(a, key, 0);
      BucketFrom(b, key, key(a[0]));
      BucketFrom(a, key, key(b[0]));
      assert key(a[0]) == key(b[0]);
      assert a[0] == Bucket(a, key, key(a[0]))[0] == Bucket(b, key, key(a[0]))[0] == b[0];
      forall k ensures Bucket(a[1..], key, k) == Bucket(b[1..], key, k) {
        assert Bucket(a, key, k) == Bucket(b, key, k);
        var head := if key(a[0]) == k then [a[0]] else [];
        assert (head + Bucket(a[1..], key, k))[|head|..] == Bucket(a[1..], key, k);
        assert (head + Bucket(b[1..], key, k))[|head|..] == Bucket(b[1..], key, k);
      }
      StableUnique(a[1..], b[1..], key);
    }
  }

  // ----- order statistics -----

  /** How many elements have a key of at most `x`. */
  function CountLe<T>(xs: seq<T>, key: T -> real, x: real): nat {
    if xs == [] then 0 else (if key(xs[0]) <= x then 1 else 0) + CountLe(xs[1..], key, x)
  }

  lemma {:induction false} CountInsert<T>(v: T, xs: seq<T>, key: T -> real, x: real)
    ensures CountLe(Insert(v, xs, key), key, x) == (if key(v) <= x then 1 else 0) + CountLe(xs, key, x)
  {
    if xs == [] || key(v) <= key(xs[0]) {
      assert ([v] + xs)[1..] == xs;
    } else {
      CountInsert(v, xs[1..], key, x);
    }
  }

  lemma {:induction false} CountSort<T>(xs: seq<T>, key: T -> real, x: real)
    ensures CountLe(StableSort(xs, key), key, x) == CountLe(xs, key, x)
  {
    if xs != [] {
      CountSort(xs[1..], key, x);
      CountInsert(xs[0], StableSort(xs[1..], key), key, x);
    }
  }

  lemma {:induction false} CountSorted<T>(xs: seq<T>, key: T -> real, i: nat, x: real)
    requires Sorted(xs, key) && i < |xs|
    ensures key(xs[i]) <= x <==> CountLe(xs, key, x) >= i + 1
  {
    if key(xs[0]) > x {
      CountNone(xs, key, x);
    } else if i > 0 {
      CountSorted(xs[1..], key, i - 1, x);
    }
  }

  lemma {:induction false} CountNone<T>(xs: seq<T>, key: T -> real, x: real)
    requires forall i :: 0 <= i < |xs| ==> key(xs[i]) > x
    ensures CountLe(xs, key, x) == 0
  {
    if xs != [] {
      CountNone(xs[1..], key, x);
    }
  }

  /** The i-th smallest key is at most `x` iff more than `i` of the inputs are. */
  lemma OrderStatistic<T>(xs: seq<T>, key: T -> real, i: nat, x: real)
    requires i < |xs|
    ensures key(StableSort(xs, key)[i]) <= x <==> CountLe(xs, key, x) >= i + 1
  {
    StableSortCorrect(xs, key);
    CountSort(xs, key, x);
    CountSorted(StableSort(xs, key), key, i, x);
  }

  /** Sorting preserves pointwise order. */
  lemma SortMonotone<T>(a: seq<T>, b: seq<T>, key: T -> real, i: nat)
    requires |a| == |b| && i < |a|
    requires forall j :: 0 <= j < |a| ==> key(a[j]) <= key(b[j])
    ensures key(StableSort(a, key)[i]) <= key(StableSort(b, key)[i])
  {
    var x := key(StableSort(b, key)[i]);
    OrderStatistic(b, key, i, x);
    CountMonotone(a, b, key, x);
    OrderStatistic(a, key, i, x);
  }

  lemma {:induction false} CountMonotone<T>(a: seq<T>, b: seq<T>, key: T -> real, x: real)
    requires |a| == |b|
    requires forall j :: 0 <= j < |a| ==> key(a[j]) <= key(b[j])
    ensures CountLe(a, key, x) >= CountLe(b, key, x)
  {
    if a != [] {
      assert forall j :: 0 <= j < |a| - 1 ==> a[1..][j] == a[j + 1] && b[1..][j] == b[j + 1];
      CountMonotone(a[1..], b[1..], key, x);
    }
  }
}
