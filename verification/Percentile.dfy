/** The linear-interpolated percentile and the ping aggregate, in exact arithmetic. */
module Percentile {
  import opened Options
  import opened Seqs
  import opened Sorting

  datatype Result = Ok(value: real) | ValueError | IndexError

  function Self(x: real): real { x }

  function Ceil(x: real): int { -((-x).Floor) }

  /** `s[i]`, which also accepts -|s| .. -1. */
  function At(s: seq<real>, i: int): Option<real> {
    if 0 <= i < |s| then Some(s[i])
    else if -|s| <= i < 0 then Some(s[|s| + i])
    else None
  }

  function Position(n: nat, pct: real): real {
    (n - 1) as real * (pct / 100.0)
  }

  function Percentile(values: seq<real>, pct: real): Result {
    if values == [] then ValueError
    else Read(StableSort(values, Self), Position(|values|, pct))
  }

  /** The point a fraction `f` of the way from `a` to `b`. */
  function Between(a: real, b: real, f: real): real {
    a + (b - a) * f
  }

  /** The sorted values at position `k`: an element, or a point between two of them. */
  function Read(s: seq<real>, k: real): Result {
    var lo, hi := k.Floor, Ceil(k);
    match (At(s, lo), At(s, hi))
    case (Some(a), Some(b)) => if lo == hi then Ok(a) else Ok(Between(a, b, k - lo as real))
    case _ => IndexError
  }

  // ----- interpolation between sorted values -----

  ghost predicate IsPosition(s: seq<real>, k: real) {
    s != [] && 0.0 <= k <= (|s| - 1) as real
  }

  /** The height at `k` of the polygon through (i, s[i]). */
  function Interpolate(s: seq<real>, k: real): real
    requires IsPosition(s, k)
  {
    var lo := k.Floor;
    if lo == |s| - 1 then s[lo] else Between(s[lo], s[lo + 1], k - lo as real)
  }

  lemma ReadInterpolates(s: seq<real>, k: real)
    requires IsPosition(s, k)
    ensures Read(s, k) == Ok(Interpolate(s, k))
  {
    var lo, hi := k.Floor, Ceil(k);
    if lo as real == k {
      assert hi == lo;
      if lo < |s| - 1 {
        BetweenStart(s[lo], s[lo + 1]);
      }
    } else {
      assert hi == lo + 1;
    }
  }

  lemma PositionInRange(n: nat, pct: real)
    requires n > 0 && 0.0 <= pct <= 100.0
    ensures 0.0 <= Position(n, pct) <= (n - 1) as real
  {
    Fraction((n - 1) as real, pct / 100.0);
  }

  lemma PercentileInterpolates(values: seq<real>, pct: real)
    requires values != [] && 0.0 <= pct <= 100.0
    ensures IsPosition(StableSort(values, Self), Position(|values|, pct))
    ensures Percentile(values, pct) == Ok(Interpolate(StableSort(values, Self), Position(|values|, pct)))
  {
    PositionInRange(|values|, pct);
    ReadInterpolates(StableSort(values, Self), Position(|values|, pct));
  }

  /** A fraction of a non-negative length lies between 0 and the length. */
  lemma Fraction(d: real, f: real)
    requires d >= 0.0 && 0.0 <= f <= 1.0
    ensures 0.0 <= d * f <= d
  {
  }

  lemma Steeper(d: real, f: real, g: real)
    requires d >= 0.0 && f <= g
    ensures d * f <= d * g
  {
  }

  lemma BetweenStart(a: real, b: real)
    ensures Between(a, b, 0.0) == a
  {
  }

  lemma BetweenBounds(a: real, b: real, f: real)
    requires a <= b && 0.0 <= f <= 1.0
    ensures a <= Between(a, b, f) <= b
  {
    var d := b - a;
    Fraction(d, f);
    assert Between(a, b, f) == a + d * f;
  }

  lemma BetweenMonotone(a: real, b: real, f: real, g: real)
    requires a <= b && f <= g
    ensures Between(a, b, f) <= Between(a, b, g)
  {
    Steeper(b - a, f, g);
  }

  lemma BetweenMirror(a: real, b: real, f: real)
    ensures Between(-b, -a, 1.0 - f) == -Between(a, b, f)
  {
  }

  /** Moving both ends up moves the point between them up. */
  lemma BetweenRises(a: real, b: real, c: real, d: real, f: real)
    requires a <= c && b <= d && 0.0 <= f <= 1.0
    ensures Between(a, b, f) <= Between(c, d, f)
  {
    Fraction(c - a, 1.0 - f);
    Fraction(d - b, f);
    assert Between(c, d, f) - Between(a, b, f) == (c - a) * (1.0 - f) + (d - b) * f;
  }

  lemma Neighbours(s: seq<real>, i: nat, j: nat)
    requires Sorted(s, Self) && i <= j < |s|
    ensures s[i] <= s[j]
  {
    assert i < j ==> Self(s[i]) <= Self(s[j]);
  }

  lemma SegmentBounds(s: seq<real>, k: real)
    requires IsPosition(s, k) && Sorted(s, Self)
    ensures s[k.Floor] <= Interpolate(s, k)
    ensures k.Floor < |s| - 1 ==> Interpolate(s, k) <= s[k.Floor + 1]
  {
    var lo := k.Floor;
    if lo < |s| - 1 {
      Neighbours(s, lo, lo + 1);
      BetweenBounds(s[lo], s[lo + 1], k - lo as real);
    }
  }

  lemma InterpolateMonotone(s: seq<real>, j: real, k: real)
    requires IsPosition(s, j) && IsPosition(s, k) && Sorted(s, Self) && j <= k
    ensures Interpolate(s, j) <= Interpolate(s, k)
  {
    var lo, hi := j.Floor, k.Floor;
    if lo == hi {
      if lo < |s| - 1 {
        Neighbours(s, lo, lo + 1);
        BetweenMonotone(s[lo], s[lo + 1], j - lo as real, k - lo as real);
      }
    } else {
      SegmentBounds(s, j);
      SegmentBounds(s, k);
      Neighbours(s, lo + 1, hi);
    }
  }

  // ----- properties -----

  /** The percentile is a number between the smallest and the largest input: whatever bounds
      all the inputs bounds it too. */
  lemma Bounded(values: seq<real>, pct: real, low: real, high: real)
    requires values != [] && 0.0 <= pct <= 100.0
    requires forall v :: v in values ==> low <= v <= high
    ensures Percentile(values, pct).Ok? && low <= Percentile(values, pct).value <= high
  {
    var s := StableSort(values, Self);
    var k := Position(|values|, pct);
    StableSortCorrect(values, Self);
    PercentileInterpolates(values, pct);
    SegmentBounds(s, k);
    forall i | 0 <= i < |s| ensures low <= s[i] <= high {
      assert s[i] in multiset(s);
      assert s[i] in multiset(values);
      assert s[i] in values;
    }
  }

  /** Where `pct` percent of the way along m + 1 values is, in terms of the percentage. */
  lemma PositionBounds(n: nat, m: real, pct: real, k: int)
    requires n > 0 && m == (n - 1) as real
    ensures k as real <= Position(n, pct) <==> 100.0 * k as real <= pct * m
    ensures Position(n, pct) <= k as real <==> pct * m <= 100.0 * k as real
  {
    Scaled(Position(n, pct), pct * m, k as real);
    Hundredths(m, pct);
  }

  lemma Hundredths(m: real, pct: real)
    ensures 100.0 * (m * (pct / 100.0)) == pct * m
  {
    assert 100.0 * (pct / 100.0) == pct;
    Regroup(100.0, m, pct / 100.0);
  }

  lemma Regroup(a: real, b: real, c: real)
    ensures a * (b * c) == (a * c) * b
  {
  }

  lemma Scaled(x: real, y: real, k: real)
    ensures 100.0 * x == y ==> (k <= x <==> 100.0 * k <= y) && (x <= k <==> y <= 100.0 * k)
  {
  }

  /** Where `pct` percent of the way along the sorted inputs is exactly the k-th of them, the
      percentile is that order statistic: at most `x` exactly when more than k of the inputs are. */
  lemma IntegralPosition(values: seq<real>, m: real, pct: real, k: nat, x: real)
    requires values != [] && m == (|values| - 1) as real && 0.0 <= pct <= 100.0 && pct * m == 100.0 * k as real
    ensures Percentile(values, pct).Ok?
    ensures Percentile(values, pct).value <= x <==> CountLe(values, Self, x) >= k + 1
  {
    PositionBounds(|values|, m, pct, k);
    PositionInRange(|values|, pct);
    AtInteger(values, pct, k, x);
  }

  lemma AtInteger(values: seq<real>, pct: real, k: nat, x: real)
    requires values != [] && 0.0 <= pct <= 100.0 && Position(|values|, pct) == k as real
    ensures Percentile(values, pct).Ok?
    ensures Percentile(values, pct).value <= x <==> CountLe(values, Self, x) >= k + 1
  {
    PercentileInterpolates(values, pct);
    OrderStatistic(values, Self, k, x);
    var s := StableSort(values, Self);
    if k < |s| - 1 {
      BetweenStart(s[k], s[k + 1]);
    }
  }

  // ----- linear between the order statistics -----

  /** The segment's formula holds at both of its ends too. */
  lemma OnSegment(s: seq<real>, x: real, k: nat, a: real, d: real, y: real)
    requires k + 1 < |s| && k as real <= x <= (k + 1) as real
    requires a == s[k] && d == s[k + 1] - s[k] && y == x - k as real
    ensures IsPosition(s, x) && Interpolate(s, x) == a + d * y
  {
    if x == (k + 1) as real {
      assert x.Floor == k + 1 && y == 1.0;
      assert d * y == d;
      if k + 2 < |s| {
        BetweenStart(s[k + 1], s[k + 2]);
      }
    } else {
      assert x.Floor == k;
    }
  }

  lemma ReadOnSegment(s: seq<real>, x: real, k: nat, a: real, d: real, y: real)
    requires k + 1 < |s| && k as real <= x <= (k + 1) as real
    requires a == s[k] && d == s[k + 1] - s[k] && y == x - k as real
    ensures Read(s, x) == Ok(a + d * y)
  {
    OnSegment(s, x, k, a, d, y);
    ReadInterpolates(s, x);
  }

  lemma Within(pos: real, at: real, k: nat)
    requires 100.0 * pos == at && 100.0 * k as real <= at <= 100.0 * (k + 1) as real
    ensures k as real <= pos <= (k + 1) as real
  {
  }

  lemma PositionIs(n: nat, m: real, pct: real, pos: real, at: real)
    requires n > 0 && m == (n - 1) as real && pos == Position(n, pct) && at == pct * m
    ensures 100.0 * pos == at
  {
    Hundredths(m, pct);
  }

  /** The place x past k, as a function of the percentage. */
  lemma Line(a: real, d: real, m: real, k: real, pct: real, at: real, x: real, base: real, slope: real)
    requires at == pct * m && 100.0 * (x + k) == at && base == a - d * k && slope == d * (m / 100.0)
    ensures a + d * x == base + slope * pct
  {
    assert x == (m / 100.0) * pct - k;
    Expand(d, (m / 100.0) * pct, k);
    Reorder(d, m / 100.0, pct);
  }

  lemma Expand(d: real, y: real, k: real)
    ensures d * (y - k) == d * y - d * k
  {
  }

  lemma Reorder(d: real, c: real, pct: real)
    ensures d * (c * pct) == (d * c) * pct
  {
  }

  /** At the percentages from the k-th input to the next, in sorted order, the percentile is
      base + slope * pct. Out of m + 1 inputs the k-th is at the percentage 100 k / m. */
  ghost predicate AffineOn(values: seq<real>, m: real, k: nat, base: real, slope: real) {
    forall pct: real :: 100.0 * k as real <= pct * m <= 100.0 * (k + 1) as real ==>
      Percentile(values, pct) == Ok(base + slope * pct)
  }

  lemma OnLine(values: seq<real>, s: seq<real>, m: real, k: nat, pct: real, pos: real, a: real, d: real, x: real,
               base: real, slope: real)
    requires k + 1 < |values| && s == StableSort(values, Self) && pos == Position(|values|, pct)
    requires k as real <= pos <= (k + 1) as real && a == s[k] && d == s[k + 1] - s[k] && x == pos - k as real
    requires a + d * x == base + slope * pct
    ensures Percentile(values, pct) == Ok(base + slope * pct)
  {
    ReadOnSegment(s, pos, k, a, d, x);
  }

  lemma PlaceOf(n: nat, m: real, k: nat, pct: real, at: real) returns (pos: real)
    requires n > 0 && m == (n - 1) as real
    requires at == pct * m && 100.0 * k as real <= at <= 100.0 * (k + 1) as real
    ensures pos == Position(n, pct) && 100.0 * pos == at && k as real <= pos <= (k + 1) as real
  {
    pos := Position(n, pct);
    PositionIs(n, m, pct, pos, at);
    Within(pos, at, k);
  }

  lemma LineAt(m: real, k: nat, pct: real, pos: real, at: real, a: real, d: real, base: real, slope: real)
    returns (x: real)
    requires at == pct * m && 100.0 * pos == at && base == a - d * k as real && slope == d * (m / 100.0)
    ensures x == pos - k as real && a + d * x == base + slope * pct
  {
    x := pos - k as real;
    Line(a, d, m, k as real, pct, at, x, base, slope);
  }

  lemma AffineAt(values: seq<real>, s: seq<real>, m: real, k: nat, pct: real, at: real, a: real, d: real,
                 base: real, slope: real)
    requires k + 1 < |values| && m == (|values| - 1) as real && s == StableSort(values, Self)
    requires at == pct * m && 100.0 * k as real <= at <= 100.0 * (k + 1) as real
    requires a == s[k] && d == s[k + 1] - s[k] && base == a - d * k as real && slope == d * (m / 100.0)
    ensures Percentile(values, pct) == Ok(base + slope * pct)
  {
    var pos := PlaceOf(|values|, m, k, pct, at);
    var x := LineAt(m, k, pct, pos, at, a, d, base, slope);
    OnLine(values, s, m, k, pct, pos, a, d, x, base, slope);
  }

  /** Linear interpolation: between two neighbours in sorted order the percentile is an affine
      function of the percentage, ends included. */
  lemma LinearBetween(values: seq<real>, m: real, k: nat)
    requires k + 1 < |values| && m == (|values| - 1) as real
    ensures exists base: real, slope: real :: AffineOn(values, m, k, base, slope)
  {
    var s := StableSort(values, Self);
    var a, d := s[k], s[k + 1] - s[k];
    var base, slope := a - d * k as real, d * (m / 100.0);
    forall pct: real | 100.0 * k as real <= pct * m <= 100.0 * (k + 1) as real
      ensures Percentile(values, pct) == Ok(base + slope * pct)
    {
      AffineAt(values, s, m, k, pct, pct * m, a, d, base, slope);
    }
    assert AffineOn(values, m, k, base, slope);
  }

  /** No inputs are an error, and so is a percentage above 100 unless there is one input only. */
  lemma PercentileErrors(values: seq<real>, pct: real)
    ensures Percentile(values, pct) == ValueError <==> values == []
    ensures |values| >= 2 && pct > 100.0 ==> Percentile(values, pct) == IndexError
    ensures |values| == 1 ==> Percentile(values, pct) == Ok(values[0])
  {
    if |values| >= 2 && pct > 100.0 {
      var m := (|values| - 1) as real;
      Above(m, pct);
      PositionBounds(|values|, m, pct, |values| - 1);
      ReadAbove(StableSort(values, Self), Position(|values|, pct));
    }
    if |values| == 1 {
      SingleInput(values, pct);
    }
  }

  lemma ReadAbove(s: seq<real>, x: real)
    requires x > (|s| - 1) as real && s != []
    ensures Read(s, x) == IndexError
  {
    assert Ceil(x) >= |s|;
  }

  lemma SingleInput(values: seq<real>, pct: real)
    requires |values| == 1
    ensures Percentile(values, pct) == Ok(values[0])
  {
    assert values[1..] == [];
    assert StableSort(values[1..], Self) == [];
    assert Position(1, pct) == 0.0;
  }

  lemma Above(m: real, pct: real)
    requires m > 0.0 && pct > 100.0
    ensures pct * m > 100.0 * m
  {
  }

  lemma PositionMonotone(n: nat, p: real, q: real)
    requires n > 0 && p <= q
    ensures Position(n, p) <= Position(n, q)
  {
    Steeper((n - 1) as real, p / 100.0, q / 100.0);
  }

  /** A higher percentage never gives a smaller percentile. */
  lemma MonotoneInPct(values: seq<real>, p: real, q: real)
    requires values != [] && 0.0 <= p <= q <= 100.0
    ensures Percentile(values, p).Ok? && Percentile(values, q).Ok?
    ensures Percentile(values, p).value <= Percentile(values, q).value
  {
    StableSortCorrect(values, Self);
    PercentileInterpolates(values, p);
    PercentileInterpolates(values, q);
    PositionMonotone(|values|, p, q);
    InterpolateMonotone(StableSort(values, Self), Position(|values|, p), Position(|values|, q));
  }

  /** Larger inputs never give a smaller percentile. */
  lemma MonotoneInValues(a: seq<real>, b: seq<real>, pct: real)
    requires a != [] && |a| == |b| && 0.0 <= pct <= 100.0
    requires forall i :: 0 <= i < |a| ==> a[i] <= b[i]
    ensures Percentile(a, pct).Ok? && Percentile(b, pct).Ok?
    ensures Percentile(a, pct).value <= Percentile(b, pct).value
  {
    PercentileInterpolates(a, pct);
    PercentileInterpolates(b, pct);
    var s, t := StableSort(a, Self), StableSort(b, Self);
    forall i | 0 <= i < |s| ensures s[i] <= t[i] {
      SortMonotone(a, b, Self, i);
    }
    InterpolateRises(s, t, Position(|a|, pct));
  }

  lemma InterpolateRises(s: seq<real>, t: seq<real>, k: real)
    requires IsPosition(s, k) && |s| == |t| && forall i :: 0 <= i < |s| ==> s[i] <= t[i]
    ensures Interpolate(s, k) <= Interpolate(t, k)
  {
    var lo := k.Floor;
    if lo < |s| - 1 {
      BetweenRises(s[lo], s[lo + 1], t[lo], t[lo + 1], k - lo as real);
    }
  }

  function Copies(k: real, n: nat): seq<real> {
    if n == 0 then [] else [k] + Copies(k, n - 1)
  }

  lemma {:induction false} BucketOfEqual(xs: seq<real>, k: real)
    ensures Sorting.Bucket(xs, Self, k) == Copies(k, multiset(xs)[k])
  {
    if xs != [] {
      BucketOfEqual(xs[1..], k);
      CountCons(xs, k);
    }
  }

  lemma SortedUnique(a: seq<real>, b: seq<real>)
    requires Sorted(a, Self) && Sorted(b, Self) && multiset(a) == multiset(b)
    ensures a == b
  {
    forall k ensures Sorting.Bucket(a, Self, k) == Sorting.Bucket(b, Self, k) {
      BucketOfEqual(a, k);
      BucketOfEqual(b, k);
    }
    StableUnique(a, b, Self);
  }

  /** The order of the inputs does not matter. */
  lemma PermutationInvariant(a: seq<real>, b: seq<real>, pct: real)
    requires multiset(a) == multiset(b)
    ensures Percentile(a, pct) == Percentile(b, pct)
  {
    StableSortCorrect(a, Self);
    StableSortCorrect(b, Self);
    SortedUnique(StableSort(a, Self), StableSort(b, Self));
    assert |a| == |StableSort(a, Self)| && |b| == |StableSort(b, Self)|;
  }

  // ----- mirror symmetry -----

  function Neg(x: real): real { -x }

  function Mirror(s: seq<real>): (r: seq<real>)
    ensures |r| == |s|
  {
    seq(|s|, i requires 0 <= i < |s| => -s[|s| - 1 - i])
  }

  lemma {:induction false} MirrorCount(s: seq<real>, x: real)
    ensures multiset(Mirror(s))[x] == multiset(s)[-x]
  {
    if s != [] {
      MirrorCount(s[1..], x);
      CountCons(s, -x);
      assert Mirror(s) == Mirror(s[1..]) + [-s[0]];
    }
  }

  lemma {:induction false} NegCount(s: seq<real>, x: real)
    ensures multiset(Map(s, Neg))[x] == multiset(s)[-x]
  {
    if s != [] {
      NegCount(s[1..], x);
      CountCons(s, -x);
      CountCons(Map(s, Neg), x);
      assert Map(s, Neg)[1..] == Map(s[1..], Neg);
    }
  }

  lemma SortOfNegated(values: seq<real>)
    ensures StableSort(Map(values, Neg), Self) == Mirror(StableSort(values, Self))
  {
    var s := StableSort(values, Self);
    StableSortCorrect(values, Self);
    StableSortCorrect(Map(values, Neg), Self);
    forall x ensures multiset(Mirror(s))[x] == multiset(Map(values, Neg))[x] {
      MirrorCount(s, x);
      NegCount(values, x);
    }
    forall i, j | 0 <= i < j < |s| ensures Self(Mirror(s)[i]) <= Self(Mirror(s)[j]) {
      assert Self(s[|s| - 1 - j]) <= Self(s[|s| - 1 - i]);
    }
    assert multiset(Mirror(s)) == multiset(Map(values, Neg));
    SortedUnique(StableSort(Map(values, Neg), Self), Mirror(s));
  }

  lemma InterpolateMirror(s: seq<real>, k: real)
    requires IsPosition(s, k)
    ensures Interpolate(Mirror(s), (|s| - 1) as real - k) == -Interpolate(s, k)
  {
    var n, lo := |s|, k.Floor;
    var k' := (n - 1) as real - k;
    if k == lo as real {
      assert k'.Floor == n - 1 - lo;
      if lo < n - 1 {
        BetweenStart(s[lo], s[lo + 1]);
      }
      if k'.Floor < n - 1 {
        BetweenStart(Mirror(s)[k'.Floor], Mirror(s)[k'.Floor + 1]);
      }
    } else {
      assert k'.Floor == n - 2 - lo;
      var a, b, f := s[lo], s[lo + 1], k - lo as real;
      assert Mirror(s)[k'.Floor] == -b && Mirror(s)[k'.Floor + 1] == -a;
      BetweenMirror(a, b, f);
      assert k' - k'.Floor as real == 1.0 - f;
    }
  }

  lemma PositionMirror(n: nat, pct: real)
    ensures Position(n, 100.0 - pct) == (n - 1) as real - Position(n, pct)
  {
    var m, f := (n - 1) as real, pct / 100.0;
    assert (100.0 - pct) / 100.0 == 1.0 - f;
    assert m * (1.0 - f) == m - m * f;
  }

  lemma ReadMirror(s: seq<real>, k: real)
    requires IsPosition(s, k)
    ensures Read(s, k).Ok? && Read(Mirror(s), (|s| - 1) as real - k) == Ok(-Read(s, k).value)
  {
    ReadInterpolates(s, k);
    ReadInterpolates(Mirror(s), (|s| - 1) as real - k);
    InterpolateMirror(s, k);
  }

  /** Mirrored inputs at the mirrored percentage give the mirrored percentile. */
  lemma Symmetric(values: seq<real>, pct: real)
    requires values != [] && 0.0 <= pct <= 100.0
    ensures Percentile(values, pct).Ok?
    ensures Percentile(Map(values, Neg), 100.0 - pct) == Ok(-Percentile(values, pct).value)
  {
    PositionInRange(|values|, pct);
    PositionMirror(|values|, pct);
    SortOfNegated(values);
    ReadMirror(StableSort(values, Self), Position(|values|, pct));
  }

  // ----- the ping aggregate -----

  datatype PingHost = PingHost(rtts: seq<real>, loss: real)

  datatype Aggregate = Aggregate(p50: Option<real>, p95: Option<real>, lossPct: real)

  function PercentileOf(values: seq<real>, pct: real): Option<real> {
    match Percentile(values, pct) case Ok(v) => Some(v) case _ => None
  }

  /** Pools the round trips of all targets and keeps the worst loss. A target is None if
      pinging it raises, and then so does the aggregate. */
  method PingAggregate(hosts: seq<Option<PingHost>>) returns (r: Option<Aggregate>)
    ensures r.Some? <==> forall i :: 0 <= i < |hosts| ==> hosts[i].Some?
    ensures r.Some? ==>
      var pooled := Join(Map(hosts, (h: Option<PingHost>) => if h.Some? then h.value.rtts else []));
      && (r.value.p50.None? <==> pooled == []) && (r.value.p95.None? <==> pooled == [])
      && r.value.p50 == PercentileOf(pooled, 50.0) && r.value.p95 == PercentileOf(pooled, 95.0)
      && (pooled != [] ==> r.value.p50.value <= r.value.p95.value)
    ensures r.Some? ==>
      && r.value.lossPct >= 0.0
      && (forall i :: 0 <= i < |hosts| ==> hosts[i].value.loss * 100.0 <= r.value.lossPct)
      && (r.value.lossPct == 0.0 || exists i :: 0 <= i < |hosts| && r.value.lossPct == hosts[i].value.loss * 100.0)
  {
    ghost var rttsOf := (h: Option<PingHost>) => if h.Some? then h.value.rtts else [];
    var pooled: seq<real> := [];
    var worst := 0.0;
    for i := 0 to |hosts|
      invariant forall j :: 0 <= j < i ==> hosts[j].Some?
      invariant pooled == Join(Map(hosts[..i], rttsOf))
      invariant worst >= 0.0 && forall j :: 0 <= j < i ==> hosts[j].value.loss <= worst
      invariant worst == 0.0 || exists j :: 0 <= j < i && worst == hosts[j].value.loss
    {
      if hosts[i].None? {
        return None;
      }
      pooled := pooled + hosts[i].value.rtts;
      JoinMapSnoc(hosts, i, rttsOf);
      if hosts[i].value.loss > worst {
        worst := hosts[i].value.loss;
      }
    }
    assert hosts[..|hosts|] == hosts;
    if pooled != [] {
      MonotoneInPct(pooled, 50.0, 95.0);
    }
    return Some(Aggregate(PercentileOf(pooled, 50.0), PercentileOf(pooled, 95.0), worst * 100.0));
  }
}
