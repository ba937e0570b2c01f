/** Base 128 varints: the encoder's loop, a reader written from the Protocol Buffers
    encoding specification (section "Base 128 Varints"), and the laws connecting them. */
module Varint {
  import opened Options
  import opened Seqs

  type Byte = b: int | 0 <= b < 256
  type Bytes = seq<Byte>

  /** What the encoder's loop leaves in its buffer. `n & 0x7F` is `n % 128`, setting the
      high bit of a 7-bit value adds 128, and `n >> 7` is `n / 128`. */
  function Encode(n: int): (out: Bytes)
    ensures |out| >= 1
    decreases if n > 0x7F then n else 0
  {
    if n > 0x7F then [n % 128 + 128] + Encode(n / 128) else [n % 128]
  }

  method EncodeLoop(n: int) returns (out: Bytes)
    ensures out == Encode(n)
  {
    var m := n;
    out := [];
    while m > 0x7F
      invariant out + Encode(m) == Encode(n)
      decreases if m > 0x7F then m else 0
    {
      out := out + [m % 128 + 128];
      m := m / 128;
    }
    out := out + [m % 128];
  }

  /** Reads one varint; the result pairs its value with the unread bytes. */
  function Read(bs: Bytes): (r: Option<(nat, Bytes)>)
    ensures r.Some? ==> |r.value.1| < |bs| && bs[|bs| - |r.value.1|..] == r.value.1
  {
    if bs == [] then None
    else if bs[0] < 128 then Some((bs[0], bs[1..]))
    else
      match Read(bs[1..])
      case None => None
      case Some((n, rest)) => Some((bs[0] - 128 + 128 * n, rest))
  }

  /** Reading what was written gives the number back and stops exactly behind it. */
  lemma {:induction false} RoundTrip(n: nat, rest: Bytes)
    ensures Read(Encode(n) + rest) == Some((n, rest))
    decreases n
  {
    if n > 0x7F {
      RoundTrip(n / 128, rest);
      ReadMore(n % 128 + 128, Encode(n / 128) + rest, n / 128, rest);
      Associative([n % 128 + 128], Encode(n / 128), rest);
    } else {
      assert ([n] + rest)[1..] == rest;
    }
  }

  lemma ReadMore(b: Byte, tail: Bytes, n: nat, rest: Bytes)
    requires b >= 128 && Read(tail) == Some((n, rest))
    ensures Read([b] + tail) == Some((b - 128 + 128 * n, rest))
  {
    assert ([b] + tail)[1..] == tail;
  }

  /** No encoding is a proper prefix of another, so a stream of varints splits one way. */
  lemma PrefixFree(m: nat, n: nat, restM: Bytes, restN: Bytes)
    requires Encode(m) + restM == Encode(n) + restN
    ensures m == n && restM == restN
  {
    RoundTrip(m, restM);
    RoundTrip(n, restN);
  }

  function Pow128(k: nat): (p: nat)
    ensures p >= 1
  {
    if k == 0 then 1 else 128 * Pow128(k - 1)
  }

  /** `k` bytes suffice exactly for the numbers below 128^k, so the length is
      max(1, ceil(bit length / 7)). */
  lemma {:induction false} Width(n: nat, k: nat)
    requires k >= 1
    ensures |Encode(n)| <= k <==> n < Pow128(k)
    decreases k
  {
    if n > 0x7F {
      if k == 1 {
        assert Pow128(1) == 128 * Pow128(0);
      } else {
        Width(n / 128, k - 1);
      }
    }
  }

  /** Every byte but the last carries the continuation bit; the last one does not, and is
      zero for the number zero only. */
  lemma {:induction false} Shape(n: nat)
    ensures var bs := Encode(n);
      && (forall i :: 0 <= i < |bs| - 1 ==> bs[i] >= 128)
      && bs[|bs| - 1] < 128
      && (bs[|bs| - 1] == 0 <==> n == 0)
    decreases n
  {
    if n > 0x7F {
      Shape(n / 128);
    }
  }

  /** The encoding is the shortest: whatever bytes a reader turns into `n`, there are at
      least as many of them. */
  lemma {:induction false} Shortest(n: nat, bs: Bytes, rest: Bytes)
    requires Read(bs) == Some((n, rest))
    ensures |Encode(n)| <= |bs| - |rest|
    decreases |bs|
  {
    if bs[0] < 128 {
    } else {
      var (m, r) := Read(bs[1..]).value;
      Shortest(m, bs[1..], r);
      if n > 0x7F {
        assert n / 128 == m;
      }
    }
  }

  // ----- int64 -----

  const TWO_63: int := 0x8000_0000_0000_0000
  const TWO_64: int := 0x1_0000_0000_0000_0000

  ghost predicate IsInt64(v: int) { -TWO_63 <= v < TWO_63 }

  /** The payload of an int64 field: a negative number is shifted up by 2^64 first. */
  function EncodeInt64(v: int): Bytes {
    Encode(Unsigned(v))
  }

  function Unsigned(v: int): int {
    if v < 0 then v + TWO_64 else v
  }

  /** Section "Signed Integers": the low 64 bits, read as two's complement. */
  function ToInt64(n: nat): (v: int)
    ensures IsInt64(v)
  {
    var low := n % TWO_64;
    if low < TWO_63 then low else low - TWO_64
  }

  /** A timestamp survives the trip exactly when it is an int64. */
  lemma Int64RoundTrip(v: int, rest: Bytes)
    ensures IsInt64(v) <==>
      (match Read(EncodeInt64(v) + rest)
       case Some((n, r)) => ToInt64(n) == v && r == rest
       case None => false)
  {
    var n := Unsigned(v);
    if n >= 0 {
      RoundTrip(n, rest);
    }
  }

  /** A negative int64 always takes ten bytes, any other at most nine. */
  lemma Int64Width(v: int)
    requires IsInt64(v)
    ensures v < 0 ==> |EncodeInt64(v)| == 10
    ensures v >= 0 ==> |EncodeInt64(v)| <= 9
  {
    assert Pow128(9) == TWO_63 by {
      assert Pow128(3) == 128 * (128 * (128 * Pow128(0)));
      assert Pow128(6) == 128 * (128 * (128 * Pow128(3)));
      assert Pow128(9) == 128 * (128 * (128 * Pow128(6)));
    }
    var n := Unsigned(v);
    Width(n, 9);
    Width(n, 10);
  }
}
