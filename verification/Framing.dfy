/** Messages as concatenated parts: joining them, and splitting them again with a reader
    that takes one part off the front. Nothing here depends on what a part looks like. */
module Framing {
  import opened Options
  import opened Seqs
  import opened Varint

  type Reader<!F> = Bytes -> Option<(F, Bytes)>

  /** Reads parts until no byte is left. A reader that takes nothing off is stopped. */
  function Split<F>(bs: Bytes, read: Reader<F>): Option<seq<F>>
    decreases |bs|
  {
    if bs == [] then Some([])
    else
      match read(bs)
      case None => None
      case Some((f, rest)) =>
        if |rest| >= |bs| then None
        else
          match Split(rest, read)
          case None => None
          case Some(fs) => Some([f] + fs)
  }

  /** `bs` is read as `front`, and then as whatever `rest` is read as. */
  ghost predicate ReadsAs<F>(bs: Bytes, front: seq<F>, rest: Bytes, read: Reader<F>) {
    Split(bs, read) == match Split(rest, read) case None => None case Some(fs) => Some(front + fs)
  }

  lemma ReadsAsCons<F>(bs: Bytes, f: F, mid: Bytes, front: seq<F>, rest: Bytes, read: Reader<F>)
    requires read(bs) == Some((f, mid)) && |mid| < |bs|
    requires ReadsAs(mid, front, rest, read)
    ensures ReadsAs(bs, [f] + front, rest, read)
  {
    match Split(rest, read)
    case None =>
    case Some(fs) => assert [f] + (front + fs) == [f] + front + fs;
  }

  lemma ReadsAsNil<F>(rest: Bytes, read: Reader<F>)
    ensures ReadsAs(rest, [], rest, read)
  {
    match Split(rest, read)
    case None =>
    case Some(fs) => assert [] + fs == fs;
  }

  /** Whatever follows it, `part` is read off the front as `field`. */
  ghost predicate Reads<F>(part: Bytes, field: F, read: Reader<F>) {
    part != [] && forall tail :: read(part + tail) == Some((field, tail))
  }

  /** Splitting the join of parts gives the parts back. */
  lemma {:induction false} SplitJoin<F>(parts: seq<Bytes>, fields: seq<F>, rest: Bytes, read: Reader<F>)
    requires |parts| == |fields|
    requires forall i :: 0 <= i < |parts| ==> Reads(parts[i], fields[i], read)
    ensures ReadsAs(Join(parts) + rest, fields, rest, read)
  {
    var bs := Join(parts) + rest;
    if parts == [] {
      assert bs == rest && fields == [];
      ReadsAsNil(rest, read);
    } else {
      var mid := Join(parts[1..]) + rest;
      assert bs == parts[0] + mid;
      SplitJoin(parts[1..], fields[1..], rest, read);
      ReadsAsCons(bs, fields[0], mid, fields[1..], rest, read);
      assert fields == [fields[0]] + fields[1..];
    }
  }

  lemma SplitAll<F>(parts: seq<Bytes>, fields: seq<F>, read: Reader<F>)
    requires |parts| == |fields|
    requires forall i :: 0 <= i < |parts| ==> Reads(parts[i], fields[i], read)
    ensures Split(Join(parts), read) == Some(fields)
  {
    SplitJoin(parts, fields, [], read);
    assert Join(parts) + [] == Join(parts);
    assert fields + [] == fields;
  }
}
