/** What Python's string methods do to nmcli's output, and what an entry of the merged list can be. */
module ResolverLines {
  import opened Options
  import opened Seqs
  import opened Resolvers

  // ----- whitespace and lines -----

  /** In ASCII, lines break at codes 10 to 13 and 28 to 30, and blanks are these, 9, 31 and 32. */
  lemma AsciiBlanks(c: char)
    requires c as int < 128
    ensures IsBreak(c) <==> 10 <= c as int <= 13 || 28 <= c as int <= 30
    ensures IsSpace(c) <==> 9 <= c as int <= 13 || 28 <= c as int <= 32
  {
  }

  ghost predicate Blank(s: string) {
    forall i :: 0 <= i < |s| ==> IsSpace(s[i])
  }

  ghost predicate Trimmed(s: string) {
    s == [] || (!IsSpace(s[0]) && !IsSpace(s[|s| - 1]))
  }

  lemma {:induction false} LeftPart(s: string) returns (a: string)
    ensures s == a + StripLeft(s) && Blank(a) && (StripLeft(s) == [] || !IsSpace(StripLeft(s)[0]))
  {
    if s != [] && IsSpace(s[0]) {
      var b := LeftPart(s[1..]);
      a := [s[0]] + b;
      assert s == [s[0]] + s[1..];
    } else {
      a := [];
    }
  }

  lemma {:induction false} RightPart(s: string) returns (b: string)
    ensures s == StripRight(s) + b && Blank(b)
    ensures StripRight(s) == [] || !IsSpace(StripRight(s)[|StripRight(s)| - 1])
  {
    if s != [] && IsSpace(s[|s| - 1]) {
      var last := |s| - 1;
      var c := RightPart(s[..last]);
      b := c + [s[last]];
      assert s == s[..last] + [s[last]];
    } else {
      b := [];
    }
  }

  /** Stripping takes off blanks at both ends and nothing else, and leaves none there. */
  lemma StripCorrect(s: string)
    ensures Trimmed(Strip(s)) && exists a, b :: s == a + Strip(s) + b && Blank(a) && Blank(b)
  {
    var a := LeftPart(s);
    var b := RightPart(StripLeft(s));
    assert Strip(s) != [] ==> Strip(s)[0] == StripLeft(s)[0];
    Associative(a, Strip(s), b);
    assert s == a + Strip(s) + b && Blank(a) && Blank(b);
  }

  lemma FirstBreakIs(s: string)
    ensures forall i :: 0 <= i < FirstBreak(s) ==> !IsBreak(s[i])
    ensures FirstBreak(s) < |s| ==> IsBreak(s[FirstBreak(s)])
  {
  }

  function WithoutBreaks(s: string): string {
    if s == [] then [] else (if IsBreak(s[0]) then [] else [s[0]]) + WithoutBreaks(s[1..])
  }

  lemma {:induction false} WithoutBreaksAppend(a: string, b: string)
    ensures WithoutBreaks(a + b) == WithoutBreaks(a) + WithoutBreaks(b)
  {
    if a == [] {
      assert a + b == b;
    } else {
      var head := if IsBreak(a[0]) then [] else [a[0]];
      WithoutBreaksAppend(a[1..], b);
      assert (a + b)[0] == a[0] && (a + b)[1..] == a[1..] + b;
      Associative(head, WithoutBreaks(a[1..]), WithoutBreaks(b));
    }
  }

  lemma {:induction false} NothingToDrop(s: string)
    requires forall i :: 0 <= i < |s| ==> !IsBreak(s[i])
    ensures WithoutBreaks(s) == s
  {
    if s != [] {
      NothingToDrop(s[1..]);
    }
  }

  lemma {:induction false} NothingKept(s: string)
    requires forall i :: 0 <= i < |s| ==> IsBreak(s[i])
    ensures WithoutBreaks(s) == []
  {
    if s != [] {
      NothingKept(s[1..]);
    }
  }

  lemma DropMiddle(a: string, b: string, c: string)
    requires OneLine(a) && forall i :: 0 <= i < |b| ==> IsBreak(b[i])
    ensures WithoutBreaks(a + (b + c)) == a + WithoutBreaks(c)
  {
    NothingToDrop(a);
    NothingKept(b);
    WithoutBreaksAppend(a, b + c);
    WithoutBreaksAppend(b, c);
    assert [] + WithoutBreaks(c) == WithoutBreaks(c);
  }

  lemma CutTwice(s: string, i: nat, skip: nat)
    requires i <= skip <= |s|
    ensures s == s[..i] + (s[i..skip] + s[skip..])
  {
  }

  lemma DropBreak(s: string, i: nat, skip: nat)
    requires i <= skip <= |s|
    requires (forall j :: 0 <= j < i ==> !IsBreak(s[j])) && forall j :: i <= j < skip ==> IsBreak(s[j])
    ensures WithoutBreaks(s) == s[..i] + WithoutBreaks(s[skip..])
  {
    CutTwice(s, i, skip);
    DropMiddle(s[..i], s[i..skip], s[skip..]);
  }

  ghost predicate OneLine(line: string) {
    forall i :: 0 <= i < |line| ==> !IsBreak(line[i])
  }

  lemma LinesCons(line: string, lines: seq<string>)
    ensures Join([line] + lines) == line + Join(lines)
    ensures OneLine(line) && (forall l :: l in lines ==> OneLine(l)) ==> forall l :: l in [line] + lines ==> OneLine(l)
  {
    assert ([line] + lines)[1..] == lines;
  }

  /** How long the first line is together with the break behind it. */
  function LineEnd(s: string): (skip: nat)
    requires s != []
    ensures FirstBreak(s) <= skip <= |s| && skip > 0
  {
    var i := FirstBreak(s);
    if i == |s| then i else if s[i] == '\r' && i + 1 < |s| && s[i + 1] == '\n' then i + 2 else i + 1
  }

  lemma SplitNext(s: string)
    requires s != []
    ensures SplitLines(s) == [s[..FirstBreak(s)]] + SplitLines(s[LineEnd(s)..])
  {
  }

  lemma BreaksBetween(s: string)
    requires s != []
    ensures forall j :: 0 <= j < FirstBreak(s) ==> !IsBreak(s[j])
    ensures forall j :: FirstBreak(s) <= j < LineEnd(s) ==> IsBreak(s[j])
  {
    FirstBreakIs(s);
    assert IsBreak('\n');
  }

  /** Splitting into lines takes out the line breaks and nothing else. */
  lemma {:induction false} LinesRejoin(s: string)
    ensures Join(SplitLines(s)) == WithoutBreaks(s) && forall line :: line in SplitLines(s) ==> OneLine(line)
    decreases |s|
  {
    if s != [] {
      var i, skip := FirstBreak(s), LineEnd(s);
      SplitNext(s);
      BreaksBetween(s);
      LinesRejoin(s[skip..]);
      DropBreak(s, i, skip);
      LinesCons(s[..i], SplitLines(s[skip..]));
    }
  }

  /** The key is what stands before the first colon, the value all that follows it. */
  lemma {:induction false} PartitionIff(s: string, key: string, value: string)
    ensures Partition(s) == Some((key, value)) <==> s == key + ":" + value && ':' !in key
  {
    if s == key + ":" + value && ':' !in key {
      PartitionAt(key, value);
    }
    if Partition(s) == Some((key, value)) {
      PartitionSplits(s);
    }
  }

  lemma {:induction false} PartitionSplits(s: string)
    ensures match Partition(s)
      case None => ':' !in s
      case Some((key, value)) => s == key + ":" + value && ':' !in key
  {
    if s != [] && s[0] != ':' {
      PartitionSplits(s[1..]);
      assert s == [s[0]] + s[1..];
      match Partition(s[1..])
      case None =>
      case Some((key, value)) =>
        assert [s[0]] + (key + ":" + value) == [s[0]] + key + ":" + value;
    } else if s != [] {
      assert s == [] + ":" + s[1..];
    }
  }

  /** What makes a line an entry: stripped, it is a key without a colon, a colon and a value that,
      unescaped and stripped, is not empty. */
  lemma ParseLineIff(line: string, r: Resolver)
    ensures ParseLine(line) == Some(r) <==>
      exists key, raw :: IsField(Strip(line), key, raw) && r.ip == Strip(Unescape(raw)) && r.ip != ""
        && r.family == (if "IP6" <= key then "v6" else "v4") && r.source == "handed"
  {
    match Partition(Strip(line)) {
      case None =>
        forall key, raw ensures !IsField(Strip(line), key, raw) {
          PartitionIff(Strip(line), key, raw);
        }
      case Some((k, v)) =>
        PartitionIff(Strip(line), k, v);
        assert IsField(Strip(line), k, v);
        forall key, raw | IsField(Strip(line), key, raw) ensures key == k && raw == v {
          PartitionIff(Strip(line), key, raw);
        }
    }
  }

  ghost predicate IsField(line: string, key: string, raw: string) {
    line == key + ":" + raw && ':' !in key
  }

  // ----- where the entries come from -----

  lemma {:induction false} EntriesFrom(lines: seq<string>, r: Resolver)
    ensures r in Entries(lines) <==> exists i :: 0 <= i < |lines| && ParseLine(lines[i]) == Some(r)
  {
    if lines != [] {
      var tail := lines[1..];
      EntriesFrom(tail, r);
      if i :| 0 <= i < |tail| && ParseLine(tail[i]) == Some(r) {
        assert ParseLine(lines[i + 1]) == Some(r);
      }
      if i :| 1 <= i < |lines| && ParseLine(lines[i]) == Some(r) {
        assert ParseLine(tail[i - 1]) == Some(r);
      }
    }
  }

  lemma {:induction false} KeptFrom(rs: seq<Resolver>, r: Resolver)
    requires r in FirstByIp(rs)
    ensures r in rs
  {
    var init, last := rs[..|rs| - 1], rs[|rs| - 1];
    assert rs == init + [last];
    if r in FirstByIp(init) {
      KeptFrom(init, r);
    }
  }

  /** Every handed resolver is the entry of some line of the output. */
  lemma HandedFromLines(output: string, r: Resolver)
    requires r in Handed(output)
    ensures exists i :: 0 <= i < |SplitLines(output)| && ParseLine(SplitLines(output)[i]) == Some(r)
  {
    KeptFrom(Entries(SplitLines(output)), r);
    EntriesFrom(SplitLines(output), r);
  }

  /** Every entry of the merged list was handed out, or is a reference server, marked as one and with
      the family that a colon in its address tells. */
  lemma MergedFrom(handed: seq<Resolver>, reference: seq<string>, r: Resolver)
    requires r in Merged(handed, reference)
    ensures r in handed ||
      (r.ip in reference && r.source == "reference" && r.family == if ':' in r.ip then "v6" else "v4")
  {
    KeptFrom(handed + Map(reference, Reference), r);
    if r !in handed {
      var i :| 0 <= i < |reference| && Map(reference, Reference)[i] == r;
      assert r.ip == reference[i];
    }
  }
}
