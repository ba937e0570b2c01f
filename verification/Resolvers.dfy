/** The resolvers a probe queries: parsing nmcli's terse output, and merging with the
    reference servers. */
module Resolvers {
  import opened Options
  import opened Seqs
  import Metrics

  // ----- Python's string methods -----

  /** Characters at which `splitlines` breaks. */
  predicate IsBreak(c: char) {
    c == '\n' || c == '\r' || c == '\U{0B}' || c == '\U{0C}' || c == '\U{1C}' || c == '\U{1D}' || c == '\U{1E}'
    || c == '\U{85}' || c == '\U{2028}' || c == '\U{2029}'
  }

  /** Characters that `strip` removes. */
  predicate IsSpace(c: char) {
    IsBreak(c) || c == ' ' || c == '\t' || c == '\U{1F}' || c == '\U{A0}' || c == '\U{1680}'
    || '\U{2000}' <= c <= '\U{200A}' || c == '\U{202F}' || c == '\U{205F}' || c == '\U{3000}'
  }

  function FirstBreak(s: string): (i: nat)
    ensures i <= |s|
  {
    if s == [] || IsBreak(s[0]) then 0 else 1 + FirstBreak(s[1..])
  }

  function SplitLines(s: string): seq<string>
    decreases |s|
  {
    if s == [] then []
    else
      var i := FirstBreak(s);
      var skip := if i == |s| then i else if s[i] == '\r' && i + 1 < |s| && s[i + 1] == '\n' then i + 2 else i + 1;
      if skip == 0 then [] else [s[..i]] + SplitLines(s[skip..])
  }

  function StripLeft(s: string): string {
    if s != [] && IsSpace(s[0]) then StripLeft(s[1..]) else s
  }

  function StripRight(s: string): string {
    if s != [] && IsSpace(s[|s| - 1]) then StripRight(s[..|s| - 1]) else s
  }

  function Strip(s: string): string {
    StripRight(StripLeft(s))
  }

  /** `s.partition(":")`, or None without a colon. */
  function Partition(s: string): Option<(string, string)> {
    if s == [] then None
    else if s[0] == ':' then Some(([], s[1..]))
    else
      match Partition(s[1..])
      case None => None
      case Some((key, value)) => Some(([s[0]] + key, value))
  }

  /** `s.replace(ab, c)` for a pattern of two characters: left to right, without overlap. */
  function Replace(s: string, a: char, b: char, c: char): string {
    if |s| >= 2 && s[0] == a && s[1] == b then [c] + Replace(s[2..], a, b, c)
    else if s == [] then []
    else [s[0]] + Replace(s[1..], a, b, c)
  }

  /** The two replacements, one after the other. */
  function Unescape(s: string): string {
    Replace(Replace(s, '\\', ':', ':'), '\\', '\\', '\\')
  }

  // ----- unescape inverts escape -----

  /** What nmcli does to a value in terse mode. */
  function Escape(v: string): string {
    if v == [] then []
    else (if v[0] == ':' || v[0] == '\\' then ['\\', v[0]] else [v[0]]) + Escape(v[1..])
  }

  /** After the first replacement: colons bare, backslashes still doubled. */
  function Halfway(v: string): string {
    if v == [] then []
    else (if v[0] == '\\' then ['\\', '\\'] else [v[0]]) + Halfway(v[1..])
  }

  lemma EscapeStart(v: string)
    ensures Escape(v) == [] || Escape(v)[0] != ':'
  {
  }

  /** Replacing `\:` first is safe although a backslash may come right before an escaped
      colon: no escaped value begins with a colon, so the second half of `\\` is never taken
      for the backslash of a colon. */
  lemma {:induction false} FirstPass(v: string)
    ensures Replace(Escape(v), '\\', ':', ':') == Halfway(v)
  {
    if v != [] {
      var e := Escape(v[1..]);
      FirstPass(v[1..]);
      EscapeStart(v[1..]);
      if v[0] == ':' {
        assert Escape(v)[2..] == e;
      } else if v[0] == '\\' {
        var s := Escape(v);
        assert s == ['\\', '\\'] + e;
        assert s[1..] == ['\\'] + e;
        assert s[1..][1..] == e;
        assert Replace(s[1..], '\\', ':', ':') == ['\\'] + Replace(e, '\\', ':', ':');
      } else {
        assert Escape(v)[1..] == e;
      }
    }
  }

  lemma {:induction false} SecondPass(v: string)
    ensures Replace(Halfway(v), '\\', '\\', '\\') == v
  {
    if v != [] {
      var h := Halfway(v[1..]);
      SecondPass(v[1..]);
      if v[0] == '\\' {
        assert Halfway(v)[2..] == h;
      } else {
        assert Halfway(v)[1..] == h;
      }
    }
  }

  /** For every value, colons and backslashes in any order included. */
  lemma UnescapeInvertsEscape(v: string)
    ensures Unescape(Escape(v)) == v
  {
    FirstPass(v);
    SecondPass(v);
  }

  // ----- one line -----

  datatype Resolver = Resolver(ip: string, family: string, source: string)

  function Family(key: string): string {
    if "IP6" <= key then "v6" else "v4"
  }

  /** The entry a line stands for; None if it has no colon or an empty value. */
  function ParseLine(line: string): Option<Resolver> {
    match Partition(Strip(line))
    case None => None
    case Some((key, raw)) =>
      var value := Strip(Unescape(raw));
      if value == [] then None else Some(Resolver(value, Family(key), "handed"))
  }

  /** A value that a printed line can carry: not empty, no surrounding whitespace, one line. */
  predicate Printable(v: string) {
    v != [] && !IsSpace(v[0]) && !IsSpace(v[|v| - 1]) && forall i :: 0 <= i < |v| ==> !IsBreak(v[i])
  }

  /** A field name: no colon, one line. */
  predicate IsKey(key: string) {
    forall i :: 0 <= i < |key| ==> key[i] != ':' && !IsBreak(key[i])
  }

  function PrintLine(key: string, v: string): string {
    key + ":" + Escape(v)
  }

  lemma {:induction false} StripLeftStops(key: string, tail: string)
    requires tail != [] && !IsSpace(tail[0])
    ensures StripLeft(key + tail) == StripLeft(key) + tail
  {
    if key == [] {
      assert key + tail == tail;
    } else {
      assert (key + tail)[1..] == key[1..] + tail;
      if IsSpace(key[0]) {
        StripLeftStops(key[1..], tail);
      }
    }
  }

  lemma {:induction false} PartitionAt(key: string, value: string)
    requires forall i :: 0 <= i < |key| ==> key[i] != ':'
    ensures Partition(key + ":" + value) == Some((key, value))
  {
    var s := key + ":" + value;
    if key == [] {
      assert s[1..] == value;
    } else {
      PartitionAt(key[1..], value);
      assert s[1..] == key[1..] + ":" + value;
      assert [key[0]] + key[1..] == key;
    }
  }

  lemma {:induction false} StripLeftPart(key: string)
    requires forall i :: 0 <= i < |key| ==> key[i] != ':'
    ensures forall i :: 0 <= i < |StripLeft(key)| ==> StripLeft(key)[i] != ':'
  {
    if key != [] && IsSpace(key[0]) {
      StripLeftPart(key[1..]);
    }
  }

  lemma {:induction false} EscapeLast(v: string)
    requires v != []
    ensures Escape(v) != [] && Escape(v)[|Escape(v)| - 1] == v[|v| - 1]
  {
    if |v| > 1 {
      EscapeLast(v[1..]);
    } else {
      assert Escape(v[1..]) == [];
    }
  }

  lemma StripPrinted(key: string, v: string)
    requires IsKey(key) && Printable(v)
    ensures Strip(PrintLine(key, v)) == StripLeft(key) + ":" + Escape(v)
  {
    var e, left := Escape(v), StripLeft(key);
    EscapeLast(v);
    Associative(key, ":", e);
    Associative(left, ":", e);
    StripLeftStops(key, ":" + e);
    StripRightStops(left + ":", e);
  }

  lemma StripRightStops(s: string, e: string)
    requires e != [] && !IsSpace(e[|e| - 1])
    ensures StripRight(s + e) == s + e
  {
    assert (s + e)[|s + e| - 1] == e[|e| - 1];
  }

  lemma StripNothing(v: string)
    requires Printable(v)
    ensures Strip(v) == v
  {
  }

  lemma LineEntry(key: string, v: string)
    requires IsKey(key) && Printable(v)
    ensures ParseLine(PrintLine(key, v)) == Some(Resolver(v, Family(StripLeft(key)), "handed"))
  {
    StripPrinted(key, v);
    StripLeftPart(key);
    PartitionAt(StripLeft(key), Escape(v));
    UnescapeInvertsEscape(v);
    StripNothing(v);
  }

  /** The address family that a field name stands for: leading blanks do not count. */
  function FamilyOfKey(key: string): string {
    if key != [] && IsSpace(key[0]) then FamilyOfKey(key[1..])
    else if |key| >= 3 && key[0] == 'I' && key[1] == 'P' && key[2] == '6' then "v6"
    else "v4"
  }

  lemma {:induction false} FamilyIs(key: string)
    ensures Family(StripLeft(key)) == FamilyOfKey(key)
  {
    if key != [] && IsSpace(key[0]) {
      FamilyIs(key[1..]);
    } else if |key| >= 3 {
      assert "IP6" <= key <==> key[0] == 'I' && key[1] == 'P' && key[2] == '6';
    }
  }

  /** A printed value is recovered from its line, with its family, as one that was handed out. */
  lemma LineRoundTrip(key: string, v: string)
    requires IsKey(key) && Printable(v)
    ensures ParseLine(PrintLine(key, v)) == Some(Resolver(v, FamilyOfKey(key), "handed"))
  {
    LineEntry(key, v);
    FamilyIs(key);
  }

  // ----- the whole output -----

  function Entries(lines: seq<string>): seq<Resolver> {
    if lines == [] then []
    else
      (match ParseLine(lines[0]) case None => [] case Some(r) => [r]) + Entries(lines[1..])
  }

  function Ips(rs: seq<Resolver>): (ips: seq<string>)
    ensures |ips| == |rs|
  {
    Map(rs, (r: Resolver) => r.ip)
  }

  /** Keeps the first entry of each address. */
  function FirstByIp(rs: seq<Resolver>): seq<Resolver> {
    if rs == [] then []
    else
      var kept, r := FirstByIp(rs[..|rs| - 1]), rs[|rs| - 1];
      if r.ip in Ips(kept) then kept else kept + [r]
  }

  function Handed(output: string): seq<Resolver> {
    FirstByIp(Entries(SplitLines(output)))
  }

  function Print(fields: seq<(string, string)>): string {
    if fields == [] then [] else PrintLine(fields[0].0, fields[0].1) + "\n" + Print(fields[1..])
  }

  function HandedEntry(field: (string, string)): Resolver {
    Resolver(field.1, Family(StripLeft(field.0)), "handed")
  }

  lemma {:induction false} FirstBreakAt(line: string, rest: string)
    requires forall i :: 0 <= i < |line| ==> !IsBreak(line[i])
    ensures FirstBreak(line + "\n" + rest) == |line|
  {
    if line == [] {
      assert (line + "\n" + rest)[0] == '\n';
    } else {
      FirstBreakAt(line[1..], rest);
      assert (line + "\n" + rest)[1..] == line[1..] + "\n" + rest;
    }
  }

  lemma SplitFirstLine(line: string, rest: string)
    requires forall i :: 0 <= i < |line| ==> !IsBreak(line[i])
    ensures SplitLines(line + "\n" + rest) == [line] + SplitLines(rest)
  {
    var s := line + "\n" + rest;
    FirstBreakAt(line, rest);
    assert s[|line|] == '\n' && s[..|line|] == line && s[|line| + 1..] == rest;
  }

  lemma {:induction false} EscapeOneLine(v: string)
    requires forall i :: 0 <= i < |v| ==> !IsBreak(v[i])
    ensures forall i :: 0 <= i < |Escape(v)| ==> !IsBreak(Escape(v)[i])
  {
    if v != [] {
      EscapeOneLine(v[1..]);
    }
  }

  lemma PrintLineOneLine(key: string, v: string)
    requires IsKey(key) && Printable(v)
    ensures forall i :: 0 <= i < |PrintLine(key, v)| ==> !IsBreak(PrintLine(key, v)[i])
  {
    EscapeOneLine(v);
    assert !IsBreak(':');
  }

  lemma EntriesCons(lines: seq<string>, line: string, r: Resolver)
    requires ParseLine(line) == Some(r)
    ensures Entries([line] + lines) == [r] + Entries(lines)
  {
    assert ([line] + lines)[1..] == lines;
  }

  lemma {:induction false} PrintedEntries(fields: seq<(string, string)>)
    requires forall i :: 0 <= i < |fields| ==> IsKey(fields[i].0) && Printable(fields[i].1)
    ensures Entries(SplitLines(Print(fields))) == Map(fields, HandedEntry)
  {
    if fields != [] {
      var (key, v) := fields[0];
      var line, rest := PrintLine(key, v), Print(fields[1..]);
      PrintLineOneLine(key, v);
      SplitFirstLine(line, rest);
      LineEntry(key, v);
      EntriesCons(SplitLines(rest), line, HandedEntry(fields[0]));
      PrintedEntries(fields[1..]);
      assert Map(fields, HandedEntry) == [HandedEntry(fields[0])] + Map(fields[1..], HandedEntry);
    }
  }

  /** Parsing what was printed gives every field back, in order. */
  lemma OutputRoundTrip(fields: seq<(string, string)>)
    requires forall i :: 0 <= i < |fields| ==> IsKey(fields[i].0) && Printable(fields[i].1)
    ensures var entries := Entries(SplitLines(Print(fields)));
      && |entries| == |fields|
      && forall i :: 0 <= i < |fields| ==> entries[i] == Resolver(fields[i].1, FamilyOfKey(fields[i].0), "handed")
  {
    PrintedEntries(fields);
    forall i | 0 <= i < |fields|
      ensures HandedEntry(fields[i]) == Resolver(fields[i].1, FamilyOfKey(fields[i].0), "handed")
    {
      FamilyIs(fields[i].0);
    }
  }

  // ----- the loops -----

  lemma {:induction false} EntriesSnoc(lines: seq<string>, line: string)
    ensures Entries(lines + [line]) == Entries(lines) + (match ParseLine(line) case None => [] case Some(r) => [r])
  {
    if lines == [] {
      assert [] + [line] == [line] && Entries([line][1..]) == [];
    } else {
      EntriesSnoc(lines[1..], line);
      assert (lines + [line])[1..] == lines[1..] + [line];
    }
  }

  lemma EntriesNext(lines: seq<string>, i: nat)
    requires i < |lines|
    ensures Entries(lines[..i + 1]) ==
      match ParseLine(lines[i]) case None => Entries(lines[..i]) case Some(r) => Entries(lines[..i]) + [r]
  {
    EntriesSnoc(lines[..i], lines[i]);
    assert lines[..i + 1] == lines[..i] + [lines[i]];
    assert Entries(lines[..i]) + [] == Entries(lines[..i]);
  }

  lemma FirstByIpSnoc(rs: seq<Resolver>, r: Resolver)
    ensures FirstByIp(rs + [r]) == if r.ip in Ips(FirstByIp(rs)) then FirstByIp(rs) else FirstByIp(rs) + [r]
  {
    assert (rs + [r])[..|rs|] == rs;
  }

  /** `seen` holds the addresses of the list. */
  ghost predicate Tracks(seen: set<string>, rs: seq<Resolver>) {
    forall ip :: ip in seen <==> ip in Ips(rs)
  }

  lemma TracksSnoc(seen: set<string>, rs: seq<Resolver>, r: Resolver)
    requires Tracks(seen, rs)
    ensures Tracks(seen + {r.ip}, rs + [r])
  {
    assert Ips(rs + [r]) == Ips(rs) + [r.ip];
  }

  /** nmcli's output, or None if running it failed. */
  method DetectHanded(output: Option<string>) returns (resolvers: seq<Resolver>)
    ensures resolvers == if output.None? then [] else Handed(output.value)
  {
    resolvers := [];
    if output.None? {
      return;
    }
    var lines := SplitLines(output.value);
    var seen: set<string> := {};
    for i := 0 to |lines|
      invariant resolvers == FirstByIp(Entries(lines[..i]))
      invariant Tracks(seen, resolvers)
    {
      EntriesNext(lines, i);
      match Partition(Strip(lines[i])) {
        case None =>
        case Some((key, raw)) =>
          var value := Strip(Unescape(raw));
          if value != [] {
            var r := Resolver(value, Family(key), "handed");
            FirstByIpSnoc(Entries(lines[..i]), r);
            if value !in seen {
              TracksSnoc(seen, resolvers, r);
              seen := seen + {value};
              resolvers := resolvers + [r];
            }
          }
      }
    }
    assert lines[..|lines|] == lines;
  }

  function Reference(ip: string): Resolver {
    Resolver(ip, if ':' in ip then "v6" else "v4", "reference")
  }

  function Merged(handed: seq<Resolver>, reference: seq<string>): seq<Resolver> {
    FirstByIp(handed + Map(reference, Reference))
  }

  /** The loop over the handed resolvers. */
  method AddHanded(handed: seq<Resolver>) returns (resolvers: seq<Resolver>, seen: set<string>)
    ensures resolvers == FirstByIp(handed) && Tracks(seen, resolvers)
  {
    resolvers, seen := [], {};
    for i := 0 to |handed|
      invariant resolvers == FirstByIp(handed[..i]) && Tracks(seen, resolvers)
    {
      FirstByIpSnoc(handed[..i], handed[i]);
      assert handed[..i + 1] == handed[..i] + [handed[i]];
      if handed[i].ip !in seen {
        TracksSnoc(seen, resolvers, handed[i]);
        seen := seen + {handed[i].ip};
        resolvers := resolvers + [handed[i]];
      }
    }
    assert handed[..|handed|] == handed;
  }

  lemma ReferencesSnoc(handed: seq<Resolver>, reference: seq<string>, i: nat)
    requires i < |reference|
    ensures handed + Map(reference[..i + 1], Reference) ==
      handed + Map(reference[..i], Reference) + [Reference(reference[i])]
  {
  }

  /** The loop over the reference servers, on top of what is there already. */
  method AddReferences(ghost handed: seq<Resolver>, start: seq<Resolver>, known: set<string>, reference: seq<string>)
    returns (resolvers: seq<Resolver>)
    requires start == FirstByIp(handed) && Tracks(known, start)
    ensures resolvers == Merged(handed, reference)
  {
    var seen := known;
    resolvers := start;
    assert handed + Map(reference[..0], Reference) == handed;
    for i := 0 to |reference|
      invariant resolvers == FirstByIp(handed + Map(reference[..i], Reference)) && Tracks(seen, resolvers)
    {
      ReferencesSnoc(handed, reference, i);
      FirstByIpSnoc(handed + Map(reference[..i], Reference), Reference(reference[i]));
      if reference[i] !in seen {
        TracksSnoc(seen, resolvers, Reference(reference[i]));
        seen := seen + {reference[i]};
        resolvers := resolvers + [Reference(reference[i])];
      }
    }
    assert reference[..|reference|] == reference;
  }

  method AssembleResolvers(autodetect: bool, output: Option<string>, reference: seq<string>)
    returns (resolvers: seq<Resolver>)
    ensures resolvers == Merged(if autodetect && output.Some? then Handed(output.value) else [], reference)
  {
    var handed: seq<Resolver> := [];
    if autodetect {
      handed := DetectHanded(output);
    }
    var kept, seen := AddHanded(handed);
    resolvers := AddReferences(handed, kept, seen, reference);
  }

  // ----- what the merge means -----

  /** Where an address first occurs. */
  function FirstIp(rs: seq<Resolver>, ip: string): (i: nat)
    ensures i <= |rs|
    ensures i < |rs| ==> rs[i].ip == ip
    ensures forall j :: 0 <= j < i ==> rs[j].ip != ip
  {
    if rs == [] || rs[0].ip == ip then 0 else 1 + FirstIp(rs[1..], ip)
  }

  lemma {:induction false} FirstIpAppend(rs: seq<Resolver>, more: seq<Resolver>, ip: string)
    requires FirstIp(rs, ip) < |rs|
    ensures FirstIp(rs + more, ip) == FirstIp(rs, ip)
  {
    var i, j := FirstIp(rs, ip), FirstIp(rs + more, ip);
    assert (rs + more)[i].ip == ip;
    assert forall m :: 0 <= m < |rs| ==> (rs + more)[m] == rs[m];
  }

  /** The entries kept are the first occurrences, in the order of the list: each is the first
      with its address, and no address is lost or repeated. */
  ghost predicate KeepsFirsts(rs: seq<Resolver>, kept: seq<Resolver>) {
    && (forall k :: 0 <= k < |kept| ==> FirstIp(rs, kept[k].ip) < |rs| && kept[k] == rs[FirstIp(rs, kept[k].ip)])
    && (forall j, k :: 0 <= j < k < |kept| ==> FirstIp(rs, kept[j].ip) < FirstIp(rs, kept[k].ip))
    && (forall i :: 0 <= i < |rs| ==> rs[i].ip in Ips(kept))
  }

  lemma {:induction false} FirstByIpCorrect(rs: seq<Resolver>)
    ensures KeepsFirsts(rs, FirstByIp(rs))
    ensures Distinct(Ips(FirstByIp(rs)))
  {
    if rs != [] {
      var init, r := rs[..|rs| - 1], rs[|rs| - 1];
      var kept := FirstByIp(init);
      FirstByIpCorrect(init);
      assert rs == init + [r];
      if r.ip in Ips(kept) {
        KeepOld(init, r, kept);
      } else {
        KeepNew(init, r, kept);
      }
    }
  }

  lemma KeepOld(init: seq<Resolver>, r: Resolver, kept: seq<Resolver>)
    requires KeepsFirsts(init, kept) && r.ip in Ips(kept)
    ensures KeepsFirsts(init + [r], kept)
  {
    forall k | 0 <= k < |kept| ensures FirstIp(init + [r], kept[k].ip) == FirstIp(init, kept[k].ip) {
      FirstIpAppend(init, [r], kept[k].ip);
    }
  }

  lemma KeepNew(init: seq<Resolver>, r: Resolver, kept: seq<Resolver>)
    requires KeepsFirsts(init, kept) && r.ip !in Ips(kept) && Distinct(Ips(kept))
    ensures KeepsFirsts(init + [r], kept + [r]) && Distinct(Ips(kept + [r]))
  {
    forall k | 0 <= k < |kept| ensures FirstIp(init + [r], kept[k].ip) == FirstIp(init, kept[k].ip) {
      FirstIpAppend(init, [r], kept[k].ip);
    }
    NewIpIsLast(init, r, kept);
    assert Ips(kept + [r]) == Ips(kept) + [r.ip];
  }

  lemma NewIpIsLast(init: seq<Resolver>, r: Resolver, kept: seq<Resolver>)
    requires KeepsFirsts(init, kept) && r.ip !in Ips(kept)
    ensures FirstIp(init + [r], r.ip) == |init|
  {
    var i := FirstIp(init + [r], r.ip);
    assert (init + [r])[|init|].ip == r.ip;
    assert forall m :: 0 <= m < |init| ==> (init + [r])[m] == init[m] && init[m].ip in Ips(kept);
  }

  /** An address that the router hands out keeps its handed entry, family and label, even if it
      is a reference server too. */
  lemma HandedWins(handed: seq<Resolver>, reference: seq<string>, k: nat)
    requires k < |Merged(handed, reference)| && Merged(handed, reference)[k].ip in Ips(handed)
    ensures Merged(handed, reference)[k] in handed
  {
    var rs := handed + Map(reference, Reference);
    var ip := Merged(handed, reference)[k].ip;
    FirstByIpCorrect(rs);
    var j :| 0 <= j < |handed| && Ips(handed)[j] == ip;
    assert rs[j] == handed[j] && rs[j].ip == ip;
    assert FirstIp(rs, ip) <= j;
    assert rs[FirstIp(rs, ip)] == handed[FirstIp(rs, ip)];
  }

  /** The merge has exactly the addresses of its two inputs, each once. */
  lemma MergedAddresses(handed: seq<Resolver>, reference: seq<string>)
    ensures Distinct(Ips(Merged(handed, reference)))
    ensures forall ip :: ip in Ips(Merged(handed, reference)) <==> ip in Ips(handed) || ip in reference
  {
    var rs := handed + Map(reference, Reference);
    FirstByIpCorrect(rs);
    assert Ips(rs) == Ips(handed) + reference;
    forall ip {
      SameAddresses(rs, FirstByIp(rs), ip);
    }
  }

  lemma SameAddresses(rs: seq<Resolver>, kept: seq<Resolver>, ip: string)
    requires KeepsFirsts(rs, kept)
    ensures ip in Ips(kept) <==> ip in Ips(rs)
  {
    if ip in Ips(kept) {
      var k :| 0 <= k < |kept| && Ips(kept)[k] == ip;
      assert Ips(rs)[FirstIp(rs, ip)] == ip;
    }
    if ip in Ips(rs) {
      var i :| 0 <= i < |rs| && Ips(rs)[i] == ip;
      assert rs[i].ip == ip;
    }
  }

  /** A probe that queries the merged list, one entry per resolver, projects onto distinct
      label sets: the promise that an address is never probed twice is what keeps its DNS
      series apart. */
  lemma ProbeOfMergedDistinct(handed: seq<Resolver>, reference: seq<string>, p: Metrics.ProbePayload)
    requires |p.dns| == |Merged(handed, reference)|
    requires forall i :: 0 <= i < |p.dns| ==> p.dns[i].resolver == Merged(handed, reference)[i].ip
    ensures Metrics.LabelsDistinct(Metrics.ProbeMetrics(p))
  {
    MergedAddresses(handed, reference);
    var ips := Ips(Merged(handed, reference));
    forall i, j | 0 <= i < j < |p.dns| ensures p.dns[i].resolver != p.dns[j].resolver {
      assert ips[i] != ips[j];
    }
    Metrics.DistinctResolversSuffice(p);
  }
}
