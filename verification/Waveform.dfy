/** The central waveform records of a dynamic Bug document: `_parse_waveform_analysis_blocks` of
    ucagent/checkers/toffee_report.py. Line numbers start at zero here. */
module Waveform {
  import opened Text
  import opened Lists
  import opened Records
  import opened DynamicBugs
  import opened DynamicBugLines
  import opened TestTags

  /** The fields of a `waveform_analysis` mapping that are compared; None where a field has another type. */
  datatype Payload = Payload(testCase: Option<string>, bugTags: Option<seq<string>>, evidence: Option<set<string>>,
                             status: string, receiptId: Option<string>)

  /** The helpers shared with the tool that writes the records: the anchor of a tag, which is made of its normal form
      and exists only if it has one, the reading of a record heading, of a YAML block and of a viewer link. */
  datatype Protocol = Protocol(anchor: string -> string, recordHeading: string -> Option<(string, string)>,
                               payload: seq<string> -> Option<Payload>, viewerLink: string -> bool)

  const EVIDENCE := "<WAVEFORM-EVIDENCE>"
  const EVIDENCE_END := "</WAVEFORM-EVIDENCE>"
  const REFERENCE := "<WAVEFORM-REF>"

  /** A (Bug, TC) association: its TC line and the line of its reference. */
  datatype Association = Association(bug: string, test: string, line: nat, ref: nat)

  /** A central record as it is written. */
  datatype Entry = Entry(test: string, title: string, line: nat, data: Payload)

  /** A central record as it is returned. */
  datatype Block = Block(line: nat, data: Payload, bugs: seq<string>)

  // ---------------------------------------------------------------- the containers

  predicate OnlyAt(lines: seq<string>, marker: string, i: nat)
  {
    i < |lines| && forall k: nat :: k < |lines| ==> (Strip(lines[k]) == marker <==> k == i)
  }

  /** The one line that is `marker`. */
  ghost function Only(lines: seq<string>, marker: string): (r: Option<nat>)
    ensures r.Some? ==> OnlyAt(lines, marker, r.value)
  {
    if exists i: nat :: OnlyAt(lines, marker, i) then (var i: nat :| OnlyAt(lines, marker, i); Some(i)) else None
  }

  method FindOnly(lines: seq<string>, marker: string) returns (r: Option<nat>)
    ensures r == Only(lines, marker)
  {
    hide Strip;
    var indexes: seq<nat> := [];
    for i := 0 to |lines|
      invariant forall k: nat :: k in indexes <==> k < i && Strip(lines[k]) == marker
      invariant NoDup(indexes)
    {
      if Strip(lines[i]) == marker {
        indexes := indexes + [i];
      }
    }
    if |indexes| == 1 {
      assert indexes[0] in indexes && forall k: nat :: k in indexes <==> k == indexes[0];
      OnlyIs(lines, marker, indexes[0]);
      return Some(indexes[0]);
    }
    NotOnly(lines, marker, indexes);
    return None;
  }

  lemma OnlyIs(lines: seq<string>, marker: string, i: nat)
    requires OnlyAt(lines, marker, i)
    ensures Only(lines, marker) == Some(i)
  {
    hide Strip;
    var j := Only(lines, marker).value;
    assert Strip(lines[j]) == marker;
  }

  lemma NotOnly(lines: seq<string>, marker: string, indexes: seq<nat>)
    requires forall k: nat :: k in indexes <==> k < |lines| && Strip(lines[k]) == marker
    requires NoDup(indexes) && |indexes| != 1
    ensures forall i: nat :: !OnlyAt(lines, marker, i)
  {
    hide Strip;
    assert |indexes| >= 2 ==> indexes[0] in indexes && indexes[1] in indexes && indexes[0] != indexes[1];
    forall i: nat ensures !OnlyAt(lines, marker, i) {
      assert i in indexes <==> i < |lines| && Strip(lines[i]) == marker;
    }
  }

  // ---------------------------------------------------------------- the associations

  /** The first line at or after `i` that is not blank, unless `end` comes first. */
  function NextText(lines: seq<string>, i: nat, end: nat): (r: nat)
    requires end <= |lines|
    ensures i <= r && (i <= end ==> r <= end)
    ensures r < end ==> Strip(lines[r]) != ""
    ensures forall k :: i <= k < r && k < end ==> Strip(lines[k]) == ""
    decreases |lines| - i
  {
    if i >= end || Strip(lines[i]) != "" then i else NextText(lines, i + 1, end)
  }

  function Reference(p: Protocol, test: string): string
  {
    REFERENCE + " [WAVEFORM-EVIDENCE](#" + p.anchor(test) + ")"
  }

  /** The association of one listed test, under the normal form of its tag, if there is one and its reference follows
      it. */
  function AssociationOf(lines: seq<string>, end: nat, pair: (string, Test), p: Protocol): Option<Association>
    requires end <= |lines|
  {
    match NormalizeTestCaseTag("TC-" + pair.1.name)
    case None => None
    case Some(test) =>
      var ref := NextText(lines, pair.1.line + 1, end);
      if NormalizeTestCaseTag(test).None? || ref >= end || Strip(lines[ref]) != Reference(p, test) then None
      else Some(Association(pair.0, test, pair.1.line, ref))
  }

  ghost predicate AssociationsOf(lines: seq<string>, end: nat, pairs: seq<(string, Test)>, p: Protocol,
                                 a: seq<Association>)
    requires end <= |lines|
  {
    && |a| == |pairs|
    && (forall k :: 0 <= k < |a| ==> AssociationOf(lines, end, pairs[k], p) == Some(a[k]))
    && NoDup(Map(a, BugAndTest))
  }

  function BugAndTest(a: Association): (string, string)
  {
    (a.bug, a.test)
  }

  ghost function AssociationsIn(lines: seq<string>, end: nat, pairs: seq<(string, Test)>, p: Protocol)
    : (r: Option<seq<Association>>)
    requires end <= |lines|
    ensures r.Some? ==> AssociationsOf(lines, end, pairs, p, r.value)
  {
    if exists a :: AssociationsOf(lines, end, pairs, p, a)
    then (var a :| AssociationsOf(lines, end, pairs, p, a); Some(a))
    else None
  }

  lemma AssociationsUnique(lines: seq<string>, end: nat, pairs: seq<(string, Test)>, p: Protocol, a: seq<Association>)
    requires end <= |lines| && AssociationsOf(lines, end, pairs, p, a)
    ensures AssociationsIn(lines, end, pairs, p) == Some(a)
  {
    hide AssociationOf;
    var b := AssociationsIn(lines, end, pairs, p).value;
    assert a == b by {
      forall k | 0 <= k < |a| ensures a[k] == b[k] {
        assert AssociationOf(lines, end, pairs[k], p) == Some(a[k]);
      }
    }
  }

  method CollectAssociations(lines: seq<string>, end: nat, records: seq<BugRecord>, p: Protocol)
    returns (r: Option<seq<Association>>)
    requires end <= |lines|
    ensures r == AssociationsIn(lines, end, Pairs(records), p)
  {
    hide AssociationOf, Pairs;
    var found: seq<Association> := [];
    NoPairsYet();
    for i := 0 to |records|
      invariant AssociationsOf(lines, end, Pairs(records[..i]), p, found)
    {
      OneMore(records, i);
      PairsOfLast(records[..i], records[i]);
      PairsGrow(records, i + 1);
      var more := CollectOfRecord(lines, end, records[i], p, found, Pairs(records[..i]));
      if more.None? {
        NotLonger(lines, end, Pairs(records[..i + 1]), Pairs(records), p);
        return None;
      }
      found := more.value;
    }
    assert records[..|records|] == records;
    AssociationsUnique(lines, end, Pairs(records), p, found);
    r := Some(found);
  }

  /** The inner loop over the tests of one record. */
  method CollectOfRecord(lines: seq<string>, end: nat, record: BugRecord, p: Protocol, before: seq<Association>,
                         ghost pairs: seq<(string, Test)>)
    returns (r: Option<seq<Association>>)
    requires end <= |lines| && AssociationsOf(lines, end, pairs, p, before)
    ensures var all := pairs + Map(record.tests, (t: Test) => (record.bug, t));
            && (r.Some? ==> AssociationsOf(lines, end, all, p, r.value))
            && (r.None? ==> forall a :: !AssociationsOf(lines, end, all, p, a))
  {
    hide NextText, Reference, AssociationsOf, BugAndTest, NormalizeTestCaseTag;
    ghost var more := Map(record.tests, (t: Test) => (record.bug, t));
    var found := before;
    SeqAssoc(pairs, [], []);
    for j := 0 to |record.tests|
      invariant AssociationsOf(lines, end, pairs + more[..j], p, found)
    {
      var test := record.tests[j];
      assert more[j] == (record.bug, test);
      OneMore(more, j);
      SeqAssoc(pairs, more[..j], [more[j]]);
      assert pairs + more == (pairs + more[..j]) + ([more[j]] + more[j + 1..]);
      var tag := NormalizeTestCaseTag("TC-" + test.name);
      var next := test.line + 1;
      while next < end && Strip(lines[next]) == ""
        invariant test.line < next && NextText(lines, test.line + 1, end) == NextText(lines, next, end)
        decreases end - next
      {
        NextTextSkips(lines, next, end);
        next := next + 1;
      }
      NextTextStops(lines, next, end);
      if tag.None? || NormalizeTestCaseTag(tag.value).None? || next >= end || Strip(lines[next]) != Reference(p, tag.value) {
        NotAssociated(lines, end, pairs + more, p, |pairs| + j);
        return None;
      }
      var last := Association(record.bug, tag.value, test.line, next);
      if BugAndTest(last) in Map(found, BugAndTest) {
        Repeated(lines, end, pairs + more[..j], more[j], pairs + more, p, found, last);
        return None;
      }
      Associated(lines, end, pairs + more[..j], more[j], p, found, last);
      found := found + [last];
    }
    assert more[..|more|] == more;
    r := Some(found);
  }

  lemma NextTextSkips(lines: seq<string>, i: nat, end: nat)
    requires i < end <= |lines| && Strip(lines[i]) == ""
    ensures NextText(lines, i, end) == NextText(lines, i + 1, end)
  {
  }

  lemma NextTextStops(lines: seq<string>, i: nat, end: nat)
    requires end <= |lines| && (i < end ==> Strip(lines[i]) != "")
    ensures NextText(lines, i, end) == i
  {
  }

  lemma NoPairsYet()
    ensures Pairs([]) == []
  {
  }

  lemma {:induction false} PairsGrow(records: seq<BugRecord>, n: nat)
    requires n <= |records|
    ensures Pairs(records[..n]) <= Pairs(records)
    decreases |records| - n
  {
    if n < |records| {
      PairsGrow(records, n + 1);
      OneMore(records, n);
      PairsOfLast(records[..n], records[n]);
    } else {
      assert records[..n] == records;
    }
  }

  /** A prefix without associations makes the whole fail. */
  lemma NotLonger(lines: seq<string>, end: nat, some: seq<(string, Test)>, all: seq<(string, Test)>, p: Protocol)
    requires end <= |lines| && some <= all && forall a :: !AssociationsOf(lines, end, some, p, a)
    ensures forall a :: !AssociationsOf(lines, end, all, p, a)
  {
    hide AssociationOf;
    forall a ensures !AssociationsOf(lines, end, all, p, a) {
      if |a| == |all| {
        var b := a[..|some|];
        assert Map(b, BugAndTest) == Map(a, BugAndTest)[..|some|];
        assert !AssociationsOf(lines, end, some, p, b);
      }
    }
  }

  lemma Associated(lines: seq<string>, end: nat, some: seq<(string, Test)>, pair: (string, Test), p: Protocol,
                   found: seq<Association>, last: Association)
    requires end <= |lines| && AssociationsOf(lines, end, some, p, found)
    requires AssociationOf(lines, end, pair, p) == Some(last) && BugAndTest(last) !in Map(found, BugAndTest)
    ensures AssociationsOf(lines, end, some + [pair], p, found + [last])
  {
    hide AssociationOf, BugAndTest;
    assert Map(found + [last], BugAndTest) == Map(found, BugAndTest) + [BugAndTest(last)];
  }

  lemma NotAssociated(lines: seq<string>, end: nat, all: seq<(string, Test)>, p: Protocol, k: nat)
    requires end <= |lines| && k < |all| && AssociationOf(lines, end, all[k], p).None?
    ensures forall a :: !AssociationsOf(lines, end, all, p, a)
  {
    hide AssociationOf;
  }

  lemma Repeated(lines: seq<string>, end: nat, some: seq<(string, Test)>, pair: (string, Test),
                 all: seq<(string, Test)>, p: Protocol, found: seq<Association>, last: Association)
    requires end <= |lines| && some + [pair] <= all && AssociationsOf(lines, end, some, p, found)
    requires AssociationOf(lines, end, pair, p) == Some(last)
    requires BugAndTest(last) in Map(found, BugAndTest)
    ensures forall a :: !AssociationsOf(lines, end, all, p, a)
  {
    hide AssociationOf;
    var n := |some|;
    var k :| 0 <= k < n && Map(found, BugAndTest)[k] == BugAndTest(last);
    assert (some + [pair])[k] == some[k] && (some + [pair])[n] == pair;
    assert all[k] == some[k] && all[n] == pair;
    forall a ensures !AssociationsOf(lines, end, all, p, a) {
      if |a| == |all| && AssociationOf(lines, end, all[k], p) == Some(a[k]) && AssociationOf(lines, end, all[n], p) == Some(a[n]) {
        assert Map(a, BugAndTest)[k] == Map(a, BugAndTest)[n];
      }
    }
  }

  // ---------------------------------------------------------------- what else the Bug container may hold

  predicate Mentions(text: string)
  {
    Find(text, REFERENCE) != -1
  }

  /** Waveform data that belongs into the evidence container. */
  predicate Misplaced(text: string)
  {
    || ("<WAVEFORM-" <= text && !Mentions(text))
    || text == "waveform_analysis:"
    || Find(text, "<WAVEFORM-VIEWER>") != -1
    || Find(text, "/surfer/?wave=") != -1
  }

  ghost predicate IsReference(a: seq<Association>, i: nat)
  {
    exists k :: 0 <= k < |a| && a[k].ref == i
  }

  /** No line of the Bug container mentions a reference that follows no test, or holds waveform data. */
  ghost predicate Placed(lines: seq<string>, start: nat, end: nat, a: seq<Association>)
    requires end <= |lines|
  {
    forall i: nat :: start < i < end ==> (Mentions(Strip(lines[i])) ==> IsReference(a, i)) && !Misplaced(Strip(lines[i]))
  }

  method CheckPlacement(lines: seq<string>, start: nat, end: nat, a: seq<Association>) returns (ok: bool)
    requires end <= |lines|
    ensures ok == Placed(lines, start, end, a)
  {
    hide Mentions, Misplaced, Strip;
    var i := start + 1;
    while i < end
      invariant start < i
      invariant forall k: nat :: start < k < i && k < end ==>
                  (Mentions(Strip(lines[k])) ==> IsReference(a, k)) && !Misplaced(Strip(lines[k]))
    {
      if Mentions(Strip(lines[i])) && !exists k :: 0 <= k < |a| && a[k].ref == i {
        assert !IsReference(a, i);
        return false;
      }
      if Misplaced(Strip(lines[i])) {
        return false;
      }
      i := i + 1;
    }
    ok := true;
  }

  // ---------------------------------------------------------------- one central record

  const ANCHOR_OPEN := "<a id=\""
  const ANCHOR_CLOSE := "\"></a>"

  /** The identifier in a line that is exactly one anchor. */
  function AnchorIn(text: string): Option<string>
  {
    if !(ANCHOR_OPEN <= text) || !EndsWith(text, ANCHOR_CLOSE) || |text| <= |ANCHOR_OPEN| + |ANCHOR_CLOSE| then None
    else
      var id := text[|ANCHOR_OPEN|..|text| - |ANCHOR_CLOSE|];
      if '"' in id then None else Some(id)
  }

  /** The line that closes the fence, unless another fence or the end comes first. */
  function FenceClose(lines: seq<string>, i: nat, end: nat): (r: Option<nat>)
    requires end <= |lines|
    ensures r.Some? ==> i <= r.value < end
    decreases end - i
  {
    if i >= end then None
    else if Strip(lines[i]) == "```" then Some(i)
    else if IsFence(Strip(lines[i])) then None
    else FenceClose(lines, i + 1, end)
  }

  /** The part of a central record behind its heading at line `heading`: YAML block and viewer link. */
  function EntryBody(lines: seq<string>, heading: nat, end: nat, p: Protocol, test: string, title: string)
    : (r: Option<(Entry, nat)>)
    requires end <= |lines|
    ensures r.Some? ==> heading < r.value.1 <= end
  {
    var open := NextText(lines, heading + 1, end);
    if open >= end || Lower(Strip(lines[open])) != "```yaml" then None
    else
      match FenceClose(lines, open + 1, end)
      case None => None
      case Some(close) =>
        var viewer := NextText(lines, close + 1, end);
        match p.payload(lines[open + 1..close])
        case None => None
        case Some(data) =>
          if viewer >= end || !p.viewerLink(Strip(lines[viewer])) then None
          else Some((Entry(test, title, open, data), viewer + 1))
  }

  /** The central record that starts at line `i`, and the line after it: anchor, heading, YAML block, viewer link,
      with blank lines between them. */
  function EntryAt(lines: seq<string>, i: nat, end: nat, p: Protocol): (r: Option<(Entry, nat)>)
    requires i < end <= |lines|
    ensures r.Some? ==> i < r.value.1 <= end
  {
    var heading := NextText(lines, i + 1, end);
    var anchor := AnchorIn(Strip(lines[i]));
    if anchor.None? || heading >= end then None
    else
      match p.recordHeading(Strip(lines[heading]))
      case None => None
      case Some((test, title)) =>
        if NormalizeTestCaseTag(test).None? || p.anchor(test) != anchor.value then None
        else EntryBody(lines, heading, end, p, test, title)
  }

  method SkipBlank(lines: seq<string>, i: nat, end: nat) returns (r: nat)
    requires end <= |lines|
    ensures r == NextText(lines, i, end)
  {
    hide Strip;
    r := i;
    while r < end && Strip(lines[r]) == ""
      invariant i <= r && NextText(lines, i, end) == NextText(lines, r, end)
      decreases end - r
    {
      r := r + 1;
    }
  }

  method FindFenceClose(lines: seq<string>, i: nat, end: nat) returns (r: Option<nat>)
    requires end <= |lines|
    ensures r == FenceClose(lines, i, end)
  {
    hide Strip;
    var index := i;
    while index < end && Strip(lines[index]) != "```"
      invariant i <= index && FenceClose(lines, i, end) == FenceClose(lines, index, end)
      decreases end - index
    {
      if IsFence(Strip(lines[index])) {
        return None;
      }
      index := index + 1;
    }
    r := if index >= end then None else Some(index);
  }

  /** Everything behind the heading of a record. */
  method ReadBody(lines: seq<string>, heading: nat, end: nat, p: Protocol, test: string, title: string)
    returns (r: Option<(Entry, nat)>)
    requires end <= |lines|
    ensures r == EntryBody(lines, heading, end, p, test, title)
  {
    hide Strip, FenceClose, NextText, Lower;
    var open := SkipBlank(lines, heading + 1, end);
    if open >= end || Lower(Strip(lines[open])) != "```yaml" {
      return None;
    }
    var close := FindFenceClose(lines, open + 1, end);
    if close.None? {
      return None;
    }
    var data := p.payload(lines[open + 1..close.value]);
    if data.None? {
      return None;
    }
    var viewer := SkipBlank(lines, close.value + 1, end);
    if viewer >= end || !p.viewerLink(Strip(lines[viewer])) {
      return None;
    }
    r := Some((Entry(test, title, open, data.value), viewer + 1));
  }

  method ReadEntry(lines: seq<string>, i: nat, end: nat, p: Protocol) returns (r: Option<(Entry, nat)>)
    requires i < end <= |lines|
    ensures r == EntryAt(lines, i, end, p)
  {
    hide Strip, AnchorIn, NextText, EntryBody, NormalizeTestCaseTag;
    var anchor := AnchorIn(Strip(lines[i]));
    if anchor.None? {
      return None;
    }
    var heading := SkipBlank(lines, i + 1, end);
    if heading >= end {
      return None;
    }
    var named := p.recordHeading(Strip(lines[heading]));
    if named.None? || NormalizeTestCaseTag(named.value.0).None? || p.anchor(named.value.0) != anchor.value {
      return None;
    }
    r := ReadBody(lines, heading, end, p, named.value.0, named.value.1);
  }

  // ---------------------------------------------------------------- all central records

  /** The records from line `i` on. */
  function EntriesFrom(lines: seq<string>, i: nat, end: nat, p: Protocol): Option<seq<Entry>>
    requires end <= |lines|
    decreases if i < end then end - i else 0
  {
    var first := NextText(lines, i, end);
    if first >= end then Some([])
    else
      match EntryAt(lines, first, end, p)
      case None => None
      case Some((e, next)) =>
        match EntriesFrom(lines, next, end, p)
        case None => None
        case Some(rest) => Some([e] + rest)
  }

  function BugsWith(a: seq<Association>, test: string): seq<string>
  {
    if a == [] then []
    else (if a[0].test == test then [a[0].bug] else []) + BugsWith(a[1..], test)
  }

  /** The sorted Bugs that reference the test. */
  function BugsOf(a: seq<Association>, test: string): seq<string>
  {
    SortedSet(BugsWith(a, test))
  }

  /** The record repeats the title of the tests it documents, and lists exactly the Bugs that reference it. */
  ghost predicate EntryOk(e: Entry, a: seq<Association>, pairs: seq<(string, Test)>)
  {
    var bugs := BugsOf(a, e.test);
    && (forall k :: 0 <= k < |pairs| && "TC-" + pairs[k].1.name == e.test ==> pairs[k].1.title == e.title)
    && e.data.testCase == Some(e.test)
    && bugs != [] && e.data.bugTags == Some(bugs) && e.data.evidence == Some(set b | b in bugs)
  }

  function Tests(entries: seq<Entry>): (r: seq<string>)
    ensures |r| == |entries| && forall k :: 0 <= k < |r| ==> r[k] == entries[k].test
  {
    Map(entries, (e: Entry) => e.test)
  }

  ghost predicate EntriesOk(entries: seq<Entry>, a: seq<Association>, pairs: seq<(string, Test)>)
  {
    NoDup(Tests(entries)) && forall e :: e in entries ==> EntryOk(e, a, pairs)
  }

  function BlocksOf(entries: seq<Entry>, a: seq<Association>): map<string, Block>
  {
    if entries == [] then map[]
    else
      var e := entries[|entries| - 1];
      BlocksOf(entries[..|entries| - 1], a)[e.test := Block(e.line, e.data, BugsOf(a, e.test))]
  }

  method CheckEntry(e: Entry, a: seq<Association>, pairs: seq<(string, Test)>) returns (ok: bool)
    ensures ok == EntryOk(e, a, pairs)
  {
    hide BugsOf;
    for k := 0 to |pairs|
      invariant forall j :: 0 <= j < k && "TC-" + pairs[j].1.name == e.test ==> pairs[j].1.title == e.title
    {
      if "TC-" + pairs[k].1.name == e.test && pairs[k].1.title != e.title {
        return false;
      }
    }
    var expected := BugsOf(a, e.test);
    ok := e.data.testCase == Some(e.test) && expected != [] && e.data.bugTags == Some(expected)
          && e.data.evidence == Some(set b | b in expected);
  }

  /** The loop over the evidence container. */
  method ReadBlocks(lines: seq<string>, start: nat, end: nat, p: Protocol, a: seq<Association>,
                    pairs: seq<(string, Test)>)
    returns (r: Option<map<string, Block>>)
    requires start <= end <= |lines|
    ensures r == BlocksIn(lines, start, end, p, a, pairs)
  {
    hide EntryAt, EntryOk, NextText, BugsOf, BlocksOf;
    var blocks: map<string, Block> := map[];
    ghost var done: seq<Entry> := [];
    var index := start;
    NoBlocks(a);
    NothingBefore(lines, start, end, p);
    while index < end
      invariant start <= index <= end
      invariant Continues(lines, start, end, p, done, index)
      invariant EntriesOk(done, a, pairs) && blocks == BlocksOf(done, a)
      invariant forall t :: t in blocks <==> t in Tests(done)
      decreases end - index
    {
      var first := SkipBlank(lines, index, end);
      NextTextBounds(lines, index, end);
      if first >= end {
        NoMore(lines, start, end, p, done, index);
        return Some(blocks);
      }
      var entry := ReadEntry(lines, first, end, p);
      if entry.None? {
        BadEntry(lines, start, end, p, done, index);
        return None;
      }
      var e := entry.value.0;
      OneEntry(lines, start, end, p, done, index, e, entry.value.1);
      if e.test in blocks {
        RefusedEntry(lines, start, end, p, done, entry.value.1, e, a, pairs);
        return None;
      }
      var ok := CheckEntry(e, a, pairs);
      if !ok {
        RefusedEntry(lines, start, end, p, done, entry.value.1, e, a, pairs);
        return None;
      }
      BlockAdded(done, e, a);
      NewTest(done, e);
      blocks := blocks[e.test := Block(e.line, e.data, BugsOf(a, e.test))];
      done := done + [e];
      index := entry.value.1;
    }
    AtEnd(lines, index, end, p);
    NoMore(lines, start, end, p, done, index);
    r := Some(blocks);
  }

  /** The blocks of the evidence container, if all its records are acceptable. */
  ghost function BlocksIn(lines: seq<string>, start: nat, end: nat, p: Protocol, a: seq<Association>,
                          pairs: seq<(string, Test)>): Option<map<string, Block>>
    requires end <= |lines|
  {
    match EntriesFrom(lines, start, end, p)
    case None => None
    case Some(entries) => if EntriesOk(entries, a, pairs) then Some(BlocksOf(entries, a)) else None
  }

  /** After the records `done`, reading goes on at line `index`. */
  ghost predicate Continues(lines: seq<string>, start: nat, end: nat, p: Protocol, done: seq<Entry>, index: nat)
    requires end <= |lines|
  {
    EntriesFrom(lines, start, end, p) ==
      match EntriesFrom(lines, index, end, p)
      case None => None
      case Some(rest) => Some(done + rest)
  }

  lemma NoBlocks(a: seq<Association>)
    ensures BlocksOf([], a) == map[] && Tests([]) == []
  {
  }

  lemma NothingBefore(lines: seq<string>, start: nat, end: nat, p: Protocol)
    requires end <= |lines|
    ensures Continues(lines, start, end, p, [], start)
  {
    hide EntriesFrom;
    if EntriesFrom(lines, start, end, p).Some? {
      SeqAssoc(EntriesFrom(lines, start, end, p).value, [], []);
    }
  }

  lemma NextTextBounds(lines: seq<string>, i: nat, end: nat)
    requires i <= end <= |lines|
    ensures i <= NextText(lines, i, end) <= end
  {
  }

  lemma AtEnd(lines: seq<string>, i: nat, end: nat, p: Protocol)
    requires end <= |lines| && i >= end
    ensures NextText(lines, i, end) >= end
  {
  }

  lemma NoMore(lines: seq<string>, start: nat, end: nat, p: Protocol, done: seq<Entry>, index: nat)
    requires end <= |lines| && Continues(lines, start, end, p, done, index) && NextText(lines, index, end) >= end
    ensures EntriesFrom(lines, start, end, p) == Some(done)
  {
    hide EntryAt, NextText;
    SeqAssoc(done, [], []);
  }

  lemma BadEntry(lines: seq<string>, start: nat, end: nat, p: Protocol, done: seq<Entry>, index: nat)
    requires end <= |lines| && Continues(lines, start, end, p, done, index) && NextText(lines, index, end) < end
    requires EntryAt(lines, NextText(lines, index, end), end, p).None?
    ensures EntriesFrom(lines, start, end, p).None?
  {
    hide EntryAt, NextText;
  }

  lemma OneEntry(lines: seq<string>, start: nat, end: nat, p: Protocol, done: seq<Entry>, index: nat, e: Entry,
                 next: nat)
    requires end <= |lines| && Continues(lines, start, end, p, done, index) && NextText(lines, index, end) < end
    requires EntryAt(lines, NextText(lines, index, end), end, p) == Some((e, next))
    ensures Continues(lines, start, end, p, done + [e], next)
  {
    hide EntryAt, NextText;
    var rest := EntriesFrom(lines, next, end, p);
    if rest.Some? {
      SeqAssoc(done, [e], rest.value);
    }
  }

  lemma RefusedEntry(lines: seq<string>, start: nat, end: nat, p: Protocol, done: seq<Entry>, next: nat, e: Entry,
                     a: seq<Association>, pairs: seq<(string, Test)>)
    requires end <= |lines| && Continues(lines, start, end, p, done + [e], next)
    requires e.test in Tests(done) || !EntryOk(e, a, pairs)
    ensures BlocksIn(lines, start, end, p, a, pairs).None?
  {
    hide EntriesFrom, EntryOk, BlocksOf;
    var entries := EntriesFrom(lines, start, end, p);
    if entries.Some? {
      var all := entries.value;
      assert all[|done|] == e && e in all;
      if e.test in Tests(done) {
        var k :| 0 <= k < |done| && Tests(done)[k] == e.test;
        assert Tests(all)[k] == Tests(all)[|done|];
      }
    }
  }

  lemma BlockAdded(done: seq<Entry>, e: Entry, a: seq<Association>)
    ensures BlocksOf(done + [e], a) == BlocksOf(done, a)[e.test := Block(e.line, e.data, BugsOf(a, e.test))]
  {
    assert (done + [e])[..|done|] == done;
  }

  lemma NewTest(done: seq<Entry>, e: Entry)
    ensures Tests(done + [e]) == Tests(done) + [e.test]
  {
  }

  // ---------------------------------------------------------------- the whole parser

  /** The central records of an accepted document; None stands for every reported error. */
  ghost function Blocks(document: Option<seq<string>>, c: Contract, p: Protocol): Option<map<string, Block>>
  {
    match document
    case None => None
    case Some(lines) =>
      var dynStart, dynEnd := Only(lines, DYNAMIC_BUGS), Only(lines, DYNAMIC_BUGS_END);
      var evStart, evEnd := Only(lines, EVIDENCE), Only(lines, EVIDENCE_END);
      if dynStart.None? || dynEnd.None? || evStart.None? || evEnd.None? then None
      else if !(dynStart.value < dynEnd.value < evStart.value < evEnd.value) then None
      else
        match DynamicRecords(document, c)
        case None => None
        case Some(records) =>
          match AssociationsIn(lines, dynEnd.value, Pairs(records), p)
          case None => None
          case Some(a) =>
            if !Placed(lines, dynStart.value, dynEnd.value, a) then None
            else BlocksIn(lines, evStart.value + 1, evEnd.value, p, a, Pairs(records))
  }

  method ParseWaveformBlocks(document: Option<seq<string>>, c: Contract, p: Protocol)
    returns (blocks: Option<map<string, Block>>)
    ensures blocks == Blocks(document, c, p)
  {
    hide Only, DynamicRecords, AssociationsIn, Placed, BlocksIn, Pairs, OnlyAt;
    if document.None? {
      return None;
    }
    var lines := document.value;
    var dynStart := FindOnly(lines, DYNAMIC_BUGS);
    var dynEnd := FindOnly(lines, DYNAMIC_BUGS_END);
    var evStart := FindOnly(lines, EVIDENCE);
    var evEnd := FindOnly(lines, EVIDENCE_END);
    if dynStart.None? || dynEnd.None? || evStart.None? || evEnd.None? {
      return None;
    }
    if !(dynStart.value < dynEnd.value < evStart.value < evEnd.value) {
      return None;
    }
    OnlyBounds(lines, DYNAMIC_BUGS_END);
    OnlyBounds(lines, EVIDENCE_END);
    var records := ParseDynamicBugRecords(document, c);
    if records.None? {
      return None;
    }
    var a := CollectAssociations(lines, dynEnd.value, records.value, p);
    if a.None? {
      return None;
    }
    var placed := CheckPlacement(lines, dynStart.value, dynEnd.value, a.value);
    if !placed {
      return None;
    }
    blocks := ReadBlocks(lines, evStart.value + 1, evEnd.value, p, a.value, Pairs(records.value));
  }

  lemma OnlyBounds(lines: seq<string>, marker: string)
    ensures Only(lines, marker).Some? ==> Only(lines, marker).value < |lines|
  {
  }
}
