/** Exactly which waveform documents are accepted, said about their lines (ucagent/checkers/toffee_report.py). */
module WaveformRules {
  import opened Text
  import opened Lists
  import opened Records
  import opened DynamicBugs
  import opened DynamicBugLines
  import opened TestTags
  import opened Waveform
  import opened WaveformGate

  // ---------------------------------------------------------------- lines

  ghost predicate BlankBetween(lines: seq<string>, i: nat, j: nat)
  {
    forall k: nat :: i <= k < j && k < |lines| ==> Strip(lines[k]) == ""
  }

  lemma NextTextIff(lines: seq<string>, i: nat, end: nat, r: nat)
    requires i <= end <= |lines|
    ensures NextText(lines, i, end) == r <==>
            i <= r <= end && BlankBetween(lines, i, r) && (r < end ==> Strip(lines[r]) != "")
  {
    hide Strip;
  }

  /** The line is the only one that is this marker. */
  predicate MarkedBy(lines: seq<string>, marker: string, i: nat)
  {
    i < |lines| && forall k :: 0 <= k < |lines| ==> (Strip(lines[k]) == marker <==> k == i)
  }

  lemma MarkedIff(lines: seq<string>, marker: string, i: nat)
    ensures Only(lines, marker) == Some(i) <==> MarkedBy(lines, marker, i)
  {
    hide Strip, Only;
    if Only(lines, marker) == Some(i) { OnlyHolds(lines, marker); }
    if MarkedBy(lines, marker, i) {
      assert OnlyAt(lines, marker, i);
      OnlyIs(lines, marker, i);
    }
  }

  lemma OnlyHolds(lines: seq<string>, marker: string)
    requires Only(lines, marker).Some?
    ensures OnlyAt(lines, marker, Only(lines, marker).value)
  {
    hide Strip;
  }

  // ---------------------------------------------------------------- references

  /** The next text behind the test is the reference to the normal form of its tag. */
  ghost predicate ReferredAt(lines: seq<string>, end: nat, t: Test, p: Protocol, tag: string, ref: nat)
  {
    && NormalizeTestCaseTag("TC-" + t.name) == Some(tag) && NormalizeTestCaseTag(tag).Some?
    && t.line < ref < end <= |lines| && BlankBetween(lines, t.line + 1, ref)
    && Strip(lines[ref]) == "<WAVEFORM-REF> [WAVEFORM-EVIDENCE](#" + p.anchor(tag) + ")"
  }

  lemma ReferenceText(p: Protocol, tag: string)
    ensures Reference(p, tag) == "<WAVEFORM-REF> [WAVEFORM-EVIDENCE](#" + p.anchor(tag) + ")" && Reference(p, tag) != ""
  {
    assert REFERENCE + " [WAVEFORM-EVIDENCE](#" == "<WAVEFORM-REF> [WAVEFORM-EVIDENCE](#";
  }

  lemma AssociationIff(lines: seq<string>, end: nat, pair: (string, Test), p: Protocol, x: Association)
    requires end <= |lines|
    ensures AssociationOf(lines, end, pair, p) == Some(x) <==>
            ReferredAt(lines, end, pair.1, p, x.test, x.ref) && x.bug == pair.0 && x.line == pair.1.line
  {
    hide Strip, NormalizeTestCaseTag, NextText, Reference;
    ReferenceText(p, x.test);
    if pair.1.line + 1 <= end {
      NextTextIff(lines, pair.1.line + 1, end, x.ref);
    } else {
      NextTextPast(lines, pair.1.line + 1, end);
    }
  }

  lemma NextTextPast(lines: seq<string>, i: nat, end: nat)
    requires end <= |lines| && i >= end
    ensures NextText(lines, i, end) == i
  {
  }

  /** The associations the tests amount to: each with its reference, and none twice. */
  ghost predicate Linked(lines: seq<string>, end: nat, pairs: seq<(string, Test)>, p: Protocol, a: seq<Association>)
  {
    && |a| == |pairs|
    && (forall k :: 0 <= k < |a| ==> ReferredAt(lines, end, pairs[k].1, p, a[k].test, a[k].ref)
                                     && a[k].bug == pairs[k].0 && a[k].line == pairs[k].1.line)
    && (forall j, k :: 0 <= j < k < |a| ==> a[j].bug != a[k].bug || a[j].test != a[k].test)
  }

  lemma LinkedIff(lines: seq<string>, end: nat, pairs: seq<(string, Test)>, p: Protocol, a: seq<Association>)
    requires end <= |lines|
    ensures AssociationsOf(lines, end, pairs, p, a) <==> Linked(lines, end, pairs, p, a)
  {
    hide AssociationOf, ReferredAt;
    if |a| == |pairs| {
      forall k | 0 <= k < |a|
        ensures AssociationOf(lines, end, pairs[k], p) == Some(a[k]) <==>
                ReferredAt(lines, end, pairs[k].1, p, a[k].test, a[k].ref)
                && a[k].bug == pairs[k].0 && a[k].line == pairs[k].1.line {
        AssociationIff(lines, end, pairs[k], p, a[k]);
      }
    }
    LinksDiffer(a);
  }

  lemma LinksDiffer(a: seq<Association>)
    ensures NoDup(Map(a, BugAndTest)) <==>
            forall j, k :: 0 <= j < k < |a| ==> a[j].bug != a[k].bug || a[j].test != a[k].test
  {
    var all := Map(a, BugAndTest);
    if NoDup(all) {
      forall j, k | 0 <= j < k < |a| ensures a[j].bug != a[k].bug || a[j].test != a[k].test { assert all[j] != all[k]; }
    }
  }

  lemma LinkedOnce(lines: seq<string>, end: nat, pairs: seq<(string, Test)>, p: Protocol, a: seq<Association>)
    requires end <= |lines|
    ensures AssociationsIn(lines, end, pairs, p) == Some(a) <==> Linked(lines, end, pairs, p, a)
  {
    hide AssociationsOf, AssociationsIn, Linked;
    LinkedIff(lines, end, pairs, p, a);
    if Linked(lines, end, pairs, p, a) { AssociationsUnique(lines, end, pairs, p, a); }
    if AssociationsIn(lines, end, pairs, p).Some? { AssociationsAre(lines, end, pairs, p); }
  }

  lemma AssociationsAre(lines: seq<string>, end: nat, pairs: seq<(string, Test)>, p: Protocol)
    requires end <= |lines| && AssociationsIn(lines, end, pairs, p).Some?
    ensures AssociationsOf(lines, end, pairs, p, AssociationsIn(lines, end, pairs, p).value)
  {
    hide AssociationsOf;
  }

  /** A line of the Bug container that holds no waveform data, except that it may be the reference of a test. */
  ghost predicate Tidy(text: string, isReference: bool)
  {
    && (Contains(text, "<WAVEFORM-REF>") ==> isReference)
    && ("<WAVEFORM-" <= text ==> Contains(text, "<WAVEFORM-REF>"))
    && text != "waveform_analysis:" && !Contains(text, "<WAVEFORM-VIEWER>") && !Contains(text, "/surfer/?wave=")
  }

  ghost predicate AllTidy(lines: seq<string>, start: nat, end: nat, a: seq<Association>)
  {
    forall i: nat :: start < i < end && i < |lines| ==> Tidy(Strip(lines[i]), exists k :: 0 <= k < |a| && a[k].ref == i)
  }

  lemma TidyIff(lines: seq<string>, start: nat, end: nat, a: seq<Association>)
    requires end <= |lines|
    ensures Placed(lines, start, end, a) <==> AllTidy(lines, start, end, a)
  {
    hide Strip, Contains;
    forall i: nat | start < i < end
      ensures Tidy(Strip(lines[i]), exists k :: 0 <= k < |a| && a[k].ref == i) <==>
              (Mentions(Strip(lines[i])) ==> IsReference(a, i)) && !Misplaced(Strip(lines[i])) {
      assert REFERENCE == "<WAVEFORM-REF>";
    }
  }

  // ---------------------------------------------------------------- one central record

  /** A record stands from line `first` to the line before `next`: its anchor, its heading, a YAML block and a viewer link,
      with only blank lines between them. */
  ghost predicate Stands(lines: seq<string>, p: Protocol, first: nat, heading: nat, close: nat, next: nat, e: Entry)
  {
    && first < heading < e.line < close < next - 1 < |lines|
    && p.anchor(e.test) != "" && '"' !in p.anchor(e.test)
    && Strip(lines[first]) == "<a id=\"" + p.anchor(e.test) + "\"></a>"
    && BlankBetween(lines, first + 1, heading) && Strip(lines[heading]) != ""
    && p.recordHeading(Strip(lines[heading])) == Some((e.test, e.title)) && NormalizeTestCaseTag(e.test).Some?
    && BlankBetween(lines, heading + 1, e.line) && Lower(Strip(lines[e.line])) == "```yaml"
    && (forall k: nat :: e.line < k < close ==> !("```" <= Strip(lines[k]))) && Strip(lines[close]) == "```"
    && p.payload(lines[e.line + 1..close]) == Some(e.data)
    && BlankBetween(lines, close + 1, next - 1) && Strip(lines[next - 1]) != "" && p.viewerLink(Strip(lines[next - 1]))
  }

  lemma AnchorIff(text: string, id: string)
    ensures AnchorIn(text) == Some(id) <==> text == "<a id=\"" + id + "\"></a>" && id != "" && '"' !in id
  {
    var whole := ANCHOR_OPEN + id + ANCHOR_CLOSE;
    assert whole == "<a id=\"" + id + "\"></a>";
    assert whole[..|ANCHOR_OPEN|] == ANCHOR_OPEN && whole[|whole| - |ANCHOR_CLOSE|..] == ANCHOR_CLOSE;
    assert whole[|ANCHOR_OPEN|..|whole| - |ANCHOR_CLOSE|] == id;
    if AnchorIn(text) == Some(id) { BetweenEnds(text, ANCHOR_OPEN, ANCHOR_CLOSE); }
  }

  lemma {:induction false} FenceIff(lines: seq<string>, i: nat, end: nat, close: nat)
    requires end <= |lines|
    ensures FenceClose(lines, i, end) == Some(close) <==>
            i <= close < end && Strip(lines[close]) == "```" && forall k: nat :: i <= k < close ==> !("```" <= Strip(lines[k]))
    decreases if i < end then end - i else 0
  {
    hide Strip;
    if i < end && Strip(lines[i]) != "```" && !IsFence(Strip(lines[i])) {
      FenceIff(lines, i + 1, end, close);
    }
  }

  lemma YamlIsText()
    ensures Lower("") != "```yaml"
  {
  }

  lemma BodyIff(lines: seq<string>, heading: nat, end: nat, p: Protocol, test: string, title: string, e: Entry, next: nat)
    requires heading < end <= |lines|
    ensures EntryBody(lines, heading, end, p, test, title) == Some((e, next)) <==>
            && e.test == test && e.title == title && heading < e.line
            && BlankBetween(lines, heading + 1, e.line) && e.line < end && Lower(Strip(lines[e.line])) == "```yaml"
            && exists close: nat :: BodyEnds(lines, p, e, close, next) && next <= end
  {
    hide Strip, Lower, NextText, FenceClose, BodyEnds;
    YamlIsText();
    var open := NextText(lines, heading + 1, end);
    NextTextIff(lines, heading + 1, end, e.line);
    if e.line == open && open < end && Lower(Strip(lines[open])) == "```yaml" {
      BodyEndsIff(lines, end, p, e, next);
    }
  }

  /** From the fence of the record on. */
  ghost predicate BodyEnds(lines: seq<string>, p: Protocol, e: Entry, close: nat, next: nat)
  {
    && e.line < close < next - 1 < |lines|
    && (forall k: nat :: e.line < k < close ==> !("```" <= Strip(lines[k]))) && Strip(lines[close]) == "```"
    && p.payload(lines[e.line + 1..close]) == Some(e.data)
    && BlankBetween(lines, close + 1, next - 1) && Strip(lines[next - 1]) != "" && p.viewerLink(Strip(lines[next - 1]))
  }

  /** A record that ends before `next` ends behind its first fence line. */
  lemma EndsAtFence(lines: seq<string>, end: nat, p: Protocol, e: Entry, c: nat, next: nat)
    requires e.line < end <= |lines|
    ensures BodyEnds(lines, p, e, c, next) && next <= end ==> FenceClose(lines, e.line + 1, end) == Some(c)
  {
    hide Strip, FenceClose, BlankBetween;
    FenceIff(lines, e.line + 1, end, c);
  }

  lemma EndsBehind(lines: seq<string>, end: nat, p: Protocol, e: Entry, close: nat, next: nat)
    requires e.line < end <= |lines| && FenceClose(lines, e.line + 1, end) == Some(close)
    ensures var viewer := NextText(lines, close + 1, end);
            (BodyEnds(lines, p, e, close, next) && next <= end) <==>
            p.payload(lines[e.line + 1..close]) == Some(e.data)
            && viewer < end && p.viewerLink(Strip(lines[viewer])) && next == viewer + 1
  {
    hide Strip, NextText, FenceClose, BlankBetween;
    FenceIff(lines, e.line + 1, end, close);
    NextTextIff(lines, close + 1, end, NextText(lines, close + 1, end));
    if next >= 1 { NextTextIff(lines, close + 1, end, next - 1); }
  }

  lemma BodyEndsIff(lines: seq<string>, end: nat, p: Protocol, e: Entry, next: nat)
    requires e.line < end <= |lines|
    ensures var close := FenceClose(lines, e.line + 1, end);
            (exists c: nat :: BodyEnds(lines, p, e, c, next) && next <= end) <==>
            close.Some? && p.payload(lines[e.line + 1..close.value]) == Some(e.data)
            && NextText(lines, close.value + 1, end) < end && p.viewerLink(Strip(lines[NextText(lines, close.value + 1, end)]))
            && next == NextText(lines, close.value + 1, end) + 1
  {
    hide *;
    var close := FenceClose(lines, e.line + 1, end);
    if close.Some? { EndsBehind(lines, end, p, e, close.value, next); }
    forall c: nat | BodyEnds(lines, p, e, c, next) && next <= end ensures close == Some(c) {
      EndsAtFence(lines, end, p, e, c, next);
    }
  }

  /** A record whose anchor is at line `first` and that ends before line `next`. */
  ghost predicate StandsAt(lines: seq<string>, p: Protocol, first: nat, e: Entry, next: nat)
  {
    exists heading: nat, close: nat :: Stands(lines, p, first, heading, close, next, e)
  }

  lemma EntryStands(lines: seq<string>, i: nat, end: nat, p: Protocol, e: Entry, next: nat)
    requires i < end <= |lines| && EntryAt(lines, i, end, p) == Some((e, next))
    ensures StandsAt(lines, p, i, e, next) && next <= end
  {
    hide Strip, Lower, NextText, FenceClose, EntryBody, NormalizeTestCaseTag, AnchorIn;
    var heading := NextText(lines, i + 1, end);
    NextTextIff(lines, i + 1, end, heading);
    var (test, title) := p.recordHeading(Strip(lines[heading])).value;
    AnchorIff(Strip(lines[i]), p.anchor(test));
    BodyIff(lines, heading, end, p, test, title, e, next);
    var close: nat :| BodyEnds(lines, p, e, close, next) && next <= end;
    assert Stands(lines, p, i, heading, close, next, e);
  }

  lemma StandingEntry(lines: seq<string>, i: nat, end: nat, p: Protocol, e: Entry, next: nat)
    requires i < end <= |lines| && StandsAt(lines, p, i, e, next) && next <= end
    ensures EntryAt(lines, i, end, p) == Some((e, next))
  {
    hide Strip, Lower, NextText, FenceClose, EntryBody, NormalizeTestCaseTag, AnchorIn;
    var heading: nat, close: nat :| Stands(lines, p, i, heading, close, next, e);
    NextTextIff(lines, i + 1, end, heading);
    AnchorIff(Strip(lines[i]), p.anchor(e.test));
    BodyIff(lines, heading, end, p, e.test, e.title, e, next);
    assert BodyEnds(lines, p, e, close, next);
  }

  lemma EntryIff(lines: seq<string>, i: nat, end: nat, p: Protocol, e: Entry, next: nat)
    requires i < end <= |lines|
    ensures EntryAt(lines, i, end, p) == Some((e, next)) <==> StandsAt(lines, p, i, e, next) && next <= end
  {
    hide EntryAt, StandsAt;
    if EntryAt(lines, i, end, p) == Some((e, next)) { EntryStands(lines, i, end, p, e, next); }
    if StandsAt(lines, p, i, e, next) && next <= end { StandingEntry(lines, i, end, p, e, next); }
  }

  // ---------------------------------------------------------------- all central records

  /** After blank lines a record, up to line `next`. */
  ghost predicate NextRecord(lines: seq<string>, p: Protocol, i: nat, e: Entry, next: nat)
  {
    exists first: nat :: i <= first < next && BlankBetween(lines, i, first) && StandsAt(lines, p, first, e, next)
  }

  /** Between the two lines stand these records and blank lines, and nothing else. */
  ghost predicate Layout(lines: seq<string>, p: Protocol, i: nat, end: nat, entries: seq<Entry>)
    decreases |entries|
  {
    if entries == [] then BlankBetween(lines, i, end)
    else exists next: nat :: i < next <= end && NextRecord(lines, p, i, entries[0], next) && Layout(lines, p, next, end, entries[1..])
  }

  lemma AnchorIsText(lines: seq<string>, p: Protocol, first: nat, e: Entry, next: nat)
    requires StandsAt(lines, p, first, e, next)
    ensures first < next <= |lines| && Strip(lines[first]) != ""
  {
    hide Strip, Lower;
  }

  lemma NextRecordIff(lines: seq<string>, i: nat, end: nat, p: Protocol, e: Entry, next: nat)
    requires i <= end <= |lines|
    ensures var first := NextText(lines, i, end);
            (NextRecord(lines, p, i, e, next) && next <= end) <==>
            first < end && EntryAt(lines, first, end, p) == Some((e, next))
  {
    hide Strip, NextText, EntryAt, StandsAt;
    var first := NextText(lines, i, end);
    NextTextIff(lines, i, end, first);
    if first < end { EntryIff(lines, first, end, p, e, next); }
    if NextRecord(lines, p, i, e, next) && next <= end {
      var f: nat :| i <= f < next && BlankBetween(lines, i, f) && StandsAt(lines, p, f, e, next);
      AnchorIsText(lines, p, f, e, next);
      NextTextIff(lines, i, end, f);
    }
    if first < end && EntryAt(lines, first, end, p) == Some((e, next)) {
      AnchorIsText(lines, p, first, e, next);
    }
  }

  lemma BlankIff(lines: seq<string>, i: nat, end: nat)
    requires i <= end <= |lines|
    ensures BlankBetween(lines, i, end) <==> NextText(lines, i, end) >= end
  {
    hide Strip;
    NextTextIff(lines, i, end, end);
    NextTextIff(lines, i, end, NextText(lines, i, end));
  }

  lemma {:induction false} LayoutIff(lines: seq<string>, i: nat, end: nat, p: Protocol, entries: seq<Entry>)
    requires i <= end <= |lines|
    ensures EntriesFrom(lines, i, end, p) == Some(entries) <==> Layout(lines, p, i, end, entries)
    decreases |entries|
  {
    hide Strip, NextText, EntryAt, NextRecord, BlankBetween;
    var first := NextText(lines, i, end);
    BlankIff(lines, i, end);
    FirstInside(lines, i, end);
    if entries != [] {
      var e := entries[0];
      forall next: nat
        ensures (NextRecord(lines, p, i, e, next) && next <= end) <==>
                first < end && EntryAt(lines, first, end, p) == Some((e, next)) {
        NextRecordIff(lines, i, end, p, e, next);
      }
      if first < end && EntryAt(lines, first, end, p).Some? && EntryAt(lines, first, end, p).value.0 == e {
        var next := EntryAt(lines, first, end, p).value.1;
        LayoutIff(lines, next, end, p, entries[1..]);
        assert entries == [e] + entries[1..];
      }
    }
  }

  lemma FirstInside(lines: seq<string>, i: nat, end: nat)
    requires i <= end <= |lines|
    ensures i <= NextText(lines, i, end)
  {
  }

  // ---------------------------------------------------------------- records and the tests they belong to

  /** The Bugs that reference the test, in ascending order, each once. */
  ghost predicate BugList(bugs: seq<string>, a: seq<Association>, test: string)
  {
    Sorted(bugs) && NoDup(bugs) && forall bug :: bug in bugs <==> Links(a, bug, test)
  }

  /** The record repeats the title of the tests with its tag, names its test, and lists exactly the Bugs that reference it,
      of which there is one at least, both as tags and as evidence. */
  ghost predicate RecordFits(e: Entry, a: seq<Association>, pairs: seq<(string, Test)>)
  {
    && (forall k :: 0 <= k < |pairs| && "TC-" + pairs[k].1.name == e.test ==> pairs[k].1.title == e.title)
    && e.data.testCase == Some(e.test) && e.data.bugTags.Some? && e.data.bugTags.value != []
    && BugList(e.data.bugTags.value, a, e.test)
    && e.data.evidence.Some? && forall bug :: bug in e.data.evidence.value <==> Links(a, bug, e.test)
  }

  lemma SameSorted(s: seq<string>, t: seq<string>)
    requires Sorted(s) && Sorted(t) && NoDup(s) && NoDup(t) && forall x :: x in s <==> x in t
    ensures s == t
  {
    hide Sorted;
    NoDupByCount(s);
    NoDupByCount(t);
    assert multiset(s) == multiset(t) by {
      forall x ensures multiset(s)[x] == multiset(t)[x] {
        assert x in s <==> x in multiset(s);
        assert x in t <==> x in multiset(t);
      }
    }
    SortedUnique(s, t);
  }

  lemma BugListIff(bugs: seq<string>, a: seq<Association>, test: string)
    ensures BugsOf(a, test) == bugs <==> BugList(bugs, a, test)
  {
    hide Sorted, NoDup, BugsWith, SortedSet, Links;
    SortedSetFacts(BugsWith(a, test));
    forall bug ensures bug in BugsWith(a, test) <==> Links(a, bug, test) { LinksOfWith(a, test, bug); }
    if BugList(bugs, a, test) { SameSorted(bugs, BugsOf(a, test)); }
  }

  lemma LinksOfWith(a: seq<Association>, test: string, bug: string)
    ensures bug in BugsWith(a, test) <==> Links(a, bug, test)
  {
    BugsWithMembers(a, test, bug);
  }

  lemma RecordFitsIff(e: Entry, a: seq<Association>, pairs: seq<(string, Test)>)
    ensures EntryOk(e, a, pairs) <==> RecordFits(e, a, pairs)
  {
    hide BugsOf, BugList, Links;
    var bugs := BugsOf(a, e.test);
    BugListIff(bugs, a, e.test);
    if e.data.bugTags.Some? { BugListIff(e.data.bugTags.value, a, e.test); }
    MembersOfList(bugs, a, e.test);
    if e.data.evidence.Some? { SameSet(e.data.evidence.value, bugs, a, e.test); }
  }

  lemma SameSet(evidence: set<string>, bugs: seq<string>, a: seq<Association>, test: string)
    requires forall bug :: bug in bugs <==> Links(a, bug, test)
    ensures evidence == (set b | b in bugs) <==> forall bug :: bug in evidence <==> Links(a, bug, test)
  {
    hide Links;
    if forall bug :: bug in evidence <==> Links(a, bug, test) {
      assert forall bug :: bug in evidence <==> bug in (set b | b in bugs);
    }
  }

  lemma MembersOfList(bugs: seq<string>, a: seq<Association>, test: string)
    requires BugList(bugs, a, test)
    ensures forall bug :: bug in bugs <==> Links(a, bug, test)
  {
    hide Links;
  }

  // ---------------------------------------------------------------- the whole document

  /** What is read: the lines of the four markers, the associations and the central records. */
  datatype Reading = Reading(start: nat, end: nat, evidence: nat, last: nat, links: seq<Association>, entries: seq<Entry>)

  /** The document is in order. */
  ghost predicate InOrder(lines: seq<string>, c: Contract, p: Protocol, r: Reading)
  {
    && MarkedBy(lines, "<DYNAMIC-BUGS>", r.start) && MarkedBy(lines, "</DYNAMIC-BUGS>", r.end)
    && MarkedBy(lines, "<WAVEFORM-EVIDENCE>", r.evidence) && MarkedBy(lines, "</WAVEFORM-EVIDENCE>", r.last)
    && r.start < r.end < r.evidence < r.last && DynamicRecords(Some(lines), c).Some?
    && var pairs := Pairs(DynamicRecords(Some(lines), c).value);
    && Linked(lines, r.end, pairs, p, r.links) && AllTidy(lines, r.start, r.end, r.links)
    && Layout(lines, p, r.evidence + 1, r.last, r.entries)
    && (forall i, j :: 0 <= i < j < |r.entries| ==> r.entries[i].test != r.entries[j].test)
    && (forall i :: 0 <= i < |r.entries| ==> RecordFits(r.entries[i], r.links, pairs))
  }

  lemma EntriesFitIff(entries: seq<Entry>, a: seq<Association>, pairs: seq<(string, Test)>)
    ensures EntriesOk(entries, a, pairs) <==>
            && (forall i, j :: 0 <= i < j < |entries| ==> entries[i].test != entries[j].test)
            && (forall i :: 0 <= i < |entries| ==> RecordFits(entries[i], a, pairs))
  {
    hide EntryOk, RecordFits;
    forall e ensures EntryOk(e, a, pairs) <==> RecordFits(e, a, pairs) { RecordFitsIff(e, a, pairs); }
    if NoDup(Tests(entries)) {
      forall i, j | 0 <= i < j < |entries| ensures entries[i].test != entries[j].test {
        assert Tests(entries)[i] != Tests(entries)[j];
      }
    }
    forall i | 0 <= i < |entries| ensures entries[i] in entries {}
  }

  lemma MarkersOf(lines: seq<string>, r: Reading)
    ensures Only(lines, DYNAMIC_BUGS) == Some(r.start) <==> MarkedBy(lines, "<DYNAMIC-BUGS>", r.start)
    ensures Only(lines, DYNAMIC_BUGS_END) == Some(r.end) <==> MarkedBy(lines, "</DYNAMIC-BUGS>", r.end)
    ensures Only(lines, EVIDENCE) == Some(r.evidence) <==> MarkedBy(lines, "<WAVEFORM-EVIDENCE>", r.evidence)
    ensures Only(lines, EVIDENCE_END) == Some(r.last) <==> MarkedBy(lines, "</WAVEFORM-EVIDENCE>", r.last)
  {
    hide MarkedBy, Only;
    MarkedIff(lines, DYNAMIC_BUGS, r.start);
    MarkedIff(lines, DYNAMIC_BUGS_END, r.end);
    MarkedIff(lines, EVIDENCE, r.evidence);
    MarkedIff(lines, EVIDENCE_END, r.last);
  }

  /** A document in order is accepted, and its records are returned. */
  lemma InOrderIsAccepted(lines: seq<string>, c: Contract, p: Protocol, r: Reading)
    requires InOrder(lines, c, p, r)
    ensures Blocks(Some(lines), c, p) == Some(BlocksOf(r.entries, r.links))
  {
    hide MarkedBy, Only, DynamicRecords, Linked, AllTidy, Layout, RecordFits, Pairs, AssociationsIn, Placed, EntriesFrom, EntriesOk,
      BlocksOf;
    var pairs := Pairs(DynamicRecords(Some(lines), c).value);
    MarkersOf(lines, r);
    OnlyBounds(lines, DYNAMIC_BUGS_END);
    OnlyBounds(lines, EVIDENCE_END);
    LinkedOnce(lines, r.end, pairs, p, r.links);
    TidyIff(lines, r.start, r.end, r.links);
    LayoutIff(lines, r.evidence + 1, r.last, p, r.entries);
    EntriesFitIff(r.entries, r.links, pairs);
  }

  /** An accepted document is in order. */
  lemma AcceptedIsInOrder(lines: seq<string>, c: Contract, p: Protocol) returns (r: Reading)
    requires Blocks(Some(lines), c, p).Some?
    ensures InOrder(lines, c, p, r)
  {
    hide MarkedBy, Only, DynamicRecords, Linked, AllTidy, Layout, RecordFits, Pairs, AssociationsIn, Placed, EntriesFrom, EntriesOk,
      BlocksOf;
    var start, end := Only(lines, DYNAMIC_BUGS).value, Only(lines, DYNAMIC_BUGS_END).value;
    var evidence, last := Only(lines, EVIDENCE).value, Only(lines, EVIDENCE_END).value;
    OnlyBounds(lines, DYNAMIC_BUGS_END);
    OnlyBounds(lines, EVIDENCE_END);
    var pairs := Pairs(DynamicRecords(Some(lines), c).value);
    var links := AssociationsIn(lines, end, pairs, p).value;
    var entries := EntriesFrom(lines, evidence + 1, last, p).value;
    r := Reading(start, end, evidence, last, links, entries);
    MarkersOf(lines, r);
    LinkedOnce(lines, end, pairs, p, links);
    TidyIff(lines, start, end, links);
    LayoutIff(lines, evidence + 1, last, p, entries);
    EntriesFitIff(entries, links, pairs);
  }

  lemma {:induction false} BlocksAre(entries: seq<Entry>, a: seq<Association>, i: nat)
    requires forall j, k :: 0 <= j < k < |entries| ==> entries[j].test != entries[k].test
    ensures forall tag :: tag in BlocksOf(entries, a) <==> exists k :: 0 <= k < |entries| && entries[k].test == tag
    ensures i < |entries| ==> BlocksOf(entries, a)[entries[i].test] == Block(entries[i].line, entries[i].data, BugsOf(a, entries[i].test))
    decreases |entries|
  {
    hide BugsOf;
    if entries != [] {
      var rest := entries[..|entries| - 1];
      BlocksAre(rest, a, if i < |rest| then i else 0);
      assert forall k :: 0 <= k < |rest| ==> rest[k] == entries[k];
    }
  }

  /** Exactly which documents are accepted, and with which records: those in order; each record is returned under its test,
      with the line of its fence, its data and the Bugs it lists. */
  lemma BlocksIff(lines: seq<string>, c: Contract, p: Protocol)
    ensures Blocks(Some(lines), c, p).Some? <==> exists r: Reading :: InOrder(lines, c, p, r)
    ensures forall r: Reading :: InOrder(lines, c, p, r) ==>
              && (forall tag :: tag in Blocks(Some(lines), c, p).value <==>
                                exists i :: 0 <= i < |r.entries| && r.entries[i].test == tag)
              && (forall i :: 0 <= i < |r.entries| ==>
                    var e := r.entries[i];
                    Blocks(Some(lines), c, p).value[e.test] == Block(e.line, e.data, e.data.bugTags.value))
  {
    hide Blocks, InOrder, BlocksOf, BugsOf, BugList;
    if Blocks(Some(lines), c, p).Some? { var r := AcceptedIsInOrder(lines, c, p); }
    forall r: Reading | InOrder(lines, c, p, r)
      ensures Blocks(Some(lines), c, p) == Some(BlocksOf(r.entries, r.links))
              && (forall j, k :: 0 <= j < k < |r.entries| ==> r.entries[j].test != r.entries[k].test)
              && forall i :: 0 <= i < |r.entries| ==>
                   r.entries[i].data.bugTags == Some(BugsOf(r.links, r.entries[i].test)) {
      InOrderIsAccepted(lines, c, p, r);
      RecordsListBugs(lines, c, p, r);
    }
    forall r: Reading | InOrder(lines, c, p, r)
      ensures forall tag :: tag in BlocksOf(r.entries, r.links) <==> exists i :: 0 <= i < |r.entries| && r.entries[i].test == tag {
      BlocksAre(r.entries, r.links, 0);
    }
    forall r: Reading, i | InOrder(lines, c, p, r) && 0 <= i < |r.entries|
      ensures BlocksOf(r.entries, r.links)[r.entries[i].test] ==
              Block(r.entries[i].line, r.entries[i].data, BugsOf(r.links, r.entries[i].test)) {
      BlocksAre(r.entries, r.links, i);
    }
  }

  lemma RecordsListBugs(lines: seq<string>, c: Contract, p: Protocol, r: Reading)
    requires InOrder(lines, c, p, r)
    ensures forall j, k :: 0 <= j < k < |r.entries| ==> r.entries[j].test != r.entries[k].test
    ensures forall i :: 0 <= i < |r.entries| ==> r.entries[i].data.bugTags == Some(BugsOf(r.links, r.entries[i].test))
  {
    hide MarkedBy, DynamicRecords, Linked, AllTidy, Layout, Pairs, BugsOf, BugList;
    forall i | 0 <= i < |r.entries| ensures r.entries[i].data.bugTags == Some(BugsOf(r.links, r.entries[i].test)) {
      BugListIff(r.entries[i].data.bugTags.value, r.links, r.entries[i].test);
    }
  }
}
