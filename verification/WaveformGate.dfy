/** What an accepted waveform document means, and the waveform gate on top of it
    (ucagent/checkers/toffee_report.py). */
module WaveformGate {
  import opened Text
  import opened Lists
  import opened ReportGate
  import opened DynamicBugs
  import opened DynamicBugLines
  import opened TestTags
  import opened Waveform

  // ---------------------------------------------------------------- references and associations

  lemma BlocksParts(lines: seq<string>, c: Contract, p: Protocol)
    requires Blocks(Some(lines), c, p).Some?
    ensures Only(lines, DYNAMIC_BUGS).Some? && Only(lines, DYNAMIC_BUGS_END).Some?
    ensures OnlyAt(lines, DYNAMIC_BUGS, Only(lines, DYNAMIC_BUGS).value)
    ensures Only(lines, DYNAMIC_BUGS).value < Only(lines, DYNAMIC_BUGS_END).value < |lines|
    ensures Only(lines, EVIDENCE).Some? && Only(lines, EVIDENCE_END).Some? && Only(lines, EVIDENCE_END).value < |lines|
    ensures DynamicRecords(Some(lines), c).Some?
    ensures AssociationsIn(lines, Only(lines, DYNAMIC_BUGS_END).value, Pairs(DynamicRecords(Some(lines), c).value), p).Some?
  {
    hide AssociationsIn, BlocksIn, Placed, DynamicRecords, Pairs, OnlyAt, Only;
    OnlyBounds(lines, DYNAMIC_BUGS_END);
    OnlyBounds(lines, EVIDENCE_END);
  }

  /** The associations of an accepted document, in document order. */
  ghost function Associations(lines: seq<string>, c: Contract, p: Protocol): seq<Association>
    requires Blocks(Some(lines), c, p).Some?
  {
    hide *;
    BlocksParts(lines, c, p);
    AssociationsIn(lines, Only(lines, DYNAMIC_BUGS_END).value, Pairs(DynamicRecords(Some(lines), c).value), p).value
  }

  lemma AssociationsHold(lines: seq<string>, c: Contract, p: Protocol)
    requires Blocks(Some(lines), c, p).Some?
    ensures Only(lines, DYNAMIC_BUGS).Some? && Only(lines, DYNAMIC_BUGS_END).Some? && DynamicRecords(Some(lines), c).Some?
    ensures Only(lines, EVIDENCE).Some? && Only(lines, EVIDENCE_END).Some?
    ensures Only(lines, DYNAMIC_BUGS_END).value < |lines| && Only(lines, EVIDENCE_END).value < |lines|
    ensures var a, pairs := Associations(lines, c, p), Pairs(DynamicRecords(Some(lines), c).value);
            && AssociationsOf(lines, Only(lines, DYNAMIC_BUGS_END).value, pairs, p, a)
            && Placed(lines, Only(lines, DYNAMIC_BUGS).value, Only(lines, DYNAMIC_BUGS_END).value, a)
            && Blocks(Some(lines), c, p) ==
               BlocksIn(lines, Only(lines, EVIDENCE).value + 1, Only(lines, EVIDENCE_END).value, p, a, pairs)
  {
    hide AssociationsIn, BlocksIn, Placed, DynamicRecords, Pairs, OnlyAt, Only, AssociationsOf;
    BlocksParts(lines, c, p);
  }

  /** Between its two markers, each association's reference follows its test, before the next test; and the
      lines that mention a reference are exactly the reference lines. */
  ghost predicate Correspond(lines: seq<string>, start: nat, end: nat, a: seq<Association>, p: Protocol)
    requires end <= |lines|
  {
    && (forall k :: 0 <= k < |a| ==> start < a[k].line < a[k].ref < end
                                     && Strip(lines[a[k].ref]) == Reference(p, a[k].test))
    && (forall j, k :: 0 <= j < k < |a| ==> a[j].ref < a[k].line)
    && (forall i: nat :: start < i < end ==> (Mentions(Strip(lines[i])) <==> IsReference(a, i)))
  }

  lemma {:induction false} InsideAfterStart(lines: seq<string>, n: nat) returns (k: nat)
    requires n <= |lines| && Inside(lines, n)
    ensures k < n && At(lines, k) == DYNAMIC_BUGS
    decreases n
  {
    hide Visible, Strip;
    if Visible(lines, n - 1) && At(lines, n - 1) == DYNAMIC_BUGS {
      k := n - 1;
    } else {
      k := InsideAfterStart(lines, n - 1);
    }
  }

  /** A listed test stands after the start marker. */
  lemma AfterStart(lines: seq<string>, start: nat, i: nat)
    requires OnlyAt(lines, DYNAMIC_BUGS, start) && IsTest(lines, i)
    ensures start < i
  {
    hide Inside, Visible, TagsOf, Strip;
    var k := InsideAfterStart(lines, i);
  }

  lemma ReferenceMentions(p: Protocol, test: string)
    ensures Mentions(Reference(p, test)) && Reference(p, test)[0] == '<'
  {
    var text := Reference(p, test);
    var rest := " [WAVEFORM-EVIDENCE](#" + p.anchor(test) + ")";
    assert text == REFERENCE + rest;
    assert text[..|REFERENCE|] == REFERENCE;
    assert OccursAt(text, REFERENCE, 0);
  }

  lemma RefBeforeNextTest(lines: seq<string>, end: nat, s: Test, t: Test, x: Association, p: Protocol)
    requires end <= |lines| && s.line < t.line && TestLine(lines, t)
    requires x.ref == NextText(lines, s.line + 1, end) && x.ref < end
    requires Strip(lines[x.ref]) == Reference(p, x.test)
    ensures x.ref < t.line
  {
    hide NextText, Reference, EntryLine, OneTag, Strip, TagsOf;
    ReferenceMentions(p, x.test);
    assert At(lines, t.line)[0] == '-';
    assert Strip(lines[t.line]) != "";
  }

  lemma AssociationFacts(lines: seq<string>, end: nat, pair: (string, Test), p: Protocol, x: Association)
    requires end <= |lines| && AssociationOf(lines, end, pair, p) == Some(x)
    ensures x.line == pair.1.line && x.ref == NextText(lines, x.line + 1, end) && x.line < x.ref < end
    ensures Strip(lines[x.ref]) == Reference(p, x.test)
    ensures x.bug == pair.0 && NormalizeTestCaseTag("TC-" + pair.1.name) == Some(x.test)
  {
    hide NextText, Reference, Strip, NormalizeTestCaseTag;
  }

  /** An association and its reference stand between the markers. */
  lemma AssociationStands(lines: seq<string>, c: Contract, p: Protocol, k: nat)
    requires Blocks(Some(lines), c, p).Some? && k < |Associations(lines, c, p)|
    ensures var x := Associations(lines, c, p)[k];
            && Only(lines, DYNAMIC_BUGS).value < x.line < x.ref < Only(lines, DYNAMIC_BUGS_END).value
            && Strip(lines[x.ref]) == Reference(p, x.test)
  {
    hide Blocks, DynamicRecords, Pairs, Only, AssociationOf, Reference, Misplaced, OnlyAt, Strip, TestLine, IsTest;
    BlocksParts(lines, c, p);
    AssociationsHold(lines, c, p);
    RecordPairs(lines, c);
    var pair, x := Pairs(DynamicRecords(Some(lines), c).value)[k], Associations(lines, c, p)[k];
    assert pair in Pairs(DynamicRecords(Some(lines), c).value);
    AssociationFacts(lines, Only(lines, DYNAMIC_BUGS_END).value, pair, p, x);
    IsTestLine(lines, pair.1);
    AfterStart(lines, Only(lines, DYNAMIC_BUGS).value, x.line);
  }

  /** The next association stands behind the reference of this one. */
  lemma AssociationsStandApart(lines: seq<string>, c: Contract, p: Protocol, j: nat, k: nat)
    requires Blocks(Some(lines), c, p).Some? && j < k < |Associations(lines, c, p)|
    ensures Associations(lines, c, p)[j].ref < Associations(lines, c, p)[k].line
  {
    hide Blocks, DynamicRecords, Pairs, Only, AssociationOf, Reference, Misplaced, OnlyAt, Strip, TestLine, IsTest;
    BlocksParts(lines, c, p);
    AssociationsHold(lines, c, p);
    RecordPairs(lines, c);
    var pairs, a := Pairs(DynamicRecords(Some(lines), c).value), Associations(lines, c, p);
    var end := Only(lines, DYNAMIC_BUGS_END).value;
    assert pairs[j] in pairs && pairs[k] in pairs;
    AssociationFacts(lines, end, pairs[j], p, a[j]);
    AssociationFacts(lines, end, pairs[k], p, a[k]);
    RefBeforeNextTest(lines, end, pairs[j].1, pairs[k].1, a[j], p);
  }

  /** The reference lines of an accepted document correspond one-to-one to its (Bug, TC) associations. */
  lemma ReferencesCorrespond(lines: seq<string>, c: Contract, p: Protocol)
    requires Blocks(Some(lines), c, p).Some?
    ensures var a := Associations(lines, c, p);
            && NoDup(Map(a, BugAndTest))
            && Correspond(lines, Only(lines, DYNAMIC_BUGS).value, Only(lines, DYNAMIC_BUGS_END).value, a, p)
  {
    hide Blocks, DynamicRecords, Pairs, Only, Reference, BugAndTest, Associations, AssociationsOf, Placed, Correspond, NoDup;
    BlocksParts(lines, c, p);
    AssociationsHold(lines, c, p);
    var a, pairs := Associations(lines, c, p), Pairs(DynamicRecords(Some(lines), c).value);
    var start, end := Only(lines, DYNAMIC_BUGS).value, Only(lines, DYNAMIC_BUGS_END).value;
    forall k | 0 <= k < |a|
      ensures start < a[k].line < a[k].ref < end && Strip(lines[a[k].ref]) == Reference(p, a[k].test) {
      AssociationStands(lines, c, p, k);
    }
    forall j, k | 0 <= j < k < |a| ensures a[j].ref < a[k].line {
      AssociationsStandApart(lines, c, p, j, k);
    }
    hide *;
    AssociationsCorrespond(lines, start, end, a, pairs, p);
  }

  lemma AssociationsCorrespond(lines: seq<string>, start: nat, end: nat, a: seq<Association>, pairs: seq<(string, Test)>,
                               p: Protocol)
    requires end <= |lines| && AssociationsOf(lines, end, pairs, p, a) && Placed(lines, start, end, a)
    requires forall k :: 0 <= k < |a| ==>
      start < a[k].line < a[k].ref < end && Strip(lines[a[k].ref]) == Reference(p, a[k].test)
    requires forall j, k :: 0 <= j < k < |a| ==> a[j].ref < a[k].line
    ensures NoDup(Map(a, BugAndTest)) && Correspond(lines, start, end, a, p)
  {
    hide Reference, Mentions, Misplaced, Strip, BugAndTest, IsReference, AssociationOf;
    forall i: nat | start < i < end ensures Mentions(Strip(lines[i])) <==> IsReference(a, i) {
      ReferenceLines(lines, a, i, p);
    }
  }

  lemma ReferenceLines(lines: seq<string>, a: seq<Association>, i: nat, p: Protocol)
    requires i < |lines|
    requires forall k :: 0 <= k < |a| ==> a[k].ref < |lines| && Strip(lines[a[k].ref]) == Reference(p, a[k].test)
    ensures IsReference(a, i) ==> Mentions(Strip(lines[i]))
  {
    hide Mentions, Reference, Strip;
    if IsReference(a, i) {
      var k :| 0 <= k < |a| && a[k].ref == i;
      ReferenceMentions(p, a[k].test);
    }
  }

  lemma IsTestLine(lines: seq<string>, t: Test)
    requires TestLine(lines, t)
    ensures IsTest(lines, t.line)
  {
  }

  // ---------------------------------------------------------------- the central records

  lemma {:induction false} BugsWithMembers(a: seq<Association>, test: string, bug: string)
    ensures bug in BugsWith(a, test) <==> exists k :: 0 <= k < |a| && a[k].test == test && a[k].bug == bug
    decreases |a|
  {
    if a != [] {
      BugsWithMembers(a[1..], test, bug);
      assert forall k :: 0 <= k < |a| - 1 ==> a[1..][k] == a[k + 1];
    }
  }

  lemma {:induction false} BlocksAreEntries(entries: seq<Entry>, a: seq<Association>, test: string)
    requires test in BlocksOf(entries, a)
    ensures exists e :: e in entries && e.test == test && BlocksOf(entries, a)[test] == Block(e.line, e.data, BugsOf(a, test))
    decreases |entries|
  {
    hide BugsOf;
    var e := entries[|entries| - 1];
    if test != e.test {
      BlocksAreEntries(entries[..|entries| - 1], a, test);
    }
  }

  /** Each central record lists exactly the sorted Bugs whose association references its test, and at least one:
      no record is an orphan. */
  ghost predicate ListsItsBugs(test: string, block: Block, a: seq<Association>)
  {
    && Sorted(block.bugs) && NoDup(block.bugs) && block.bugs != []
    && (forall bug :: bug in block.bugs <==> Links(a, bug, test))
    && block.data.testCase == Some(test) && block.data.bugTags == Some(block.bugs)
    && block.data.evidence == Some(set b | b in block.bugs)
  }

  ghost predicate Links(a: seq<Association>, bug: string, test: string)
  {
    exists k :: 0 <= k < |a| && a[k].test == test && a[k].bug == bug
  }

  lemma BlocksInFacts(lines: seq<string>, start: nat, end: nat, p: Protocol, a: seq<Association>,
                      pairs: seq<(string, Test)>, test: string)
    requires end <= |lines| && BlocksIn(lines, start, end, p, a, pairs).Some?
    requires test in BlocksIn(lines, start, end, p, a, pairs).value
    ensures ListsItsBugs(test, BlocksIn(lines, start, end, p, a, pairs).value[test], a)
  {
    hide EntriesFrom, BlocksOf, BugsWith;
    var entries := EntriesFrom(lines, start, end, p).value;
    BlocksAreEntries(entries, a, test);
    SortedSetFacts(BugsWith(a, test));
    forall bug ensures bug in BugsWith(a, test) <==> Links(a, bug, test) {
      BugsWithMembers(a, test, bug);
    }
  }

  lemma RecordsListTheirBugs(lines: seq<string>, c: Contract, p: Protocol, test: string)
    requires Blocks(Some(lines), c, p).Some? && test in Blocks(Some(lines), c, p).value
    ensures ListsItsBugs(test, Blocks(Some(lines), c, p).value[test], Associations(lines, c, p))
  {
    hide Blocks, BlocksIn, DynamicRecords, ListsItsBugs, AssociationsOf, Placed, Only, OnlyAt;
    var a := Associations(lines, c, p);
    AssociationsHold(lines, c, p);
    BlocksInFacts(lines, Only(lines, EVIDENCE).value + 1, Only(lines, EVIDENCE_END).value, p, a,
                  Pairs(DynamicRecords(Some(lines), c).value), test);
  }

  // ---------------------------------------------------------------- the gate

  /** A WaveInfo receipt: the test it analysed. */
  datatype Receipt = Receipt(test: string)

  /** The active WaveInfo tool: its signed receipts, and whether it searches the expected test directory. */
  datatype Tool = Tool(receipts: string -> Option<Receipt>, directoryOk: bool)

  /** What the gate takes from elsewhere: the verdict on the eight-field analysis texts, and the comparison of a
      central record with its receipt beyond the test name (window, identity, viewer and current replay). */
  datatype Evidence = Evidence(contentOk: bool, agrees: (Block, Receipt) -> bool)

  function LastPiece(name: string): string
  {
    BehindLast(name, "::")
  }

  /** The documented test is matched to a test of the validation set that has the record's checkpoint. */
  predicate Mapped(checkpoint: string, name: string, failed: FailedCases)
  {
    var found := FirstMatch(Pieces(name, "::"), failed.names);
    found.Some? && found.value in failed.checks && checkpoint in failed.checks[found.value]
  }

  /** The names of the tests that need evidence. */
  ghost predicate RequiredTests(records: seq<BugRecord>, failed: FailedCases, all: bool, names: seq<string>)
  {
    forall n :: n in names <==>
      (failed.names != [] || all) && exists r, t :: r in records && t in r.tests && t.name == n && Mapped(r.checkpoint, n, failed)
  }

  ghost predicate AllMapped(records: seq<BugRecord>, failed: FailedCases)
  {
    forall r, t :: r in records && t in r.tests ==> Mapped(r.checkpoint, t.name, failed)
  }

  /** `_required_waveform_pairs`, with the pairs grouped by test as the caller does. */
  method RequiredWaveformTests(records: seq<BugRecord>, failed: FailedCases, all: bool)
    returns (names: Option<seq<string>>)
    requires failed.Valid()
    ensures names.Some? <==> !all || AllMapped(records, failed)
    ensures names.Some? ==> RequiredTests(records, failed, all, names.value)
  {
    hide FirstMatch, Pieces;
    if failed.names == [] && !all {
      return Some([]);
    }
    var required: seq<string> := [];
    var unmatched := false;
    for i := 0 to |records|
      invariant RequiredTests(records[..i], failed, true, required)
      invariant unmatched <==> all && !AllMapped(records[..i], failed)
    {
      OneMore(records, i);
      ghost var before := required;
      var r := records[i];
      for j := 0 to |r.tests|
        invariant forall n :: n in required <==>
                    n in before || exists t :: t in r.tests[..j] && t.name == n && Mapped(r.checkpoint, n, failed)
        invariant unmatched <==> all && (!AllMapped(records[..i], failed)
                                         || exists t :: t in r.tests[..j] && !Mapped(r.checkpoint, t.name, failed))
      {
        OneMore(r.tests, j);
        var name := r.tests[j].name;
        var found := FindMatchingTestCase(Pieces(name, "::"), failed.names);
        if found.None? || r.checkpoint !in failed.checks[found.value] {
          assert !Mapped(r.checkpoint, name, failed);
          unmatched := unmatched || all;
        } else {
          assert Mapped(r.checkpoint, name, failed);
          if name !in required {
            required := required + [name];
          }
        }
      }
      assert r.tests[..|r.tests|] == r.tests;
      RequiredGrows(records[..i], r, failed, before, required);
      assert AllMapped(records[..i + 1], failed) <==>
             AllMapped(records[..i], failed) && forall t :: t in r.tests ==> Mapped(r.checkpoint, t.name, failed);
    }
    assert records[..|records|] == records;
    names := if unmatched then None else Some(required);
  }

  lemma RequiredGrows(records: seq<BugRecord>, r: BugRecord, failed: FailedCases, before: seq<string>, after: seq<string>)
    requires RequiredTests(records, failed, true, before)
    requires forall n :: n in after <==> n in before || exists t :: t in r.tests && t.name == n && Mapped(r.checkpoint, n, failed)
    ensures RequiredTests(records + [r], failed, true, after)
  {
    hide Mapped;
    forall x ensures x in records + [r] <==> x in records || x == r {
    }
  }

  /** The central record of the test is confirmed by a receipt of a WaveInfo call that analysed the test. */
  ghost predicate Confirmed(name: string, blocks: map<string, Block>, tool: Option<Tool>, e: Evidence)
  {
    && "TC-" + name in blocks
    && var block := blocks["TC-" + name];
    && block.data.status == "confirmed"
    && tool.Some? && tool.value.directoryOk
    && block.data.receiptId.Some? && Strip(block.data.receiptId.value) != ""
    && var receipt := tool.value.receipts(block.data.receiptId.value);
    && receipt.Some? && LastPiece(receipt.value.test) == LastPiece(name) && e.agrees(block, receipt.value)
  }

  /** When `check_waveform_bug_analysis` passes. */
  ghost predicate WaveformOk(document: Option<seq<string>>, c: Contract, p: Protocol, failed: FailedCases, all: bool,
                             tool: Option<Tool>, e: Evidence)
  {
    var records := DynamicRecords(document, c);
    && records.Some? && (all ==> AllMapped(records.value, failed)) && e.contentOk
    && (document.Some? ==> Blocks(document, c, p).Some?)
    && forall r, t :: (failed.names != [] || all) && r in records.value && t in r.tests && Mapped(r.checkpoint, t.name, failed) ==>
         Blocks(document, c, p).Some? && Confirmed(t.name, Blocks(document, c, p).value, tool, e)
  }

  /** The two loops over the records to validate. */
  method ConfirmAll(names: seq<string>, blocks: map<string, Block>, tool: Option<Tool>, e: Evidence) returns (ok: bool)
    requires names != []
    ensures ok == forall n :: n in names ==> Confirmed(n, blocks, tool, e)
  {
    hide LastPiece, Strip;
    for i := 0 to |names|
      invariant forall k :: 0 <= k < i ==> "TC-" + names[k] in blocks && blocks["TC-" + names[k]].data.status == "confirmed"
    {
      if "TC-" + names[i] !in blocks || blocks["TC-" + names[i]].data.status != "confirmed" {
        assert names[i] in names && !Confirmed(names[i], blocks, tool, e);
        return false;
      }
    }
    if tool.None? || !tool.value.directoryOk {
      assert names[0] in names && !Confirmed(names[0], blocks, tool, e);
      return false;
    }
    for i := 0 to |names|
      invariant forall k :: 0 <= k < i ==> Confirmed(names[k], blocks, tool, e)
    {
      assert names[i] in names;
      var block := blocks["TC-" + names[i]];
      if block.data.receiptId.None? || Strip(block.data.receiptId.value) == "" {
        return false;
      }
      var receipt := tool.value.receipts(block.data.receiptId.value);
      if receipt.None? || LastPiece(receipt.value.test) != LastPiece(names[i]) || !e.agrees(block, receipt.value) {
        return false;
      }
    }
    ok := true;
  }

  method CheckWaveformBugAnalysis(document: Option<seq<string>>, c: Contract, p: Protocol, failed: FailedCases, all: bool,
                                  tool: Option<Tool>, e: Evidence)
    returns (ok: bool)
    requires failed.Valid()
    ensures ok == WaveformOk(document, c, p, failed, all, tool, e)
  {
    hide Blocks, DynamicRecords, Mapped, Confirmed;
    var records := ParseDynamicBugRecords(document, c);
    if records.None? {
      return false;
    }
    var names := RequiredWaveformTests(records.value, failed, all);
    if names.None? {
      return false;
    }
    if names.value == [] {
      NothingRequired(records.value, failed, all);
      if document.Some? {
        var structure := ParseWaveformBlocks(document, c, p);
        if structure.None? {
          return false;
        }
      }
      return e.contentOk;
    }
    var blocks := ParseWaveformBlocks(document, c, p);
    if blocks.None? {
      SomethingRequired(records.value, failed, all, names.value);
      return false;
    }
    ok := ConfirmAll(names.value, blocks.value, tool, e);
    ConfirmedByName(records.value, failed, all, names.value, blocks.value, tool, e);
    ok := ok && e.contentOk;
  }

  lemma NothingRequired(records: seq<BugRecord>, failed: FailedCases, all: bool)
    requires RequiredTests(records, failed, all, [])
    ensures forall r, t :: (failed.names != [] || all) && r in records && t in r.tests ==> !Mapped(r.checkpoint, t.name, failed)
  {
    hide Mapped;
    forall r, t | (failed.names != [] || all) && r in records && t in r.tests ensures !Mapped(r.checkpoint, t.name, failed) {
      assert t.name !in [];
    }
  }

  lemma SomethingRequired(records: seq<BugRecord>, failed: FailedCases, all: bool, names: seq<string>)
    requires RequiredTests(records, failed, all, names) && names != []
    ensures exists r, t :: (failed.names != [] || all) && r in records && t in r.tests && Mapped(r.checkpoint, t.name, failed)
  {
    hide Mapped;
    assert names[0] in names;
  }

  lemma ConfirmedByName(records: seq<BugRecord>, failed: FailedCases, all: bool, names: seq<string>,
                        blocks: map<string, Block>, tool: Option<Tool>, e: Evidence)
    requires RequiredTests(records, failed, all, names)
    ensures (forall n :: n in names ==> Confirmed(n, blocks, tool, e)) <==>
            (forall r, t :: (failed.names != [] || all) && r in records && t in r.tests && Mapped(r.checkpoint, t.name, failed) ==>
               Confirmed(t.name, blocks, tool, e))
  {
    hide Mapped, Confirmed;
    if forall n :: n in names ==> Confirmed(n, blocks, tool, e) {
      forall r, t | (failed.names != [] || all) && r in records && t in r.tests && Mapped(r.checkpoint, t.name, failed)
        ensures Confirmed(t.name, blocks, tool, e) {
        assert t.name in names;
      }
    }
  }

  // ---------------------------------------------------------------- the gate over the whole document

  /** One more documented test, under its checkpoint. */
  function AddTest(m: FailedCases, name: string, checkpoint: string): FailedCases
  {
    if name !in m.checks then FailedCases(m.names + [name], m.checks[name := [checkpoint]])
    else if checkpoint in m.checks[name] then m
    else m.(checks := m.checks[name := m.checks[name] + [checkpoint]])
  }

  function AddTests(m: FailedCases, tests: seq<Test>, checkpoint: string): FailedCases
  {
    if tests == [] then m
    else AddTest(AddTests(m, tests[..|tests| - 1], checkpoint), tests[|tests| - 1].name, checkpoint)
  }

  /** Every documented test with the checkpoints it is documented under, in document order. */
  function TestMap(records: seq<BugRecord>): FailedCases
  {
    if records == [] then FailedCases([], map[])
    else
      var r := records[|records| - 1];
      AddTests(TestMap(records[..|records| - 1]), r.tests, r.checkpoint)
  }

  /** Some record with this checkpoint lists a test of this name. */
  ghost predicate Documented(records: seq<BugRecord>, name: string, checkpoint: string)
  {
    exists r, t :: r in records && t in r.tests && t.name == name && r.checkpoint == checkpoint
  }

  predicate Holds(m: FailedCases, name: string, checkpoint: string)
  {
    name in m.checks && checkpoint in m.checks[name]
  }

  ghost predicate Named(tests: seq<Test>, name: string)
  {
    exists t :: t in tests && t.name == name
  }

  /** The names of all listed tests, in document order. */
  function ListedNames(records: seq<BugRecord>): seq<string>
  {
    if records == [] then []
    else ListedNames(records[..|records| - 1]) + Map(records[|records| - 1].tests, (t: Test) => t.name)
  }

  lemma AddTestHolds(m: FailedCases, added: string, checkpoint: string, before: seq<string>, name: string, ck: string)
    requires m.Valid() && m.names == Unique(before)
    ensures var all := AddTest(m, added, checkpoint);
            && all.Valid() && all.names == Unique(before + [added])
            && (Holds(all, name, ck) <==> Holds(m, name, ck) || (ck == checkpoint && name == added))
  {
    UniqueSnoc(before, added);
    hide Unique;
    assert added in m.names <==> added in before;
  }

  lemma {:induction false} AddTestsHolds(m: FailedCases, tests: seq<Test>, checkpoint: string, before: seq<string>,
                                         name: string, ck: string)
    requires m.Valid() && m.names == Unique(before)
    ensures var all := AddTests(m, tests, checkpoint);
            && all.Valid() && all.names == Unique(before + Map(tests, (t: Test) => t.name))
            && (Holds(all, name, ck) <==> Holds(m, name, ck) || (ck == checkpoint && Named(tests, name)))
    decreases |tests|
  {
    hide Unique, AddTest, Holds, FailedCases.Valid;
    if tests == [] {
      SeqAssoc(before, [], []);
    } else {
      var some, last := tests[..|tests| - 1], tests[|tests| - 1];
      AddTestsHolds(m, some, checkpoint, before, name, ck);
      var names := Map(some, (t: Test) => t.name);
      assert Map(tests, (t: Test) => t.name) == names + [last.name];
      SeqAssoc(before, names, [last.name]);
      AddTestHolds(AddTests(m, some, checkpoint), last.name, checkpoint, before + names, name, ck);
      NamedSnoc(some, last, name);
      assert tests == some + [last];
    }
  }

  lemma NamedSnoc(tests: seq<Test>, last: Test, name: string)
    ensures Named(tests + [last], name) <==> Named(tests, name) || last.name == name
  {
    assert last in tests + [last];
    forall t ensures t in tests + [last] <==> t in tests || t == last {}
  }

  /** The map of a document holds a test under a checkpoint exactly when some record with that checkpoint lists the
      test; its names are those of the listed tests in document order, each once. */
  lemma {:induction false} TestMapExact(records: seq<BugRecord>, name: string, checkpoint: string)
    ensures var m := TestMap(records);
            && m.Valid() && m.names == Unique(ListedNames(records)) && NoDup(m.names)
            && (Holds(m, name, checkpoint) <==> Documented(records, name, checkpoint))
    decreases |records|
  {
    hide Unique, AddTests, Holds;
    UniqueNoDup(ListedNames(records));
    if records == [] {
      NothingListed(name, checkpoint);
    } else {
      var some, r := records[..|records| - 1], records[|records| - 1];
      TestMapExact(some, name, checkpoint);
      AddTestsHolds(TestMap(some), r.tests, r.checkpoint, ListedNames(some), name, checkpoint);
      assert records == some + [r];
    }
  }

  lemma NothingListed(name: string, checkpoint: string)
    ensures Unique<string>([]) == [] && !Holds(TestMap([]), name, checkpoint)
  {
  }

  /** `_get_documented_dynamic_test_map`, for a document with records; None when a Bug has no test. */
  method GetDocumentedTestMap(records: seq<BugRecord>) returns (m: Option<FailedCases>)
    ensures m.Some? <==> forall r :: r in records ==> r.tests != []
    ensures m.Some? ==> m.value == TestMap(records) && m.value.names == Unique(ListedNames(records))
    ensures m.Some? ==> forall name, ck :: Holds(m.value, name, ck) <==> Documented(records, name, ck)
  {
    hide AddTest, Unique, ListedNames, Holds, Documented;
    if exists i :: 0 <= i < |records| && records[i].tests == [] {
      return None;
    }
    var all := FailedCases([], map[]);
    for i := 0 to |records|
      invariant all == TestMap(records[..i])
    {
      assert records[..i + 1][..i] == records[..i];
      ghost var before := all;
      for j := 0 to |records[i].tests|
        invariant all == AddTests(before, records[i].tests[..j], records[i].checkpoint)
      {
        assert records[i].tests[..j + 1][..j] == records[i].tests[..j];
        all := AddTest(all, records[i].tests[j].name, records[i].checkpoint);
      }
      assert records[i].tests[..|records[i].tests|] == records[i].tests;
    }
    assert records[..|records|] == records;
    TestMapExact(records, "", "");
    forall name, ck ensures Holds(all, name, ck) <==> Documented(records, name, ck) { TestMapExact(records, name, ck); }
    m := Some(all);
  }

  /** When the final gate passes. */
  ghost predicate FinalOk(document: Option<seq<string>>, c: Contract, p: Protocol, tool: Option<Tool>, e: Evidence)
  {
    document.Some? ==>
      var records := DynamicRecords(document, c);
      && records.Some?
      && if records.value == [] then Blocks(document, c, p).Some?
         else (forall r :: r in records.value ==> r.tests != [])
              && WaveformOk(document, c, p, TestMap(records.value), true, tool, e)
  }

  method CheckAllDocumented(document: Option<seq<string>>, c: Contract, p: Protocol, tool: Option<Tool>, e: Evidence)
    returns (ok: bool)
    ensures ok == FinalOk(document, c, p, tool, e)
  {
    hide DynamicRecords, Blocks, TestMap;
    if document.None? {
      return true;
    }
    var records := ParseDynamicBugRecords(document, c);
    if records.None? {
      return false;
    }
    if records.value == [] {
      var blocks := ParseWaveformBlocks(document, c, p);
      return blocks.Some?;
    }
    var tests := GetDocumentedTestMap(records.value);
    if tests.None? || !e.contentOk {
      return false;
    }
    TestMapExact(records.value, "", "");
    ok := CheckWaveformBugAnalysis(document, c, p, tests.value, true, tool, e);
  }

  // ---------------------------------------------------------------- which Bugs a record lists

  /** Some test under a Bug of this label has the tag as its normal form. */
  ghost predicate ListedAs(records: seq<BugRecord>, bug: string, tag: string)
  {
    exists r, t :: r in records && t in r.tests && r.bug == bug && NormalizeTestCaseTag("TC-" + t.name) == Some(tag)
  }

  lemma {:induction false} FromPairs(records: seq<BugRecord>, pair: (string, Test))
    requires pair in Pairs(records)
    ensures exists r :: r in records && pair.1 in r.tests && r.bug == pair.0
    decreases |records|
  {
    var last, rest := records[|records| - 1], records[..|records| - 1];
    assert records == rest + [last];
    PairsOfLast(rest, last);
    var own := Map(last.tests, (t: Test) => (last.bug, t));
    if pair in Pairs(rest) {
      FromPairs(rest, pair);
    } else {
      var j :| 0 <= j < |own| && own[j] == pair;
      assert last.tests[j] == pair.1 && last in records;
    }
  }

  /** The associations of a tag are those of the listed tests with this normal form. */
  lemma LinksAreListed(lines: seq<string>, c: Contract, p: Protocol, bug: string, tag: string)
    requires Blocks(Some(lines), c, p).Some? && DynamicRecords(Some(lines), c).Some?
    ensures Links(Associations(lines, c, p), bug, tag) <==> ListedAs(DynamicRecords(Some(lines), c).value, bug, tag)
  {
    hide Blocks, DynamicRecords, Pairs, Only, OnlyAt, Placed, BlocksIn, AssociationOf, BugAndTest, NormalizeTestCaseTag;
    var records := DynamicRecords(Some(lines), c).value;
    var a, pairs := Associations(lines, c, p), Pairs(records);
    AssociationsHold(lines, c, p);
    var end := Only(lines, DYNAMIC_BUGS_END).value;
    if Links(a, bug, tag) {
      var k :| 0 <= k < |a| && a[k].test == tag && a[k].bug == bug;
      AssociationFacts(lines, end, pairs[k], p, a[k]);
      assert pairs[k] in pairs;
      FromPairs(records, pairs[k]);
    }
    if ListedAs(records, bug, tag) {
      var r, t :| r in records && t in r.tests && r.bug == bug && NormalizeTestCaseTag("TC-" + t.name) == Some(tag);
      InPairs(records, r, t);
      var k :| 0 <= k < |pairs| && pairs[k] == (r.bug, t);
      AssociationFacts(lines, end, pairs[k], p, a[k]);
      assert a[k].test == tag && a[k].bug == bug;
    }
  }

  /** Exactly when a central record lists a Bug: some test under the Bug has the tag of the record as its normal form. */
  lemma RecordListsBugIff(lines: seq<string>, c: Contract, p: Protocol, tag: string, bug: string)
    requires Blocks(Some(lines), c, p).Some? && tag in Blocks(Some(lines), c, p).value
    ensures DynamicRecords(Some(lines), c).Some?
    ensures bug in Blocks(Some(lines), c, p).value[tag].bugs <==> ListedAs(DynamicRecords(Some(lines), c).value, bug, tag)
  {
    hide Blocks, DynamicRecords, ListedAs, Only, AssociationsOf, Placed, OnlyAt, BlocksIn;
    AssociationsHold(lines, c, p);
    RecordsListTheirBugs(lines, c, p, tag);
    LinksAreListed(lines, c, p, bug, tag);
  }

  /** Every record belongs to the normal form of some listed test. */
  lemma RecordIsListed(lines: seq<string>, c: Contract, p: Protocol, tag: string)
    requires Blocks(Some(lines), c, p).Some? && tag in Blocks(Some(lines), c, p).value
    ensures DynamicRecords(Some(lines), c).Some?
    ensures ComesFrom(ListedTags(DynamicRecords(Some(lines), c).value), tag)
  {
    hide Blocks, DynamicRecords, NormalizeTestCaseTag, Only, AssociationsOf, Placed, OnlyAt, BlocksIn;
    AssociationsHold(lines, c, p);
    RecordsListTheirBugs(lines, c, p, tag);
    var bugs := Blocks(Some(lines), c, p).value[tag].bugs;
    assert bugs[0] in bugs;
    RecordListsBugIff(lines, c, p, tag, bugs[0]);
    var records := DynamicRecords(Some(lines), c).value;
    var r, t :| r in records && t in r.tests && r.bug == bugs[0] && NormalizeTestCaseTag("TC-" + t.name) == Some(tag);
    assert "TC-" + t.name in ListedTags(records);
  }

  /** The tags of all listed tests, as they are written. */
  ghost function ListedTags(records: seq<BugRecord>): set<string>
  {
    set r, t | r in records && t in r.tests :: "TC-" + t.name
  }

  /** When every listed test has a record under its tag as it is written, the tags are normal forms: records exist for
      normal forms only, so normalising permutes the tags, and it cannot lead back to a tag it has left. */
  lemma RecordedTagsAreNormal(lines: seq<string>, c: Contract, p: Protocol)
    requires Blocks(Some(lines), c, p).Some? && DynamicRecords(Some(lines), c).Some?
    requires forall r, t :: r in DynamicRecords(Some(lines), c).value && t in r.tests ==>
               "TC-" + t.name in Blocks(Some(lines), c, p).value
    ensures forall r, t :: r in DynamicRecords(Some(lines), c).value && t in r.tests ==> IsNormal("TC-" + t.name)
  {
    hide Blocks, DynamicRecords, ComesFrom, IsNormal;
    var tags := ListedTags(DynamicRecords(Some(lines), c).value);
    forall tag | tag in tags ensures ComesFrom(tags, tag) { RecordIsListed(lines, c, p, tag); }
    PermutedIsFixed(tags);
    forall r, t | r in DynamicRecords(Some(lines), c).value && t in r.tests ensures IsNormal("TC-" + t.name) {
      assert "TC-" + t.name in tags;
    }
  }

  /** A listed test with a normal tag: its record lists its Bug. */
  lemma NormalIsListed(records: seq<BugRecord>, r: BugRecord, t: Test)
    requires r in records && t in r.tests && IsNormal("TC-" + t.name)
    ensures ListedAs(records, r.bug, "TC-" + t.name)
  {
    hide NormalizeTestCaseTag;
  }

  // ---------------------------------------------------------------- what a passing final gate means

  /** A passing final gate: every visible Bug of non-zero confidence has a test, and every test that belongs to it
      has a confirmed central record that lists the Bug and whose receipt analysed that test. */
  lemma FinalGateIsSound(lines: seq<string>, c: Contract, p: Protocol, tool: Option<Tool>, e: Evidence)
    requires FinalOk(Some(lines), c, p, tool, e)
    ensures forall j: nat :: OpensBug(lines, j) ==> exists i: nat :: Belongs(lines, j, i)
    ensures forall j: nat, i: nat :: Belongs(lines, j, i) ==> BugIsProved(lines, j, i, c, p, tool, e)
  {
    hide DynamicRecords, Blocks, TestMap, OpensBug, Mapped, Confirmed, Belongs, TestLine, RecordLine, BugIsProved;
    var records := DynamicRecords(Some(lines), c).value;
    RecordsAreExact(lines, c);
    RecordLabels(lines, c);
    RecordPairs(lines, c);
    forall j: nat | OpensBug(lines, j) ensures exists i: nat :: Belongs(lines, j, i) {
      OpensBounds(lines, j);
      assert HasRecord(records, j);
      var r :| r in records && r.line == j;
      var t := r.tests[0];
      assert t in r.tests && HasTest(records, j, t.line);
    }
    forall j: nat, i: nat | Belongs(lines, j, i) ensures BugIsProved(lines, j, i, c, p, tool, e) {
      BelongsBounds(lines, j, i);
      assert HasTest(records, j, i);
      var r, t :| r in records && t in r.tests && r.line == j && t.line == i;
      FinalPairs(lines, c, p, tool, e, r, t);
      InPairs(records, r, t);
      ProvedBy(lines, c, p, tool, e, r, t);
    }
  }

  /** In the final gate every listed pair is proved. */
  lemma FinalPairs(lines: seq<string>, c: Contract, p: Protocol, tool: Option<Tool>, e: Evidence, r: BugRecord, t: Test)
    requires FinalOk(Some(lines), c, p, tool, e)
    requires r in DynamicRecords(Some(lines), c).value && t in r.tests
    ensures Blocks(Some(lines), c, p).Some? && PairIsProved(r.bug, t.name, Blocks(Some(lines), c, p).value, tool, e)
  {
    hide DynamicRecords, Blocks, TestMap, Mapped, Confirmed, IsNormal, ListedAs;
    var records := DynamicRecords(Some(lines), c).value;
    forall r', t' | r' in records && t' in r'.tests
      ensures Confirmed(t'.name, Blocks(Some(lines), c, p).value, tool, e)
              && "TC-" + t'.name in Blocks(Some(lines), c, p).value {
      assert Mapped(r'.checkpoint, t'.name, TestMap(records));
      ConfirmedIsListed(t'.name, Blocks(Some(lines), c, p).value, tool, e);
    }
    RecordedTagsAreNormal(lines, c, p);
    NormalIsListed(records, r, t);
    RecordListsBugIff(lines, c, p, "TC-" + t.name, r.bug);
  }

  ghost predicate PairIsProved(bug: string, name: string, blocks: map<string, Block>, tool: Option<Tool>, e: Evidence)
  {
    Confirmed(name, blocks, tool, e) && "TC-" + name in blocks && bug in blocks["TC-" + name].bugs
  }

  /** The test at line `i` has a confirmed record that lists the Bug at line `j`. */
  ghost predicate BugIsProved(lines: seq<string>, j: nat, i: nat, c: Contract, p: Protocol, tool: Option<Tool>, e: Evidence)
  {
    && j < |lines| && i < |lines| && TagsOf(At(lines, j)) != [] && TagsOf(At(lines, i)) != []
    && Blocks(Some(lines), c, p).Some?
    && var blocks := Blocks(Some(lines), c, p).value;
    && var name := Strip(TagsOf(At(lines, i))[0].value);
    && Confirmed(name, blocks, tool, e)
    && "TC-" + name in blocks && Label(TagsOf(At(lines, j))[0]) in blocks["TC-" + name].bugs
  }

  lemma ConfirmedIsListed(name: string, blocks: map<string, Block>, tool: Option<Tool>, e: Evidence)
    requires Confirmed(name, blocks, tool, e)
    ensures "TC-" + name in blocks
  {
    hide LastPiece, Strip;
  }

  lemma ProvedBy(lines: seq<string>, c: Contract, p: Protocol, tool: Option<Tool>, e: Evidence, r: BugRecord, t: Test)
    requires RecordLine(lines, r) && TestLine(lines, t) && Blocks(Some(lines), c, p).Some?
    requires Confirmed(t.name, Blocks(Some(lines), c, p).value, tool, e)
    requires "TC-" + t.name in Blocks(Some(lines), c, p).value
    requires r.bug in Blocks(Some(lines), c, p).value["TC-" + t.name].bugs
    ensures BugIsProved(lines, r.line, t.line, c, p, tool, e)
  {
    hide Blocks, Confirmed, EntryLine, TagsOf, Strip, NonZero, Label;
  }

  lemma OpensBounds(lines: seq<string>, j: nat)
    requires OpensBug(lines, j)
    ensures j < |lines|
  {
  }

  lemma BelongsBounds(lines: seq<string>, j: nat, i: nat)
    requires Belongs(lines, j, i)
    ensures i < |lines|
  {
    hide EntryLine, OneTag, Open;
  }

  // ---------------------------------------------------------------- the report gate with the waveform gate in it

  /** A passing report, with the waveform gate as it is called there: the dynamic Bug document is well formed, and every
      documented (Bug, test) pair that is mapped to a failed test under its checkpoint has, under its tag as it is written,
      a confirmed central record whose receipt analysed the test. The record lists the Bug if and only if some test under
      the Bug has that tag as its normal form, in particular when the tag is a normal form itself. */
  lemma PassingReportIsProved(report: Report, docs: Documents, o: ReportGate.Options, lines: seq<string>, c: Contract,
                              p: Protocol, tool: Option<Tool>, e: Evidence, post: bool)
    requires report.failed.Valid()
    requires ReportOk(report, docs, o, WaveformOk(Some(lines), c, p, report.failed, false, tool, e), post)
    ensures report.failed.names != [] || docs.bugFileExists ==>
              DynamicRecords(Some(lines), c).Some? && Blocks(Some(lines), c, p).Some?
    ensures report.failed.names != [] ==>
              forall r, t :: r in DynamicRecords(Some(lines), c).value && t in r.tests
                             && Mapped(r.checkpoint, t.name, report.failed) ==>
                PairIsChecked(lines, c, p, tool, e, r, t)
    ensures report.failed.names == [] ==> forall checkpoint, name :: !Mapped(checkpoint, name, report.failed)
  {
    hide DynamicRecords, Blocks, Confirmed, TestsAnalysed, FailuresAnalysed, HasPrefix, FailedChecks, ChecksInTc,
      PassedNames, Pieces, Matches, PairIsChecked;
    if report.failed.names != [] {
      assert report.failed.names[0] in report.failed.checks;
      assert report.failed.checks != map[];
      forall r, t | r in DynamicRecords(Some(lines), c).value && t in r.tests && Mapped(r.checkpoint, t.name, report.failed)
        ensures PairIsChecked(lines, c, p, tool, e, r, t) {
        ConfirmedIsChecked(lines, c, p, tool, e, r, t);
      }
    }
  }

  ghost predicate PairIsChecked(lines: seq<string>, c: Contract, p: Protocol, tool: Option<Tool>, e: Evidence,
                                r: BugRecord, t: Test)
  {
    && DynamicRecords(Some(lines), c).Some? && Blocks(Some(lines), c, p).Some?
    && var records, blocks := DynamicRecords(Some(lines), c).value, Blocks(Some(lines), c, p).value;
    && Confirmed(t.name, blocks, tool, e) && "TC-" + t.name in blocks
    && (PairIsProved(r.bug, t.name, blocks, tool, e) <==> ListedAs(records, r.bug, "TC-" + t.name))
    && (IsNormal("TC-" + t.name) ==> PairIsProved(r.bug, t.name, blocks, tool, e))
  }

  lemma ConfirmedIsChecked(lines: seq<string>, c: Contract, p: Protocol, tool: Option<Tool>, e: Evidence,
                           r: BugRecord, t: Test)
    requires DynamicRecords(Some(lines), c).Some? && Blocks(Some(lines), c, p).Some?
    requires r in DynamicRecords(Some(lines), c).value && t in r.tests
    requires Confirmed(t.name, Blocks(Some(lines), c, p).value, tool, e)
    ensures PairIsChecked(lines, c, p, tool, e, r, t)
  {
    hide DynamicRecords, Blocks, Confirmed, ListedAs, IsNormal;
    ConfirmedIsListed(t.name, Blocks(Some(lines), c, p).value, tool, e);
    RecordListsBugIff(lines, c, p, "TC-" + t.name, r.bug);
    if IsNormal("TC-" + t.name) { NormalIsListed(DynamicRecords(Some(lines), c).value, r, t); }
  }

  /** The report gate with the waveform gate in it. */
  method CheckReportAndWaveform(report: Report, docs: Documents, o: ReportGate.Options, document: Option<seq<string>>,
                                c: Contract, p: Protocol, tool: Option<Tool>, e: Evidence, post: bool) returns (ok: bool)
    requires report.failed.Valid()
    ensures ok == ReportOk(report, docs, o, WaveformOk(document, c, p, report.failed, false, tool, e), post)
  {
    hide WaveformOk, ReportOk;
    var waveform := CheckWaveformBugAnalysis(document, c, p, report.failed, false, tool, e);
    ok := CheckReport(report, docs, o, waveform, post);
  }
}
