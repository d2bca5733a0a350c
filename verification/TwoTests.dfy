/** Documents with two Bugs and one test each, and what the final waveform gate of ucagent/checkers/toffee_report.py makes
    of a complete one. */
module TwoTests {
  import opened Text
  import opened Lists
  import opened ReportGate
  import opened DynamicBugs
  import opened DynamicBugLines
  import opened TestTags
  import opened Waveform
  import opened WaveformWriter
  import opened WaveformGate
  import opened DocumentedTests
  import opened DocumentWriter

  // ---------------------------------------------------------------- documents with two tests

  /** Two Bugs, the first with the test `a`, the second with the test `b`. */
  ghost predicate HasTwoTests(y: Sheet, a: string, b: string)
  {
    && |y.items| == 2 && y.items[0].names == [a] && y.items[1].names == [b]
    && NormalTag(a) != NormalTag(b)
  }

  function BugLabelOf(y: Sheet, k: nat): string
    requires k < |y.items|
  {
    Label(Tag(BG, y.items[k].bug))
  }

  /** The line of the first heading of the second item. */
  function Second(y: Sheet, p: Protocol): nat
    requires |y.items| == 2
  {
    1 + |ItemLines(y, p, y.items[0])|
  }

  function TestAt(y: Sheet, name: string, line: nat): Test
  {
    Test(name, y.title(Tag(TC, name)), line)
  }

  lemma BodyOfOne(y: Sheet, p: Protocol, item: Item)
    ensures Body(y, p, [item]) == ItemLines(y, p, item)
  {
    hide ItemLines;
    assert [item][..0] == [];
    assert Body(y, p, []) == [];
    SeqAssoc(ItemLines(y, p, item), [], []);
  }

  lemma RecordsOfTwo(y: Sheet, p: Protocol)
    requires |y.items| == 2
    ensures RecordsOf(y, p, y.items) == [RecordOf(y, y.items[0], 1), RecordOf(y, y.items[1], Second(y, p))]
  {
    hide ItemLines, RecordOf;
    var i, j := y.items[0], y.items[1];
    BodyOfOne(y, p, i);
    assert y.items[..1] == [i] && [i][..0] == [];
    assert Body(y, p, []) == [];
    assert RecordsOf(y, p, []) == [];
    assert RecordsOf(y, p, [i]) == [] + [RecordOf(y, i, 1)];
  }

  lemma OneTest(y: Sheet, item: Item, i: nat, name: string)
    requires item.names == [name]
    ensures RecordOf(y, item, i).tests == [TestAt(y, name, i + 4)] && RecordOf(y, item, i).bug == Label(Tag(BG, item.bug))
  {
  }

  lemma PairsOfTwo(r: BugRecord, s: BugRecord)
    requires |r.tests| == 1 && |s.tests| == 1
    ensures Pairs([r, s]) == [(r.bug, r.tests[0]), (s.bug, s.tests[0])]
  {
    PairsOfLast([], r);
    PairsOfLast([r], s);
    assert [] + [r] == [r] && [r] + [s] == [r, s];
    assert Pairs([]) == [];
  }

  lemma DocumentPairs(y: Sheet, p: Protocol, a: string, b: string)
    requires HasTwoTests(y, a, b)
    ensures Pairs(RecordsOf(y, p, y.items)) ==
            [(BugLabelOf(y, 0), TestAt(y, a, 5)), (BugLabelOf(y, 1), TestAt(y, b, Second(y, p) + 4))]
  {
    hide Pairs, RecordsOf, RecordOf, Second, NormalTag, TestAt, Label;
    RecordsOfTwo(y, p);
    OneTest(y, y.items[0], 1, a);
    OneTest(y, y.items[1], Second(y, p), b);
    PairsOfTwo(RecordOf(y, y.items[0], 1), RecordOf(y, y.items[1], Second(y, p)));
  }

  /** The two associations. */
  lemma DocumentLinks(y: Sheet, p: Protocol, a: string, b: string)
    requires HasTwoTests(y, a, b)
    ensures var all := AssociationList(y, p);
            && |all| == 2 && all[0].bug == BugLabelOf(y, 0) && all[0].test == NormalTag(a)
            && all[1].bug == BugLabelOf(y, 1) && all[1].test == NormalTag(b)
            && NoDup(Map(all, BugAndTest))
  {
    hide RecordsOf, Pairs, NormalTag, Second, BugLabelOf;
    DocumentPairs(y, p, a, b);
  }

  lemma OneBug(bug: string)
    ensures SortedSet([bug]) == [bug]
  {
    assert [bug][1..] == [];
    assert Distinct([bug]) == [bug];
    assert Sort([]) == [];
  }

  lemma BugsOfTwo(all: seq<Association>, k: nat)
    requires |all| == 2 && k < 2 && all[0].test != all[1].test
    ensures BugsOf(all, all[k].test) == [all[k].bug]
  {
    var none: seq<Association> := [];
    var test := all[k].test;
    assert all[1..] == [all[1]] && [all[1]][1..] == none;
    assert BugsWith(none, test) == [];
    SeqAssoc(BugsWith([all[1]], test), [], []);
    SeqAssoc([all[k].bug], [], []);
    OneBug(all[k].bug);
  }

  // ---------------------------------------------------------------- records that confirm a test

  /** The record of the test confirms the Bug: it repeats the title, lists this Bug alone, and names a receipt of the
      tool that analysed the test and agrees with it. */
  ghost predicate Confirms(r: Central, y: Sheet, bug: string, name: string, tool: Option<Tool>, e: Evidence)
  {
    && r.test == "TC-" + name && r.title == y.title(Tag(TC, name))
    && r.data.testCase == Some(r.test) && r.data.bugTags == Some([bug]) && r.data.evidence == Some({bug})
    && r.data.status == "confirmed" && tool.Some? && tool.value.directoryOk
    && r.data.receiptId.Some? && Strip(r.data.receiptId.value) != ""
    && var receipt := tool.value.receipts(r.data.receiptId.value);
    && receipt.Some? && LastPiece(receipt.value.test) == LastPiece(name)
    && forall line: nat :: e.agrees(Block(line, r.data, [bug]), receipt.value)
  }

  /** Wherever the test is listed it has its title. */
  predicate Titled(y: Sheet, pairs: seq<(string, Test)>, name: string)
  {
    forall k :: 0 <= k < |pairs| && pairs[k].1.name == name ==> pairs[k].1.title == y.title(Tag(TC, name))
  }

  lemma ConfirmsIsOk(r: Central, y: Sheet, bug: string, name: string, tool: Option<Tool>, e: Evidence, line: nat,
                     all: seq<Association>, pairs: seq<(string, Test)>)
    requires Confirms(r, y, bug, name, tool, e) && BugsOf(all, r.test) == [bug]
    requires Titled(y, pairs, name)
    ensures EntryOk(Entry(r.test, r.title, line, r.data), all, pairs)
  {
    hide BugsOf, Strip, LastPiece;
    assert (set b | b in [bug]) == {bug};
    forall k | 0 <= k < |pairs| && "TC-" + pairs[k].1.name == r.test ensures pairs[k].1.title == r.title {
      SameTag(pairs[k].1.name, name);
    }
  }

  lemma SameTag(a: string, b: string)
    ensures "TC-" + a == "TC-" + b ==> a == b
  {
    assert ("TC-" + a)[3..] == a && ("TC-" + b)[3..] == b;
  }

  lemma ConfirmsIsConfirmed(r: Central, y: Sheet, bug: string, name: string, tool: Option<Tool>, e: Evidence, line: nat,
                            blocks: map<string, Block>)
    requires Confirms(r, y, bug, name, tool, e)
    requires r.test in blocks && blocks[r.test] == Block(line, r.data, [bug])
    ensures Confirmed(name, blocks, tool, e)
  {
    hide Strip, LastPiece;
  }

  lemma TitlesAgree(y: Sheet, p: Protocol, a: string, b: string, name: string)
    requires HasTwoTests(y, a, b)
    ensures Titled(y, Pairs(RecordsOf(y, p, y.items)), name)
  {
    hide RecordsOf, Pairs, Second, BugLabelOf, NormalTag;
    DocumentPairs(y, p, a, b);
  }

  // ---------------------------------------------------------------- complete documents

  /** Both tests have a record that confirms their Bug, under a tag that is a normal form. */
  ghost predicate BothConfirmed(y: Sheet, a: string, b: string, tool: Option<Tool>, e: Evidence)
  {
    && HasTwoTests(y, a, b) && |y.centrals| == 2 && e.contentOk && IsNormal("TC-" + a) && IsNormal("TC-" + b)
    && Confirms(y.centrals[0], y, BugLabelOf(y, 0), a, tool, e)
    && Confirms(y.centrals[1], y, BugLabelOf(y, 1), b, tool, e)
  }

  lemma TwoEntries(r: Central, s: Central, i: nat)
    ensures var n := i + 7 + |r.yaml|;
            EntriesOf([r, s], i) == [Entry(r.test, r.title, i + 2, r.data), Entry(s.test, s.title, n, s.data)]
  {
    assert [r, s][1..] == [s] && [s][1..] == [];
    assert EntriesOf([], i + 10 + |r.yaml| + |s.yaml|) == [];
  }

  lemma BlocksOfTwo(e: Entry, f: Entry, all: seq<Association>)
    ensures BlocksOf([e, f], all) ==
            map[e.test := Block(e.line, e.data, BugsOf(all, e.test))][f.test := Block(f.line, f.data, BugsOf(all, f.test))]
  {
    hide BugsOf;
    BlockAdded([], e, all);
    BlockAdded([e], f, all);
    assert [] + [e] == [e] && [e] + [f] == [e, f];
    NoBlocks(all);
  }

  lemma NormalTags(a: string)
    requires IsNormal("TC-" + a)
    ensures NormalTag(a) == "TC-" + a
  {
    hide NormalizeTestCaseTag;
  }

  lemma BlocksOfConfirmed(y: Sheet, p: Protocol, a: string, b: string, tool: Option<Tool>, e: Evidence)
    requires BothConfirmed(y, a, b, tool, e)
    ensures var all, entries := AssociationList(y, p), Entries(y, p);
            && NoDup(Map(all, BugAndTest)) && EntriesOk(entries, all, Pairs(RecordsOf(y, p, y.items)))
            && Confirmed(a, BlocksOf(entries, all), tool, e) && Confirmed(b, BlocksOf(entries, all), tool, e)
  {
    hide AssociationList, BugsOf, RecordsOf, Pairs, End, BugLabelOf, NormalTag, IsNormal, Confirms, EntryOk, Confirmed,
      BlocksOf, EntriesOf, NoDup, BugAndTest, Titled;
    var all, pairs := AssociationList(y, p), Pairs(RecordsOf(y, p, y.items));
    var r, s := y.centrals[0], y.centrals[1];
    DocumentLinks(y, p, a, b);
    NormalTags(a);
    NormalTags(b);
    TestsOfConfirming(r, y, BugLabelOf(y, 0), a, tool, e);
    TestsOfConfirming(s, y, BugLabelOf(y, 1), b, tool, e);
    BugsOfTwo(all, 0);
    BugsOfTwo(all, 1);
    TitlesAgree(y, p, a, b, a);
    TitlesAgree(y, p, a, b, b);
    var i, n := End(y, p) + 4, End(y, p) + 9 + |r.yaml|;
    TwoEntries(r, s, End(y, p) + 2);
    assert y.centrals == [r, s];
    var f, g := Entry(r.test, r.title, i, r.data), Entry(s.test, s.title, n, s.data);
    ConfirmsIsOk(r, y, BugLabelOf(y, 0), a, tool, e, i, all, pairs);
    ConfirmsIsOk(s, y, BugLabelOf(y, 1), b, tool, e, n, all, pairs);
    TwoAreOk(f, g, all, pairs);
    BlocksOfTwo(f, g, all);
    ConfirmsIsConfirmed(r, y, BugLabelOf(y, 0), a, tool, e, i, BlocksOf([f, g], all));
    ConfirmsIsConfirmed(s, y, BugLabelOf(y, 1), b, tool, e, n, BlocksOf([f, g], all));
  }

  lemma TestsOfConfirming(r: Central, y: Sheet, bug: string, name: string, tool: Option<Tool>, e: Evidence)
    requires Confirms(r, y, bug, name, tool, e)
    ensures r.test == "TC-" + name
  {
  }

  lemma TwoAreOk(f: Entry, g: Entry, all: seq<Association>, pairs: seq<(string, Test)>)
    requires EntryOk(f, all, pairs) && EntryOk(g, all, pairs) && f.test != g.test
    ensures EntriesOk([f, g], all, pairs)
  {
    hide EntryOk;
    assert Tests([f, g]) == [f.test, g.test];
  }

  lemma DocumentIsComplete(y: Sheet, c: Contract, p: Protocol, a: string, b: string, tool: Option<Tool>, e: Evidence)
    requires Readable(y, c, p) && BothConfirmed(y, a, b, tool, e)
    ensures Complete(Some(Document(y, p)), c, p, tool, e)
  {
    hide DynamicRecords, Blocks, Readable, Document, Confirmed, BlocksOf, Entries, EntriesOk, NoDup, BugAndTest, RecordsOf,
      AssociationList, Pairs, Confirms, IsNormal, NormalTag;
    DocumentIsRead(y, c, p);
    BlocksOfConfirmed(y, p, a, b, tool, e);
    RecordsOfTwo(y, p);
    OneTest(y, y.items[0], 1, a);
    OneTest(y, y.items[1], Second(y, p), b);
  }

  // ---------------------------------------------------------------- what the gate makes of them

  lemma DocumentListedNames(r: BugRecord, s: BugRecord, a: Test, b: Test)
    requires r.tests == [a] && s.tests == [b]
    ensures ListedNames([r, s]) == [a.name, b.name]
  {
    assert [r, s][..1] == [r] && [r][..0] == [];
    var names := (t: Test) => t.name;
    assert ListedNames([]) == [];
    assert ListedNames([r]) == [] + Map(r.tests, names);
    assert ListedNames([r, s]) == ListedNames([r]) + Map(s.tests, names);
  }

  lemma DocumentTestMap(r: BugRecord, s: BugRecord, a: Test, b: Test)
    requires r.tests == [a] && s.tests == [b] && a.name != b.name
    ensures TestMap([r, s]).names == [a.name, b.name]
  {
    hide TestMap, ListedNames, Unique;
    TestMapExact([r, s], a.name, "");
    DocumentListedNames(r, s, a, b);
    UniqueOfNoDup([a.name, b.name]);
  }

  lemma ShadowedIff(r: BugRecord, s: BugRecord, a: Test, b: Test)
    requires r.tests == [a] && s.tests == [b] && a.name != b.name && r.checkpoint != s.checkpoint
    ensures Shadowed([r, s]) <==> Matches(Pieces(b.name, "::"), a.name)
  {
    hide TestMap, Pieces, Matches;
    DocumentTestMap(r, s, a, b);
    MatchesItself(a.name);
    MatchesItself(b.name);
    var records, names := [r, s], [a.name, b.name];
    if Matches(Pieces(b.name, "::"), a.name) {
      assert s in records && b in s.tests;
      assert !Documented(records, a.name, s.checkpoint);
      assert Shadows(records, names, s, b, 0);
    }
    if Shadowed(records) {
      var r', t, k :| Shadows(records, TestMap(records).names, r', t, k);
      assert k == 0;
    }
  }

  /** For every contract and protocol that read the written lines, and every two tests under different checkpoints: the
      document is complete, and the final gate refuses it exactly when the first name contains all `::`-parts of the
      second. */
  lemma TwoTestsPassIff(y: Sheet, c: Contract, p: Protocol, a: string, b: string, tool: Option<Tool>, e: Evidence)
    requires Readable(y, c, p) && BothConfirmed(y, a, b, tool, e)
    requires Checkpoint(y.items[0]) != Checkpoint(y.items[1])
    ensures Complete(Some(Document(y, p)), c, p, tool, e)
    ensures FinalOk(Some(Document(y, p)), c, p, tool, e) <==> !Matches(Pieces(b, "::"), a)
  {
    hide DynamicRecords, FinalOk, Complete, Document, Readable, Shadowed, Matches, Pieces, RecordsOf, Checkpoint, Confirms,
      IsNormal, Blocks, BlocksOf, EntriesOk, Second;
    DocumentIsComplete(y, c, p, a, b, tool, e);
    DocumentIsRead(y, c, p);
    RecordsOfTwo(y, p);
    OneTest(y, y.items[0], 1, a);
    OneTest(y, y.items[1], Second(y, p), b);
    var r, s := RecordOf(y, y.items[0], 1), RecordOf(y, y.items[1], Second(y, p));
    ShadowedIff(r, s, TestAt(y, a, 5), TestAt(y, b, Second(y, p) + 4));
    CompletePassesIff(Some(Document(y, p)), c, p, tool, e);
  }
}
