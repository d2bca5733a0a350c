/** How the waveform gate of the report passes without a record that lists a Bug (ucagent/checkers/toffee_report.py). */
module RawTags {
  import opened Text
  import opened Lists
  import opened ReportGate
  import opened DynamicBugs
  import opened DynamicBugLines
  import opened Waveform
  import opened WaveformWriter
  import opened WaveformGate
  import opened DocumentWriter
  import opened TwoTests

  /** The document lists `a` under one Bug and `b` under another. The tag of `b` is read as the tag of `a` is written, and
      the only record is the one under this tag: it confirms the Bug of `b` and was made for the test `a`. */
  ghost predicate OneRecord(y: Sheet, a: string, b: string, tool: Option<Tool>, e: Evidence)
  {
    && HasTwoTests(y, a, b) && NormalTag(b) == "TC-" + a && BugLabelOf(y, 0) != BugLabelOf(y, 1)
    && |y.centrals| == 1 && e.contentOk && Confirms(y.centrals[0], y, BugLabelOf(y, 1), a, tool, e)
  }

  lemma OneEntry(r: Central, i: nat)
    ensures EntriesOf([r], i) == [Entry(r.test, r.title, i + 2, r.data)]
  {
    assert [r][1..] == [];
    assert EntriesOf([], i + 5 + |r.yaml|) == [];
  }

  lemma BlocksOfOne(e: Entry, all: seq<Association>)
    ensures BlocksOf([e], all) == map[e.test := Block(e.line, e.data, BugsOf(all, e.test))]
  {
    hide BugsOf;
    BlockAdded([], e, all);
    assert [] + [e] == [e];
    NoBlocks(all);
  }

  lemma OneIsOk(f: Entry, all: seq<Association>, pairs: seq<(string, Test)>)
    requires EntryOk(f, all, pairs)
    ensures EntriesOk([f], all, pairs)
  {
    hide EntryOk;
    assert Tests([f]) == [f.test];
  }

  /** The one record is accepted, confirms `a`, and lists the Bug of `b` alone. */
  lemma BlocksOfOneRecord(y: Sheet, p: Protocol, a: string, b: string, tool: Option<Tool>, e: Evidence)
    requires OneRecord(y, a, b, tool, e)
    ensures var all, entries := AssociationList(y, p), Entries(y, p);
            && NoDup(Map(all, BugAndTest)) && EntriesOk(entries, all, Pairs(RecordsOf(y, p, y.items)))
            && Confirmed(a, BlocksOf(entries, all), tool, e)
            && forall tag :: tag in BlocksOf(entries, all) ==> BlocksOf(entries, all)[tag].bugs == [BugLabelOf(y, 1)]
  {
    hide AssociationList, BugsOf, RecordsOf, Pairs, End, BugLabelOf, NormalTag, Confirms, EntryOk, Confirmed, BlocksOf,
      EntriesOf, NoDup, BugAndTest, Titled;
    var all, pairs, bug := AssociationList(y, p), Pairs(RecordsOf(y, p, y.items)), BugLabelOf(y, 1);
    var r := y.centrals[0];
    DocumentLinks(y, p, a, b);
    TestsOfConfirming(r, y, bug, a, tool, e);
    BugsOfTwo(all, 1);
    TitlesAgree(y, p, a, b, a);
    OneEntry(r, End(y, p) + 2);
    assert y.centrals == [r];
    var f := Entry(r.test, r.title, End(y, p) + 4, r.data);
    ConfirmsIsOk(r, y, bug, a, tool, e, f.line, all, pairs);
    OneIsOk(f, all, pairs);
    BlocksOfOne(f, all);
    ConfirmsIsConfirmed(r, y, bug, a, tool, e, f.line, BlocksOf([f], all));
  }

  /** Whatever failed, unless `b` itself is matched to a failed test: the waveform gate of the report passes, though no
      record lists the Bug of `a`. */
  lemma PassesWithoutRecord(y: Sheet, c: Contract, p: Protocol, a: string, b: string, failed: FailedCases,
                            tool: Option<Tool>, e: Evidence)
    requires Readable(y, c, p) && OneRecord(y, a, b, tool, e) && !Mapped(Checkpoint(y.items[1]), b, failed)
    ensures WaveformOk(Some(Document(y, p)), c, p, failed, false, tool, e)
    ensures Blocks(Some(Document(y, p)), c, p).Some?
    ensures forall name :: !PairIsProved(BugLabelOf(y, 0), name, Blocks(Some(Document(y, p)), c, p).value, tool, e)
  {
    hide DynamicRecords, Blocks, Readable, Document, Confirmed, BlocksOf, Entries, EntriesOk, NoDup, BugAndTest, RecordsOf,
      AssociationList, Pairs, Confirms, NormalTag, Mapped, BugLabelOf, Second;
    DocumentIsRead(y, c, p);
    BlocksOfOneRecord(y, p, a, b, tool, e);
    RecordsOfTwo(y, p);
    OneTest(y, y.items[0], 1, a);
    OneTest(y, y.items[1], Second(y, p), b);
  }
}
