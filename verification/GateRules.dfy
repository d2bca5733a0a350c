/** Exactly when the waveform gates pass, said about the documented tests and their records
    (ucagent/checkers/toffee_report.py). */
module GateRules {
  import opened Text
  import opened ReportGate
  import opened ReportRules
  import opened DynamicBugs
  import opened DynamicBugLines
  import opened DynamicBugRules
  import opened Waveform
  import opened WaveformGate
  import opened DocumentedTests

  // ---------------------------------------------------------------- one test

  /** The last `::`-part. */
  function LastPart(name: string): string
  {
    var parts := Pieces(name, "::");
    parts[|parts| - 1]
  }

  lemma {:induction false} LastPartIff(name: string, sep: string)
    requires sep != ""
    ensures BehindLast(name, sep) == Pieces(name, sep)[|Pieces(name, sep)| - 1]
    decreases |name|
  {
    hide Find;
    var i := Find(name, sep);
    if i != -1 { LastPartIff(name[i + |sep|..], sep); }
  }

  /** The record under the tag of the test, as it is written, is confirmed; the tool searches the right directory; and the
      receipt the record names exists, analysed a test with the same last part, and agrees with the record. */
  ghost predicate Evidenced(name: string, blocks: map<string, Block>, tool: Option<Tool>, e: Evidence)
  {
    "TC-" + name in blocks && tool.Some? && tool.value.directoryOk &&
    var block := blocks["TC-" + name];
    && block.data.status == "confirmed" && block.data.receiptId.Some? && Strip(block.data.receiptId.value) != ""
    && var receipt := tool.value.receipts(block.data.receiptId.value);
    && receipt.Some? && LastPart(receipt.value.test) == LastPart(name) && e.agrees(block, receipt.value)
  }

  lemma EvidencedIff(name: string, blocks: map<string, Block>, tool: Option<Tool>, e: Evidence)
    ensures Confirmed(name, blocks, tool, e) <==> Evidenced(name, blocks, tool, e)
  {
    hide Strip, Pieces, BehindLast;
    LastPartIff(name, "::");
    if "TC-" + name in blocks && tool.Some? && blocks["TC-" + name].data.receiptId.Some? {
      var receipt := tool.value.receipts(blocks["TC-" + name].data.receiptId.value);
      if receipt.Some? { LastPartIff(receipt.value.test, "::"); }
    }
  }

  /** The first test of the validation set that contains all parts of the name has the checkpoint. */
  ghost predicate Validated(checkpoint: string, name: string, failed: FailedCases)
  {
    FirstFailedUnder(Pieces(name, "::"), checkpoint, failed)
  }

  lemma ValidatedIff(checkpoint: string, name: string, failed: FailedCases)
    requires failed.Valid()
    ensures Mapped(checkpoint, name, failed) <==> Validated(checkpoint, name, failed)
  {
    hide Pieces, Matches, FirstMatch, FirstFailedUnder;
    FirstFailedIff(Pieces(name, "::"), checkpoint, failed);
  }

  // ---------------------------------------------------------------- the gates

  /** Exactly when the waveform gate passes for a document: it is well formed, its analysis texts are complete, every
      documented test that is matched under its checkpoint is evidenced, and, when all of them must be, every one is
      matched. */
  lemma WaveformPassesIff(lines: seq<string>, c: Contract, p: Protocol, failed: FailedCases, all: bool, tool: Option<Tool>,
                          e: Evidence)
    requires failed.Valid()
    ensures WaveformOk(Some(lines), c, p, failed, all, tool, e) <==>
            && DynamicRecords(Some(lines), c).Some? && Blocks(Some(lines), c, p).Some? && e.contentOk
            && forall r, t :: r in DynamicRecords(Some(lines), c).value && t in r.tests ==>
                 && (all ==> Validated(r.checkpoint, t.name, failed))
                 && (Validated(r.checkpoint, t.name, failed) && (failed.names != [] || all) ==>
                       Evidenced(t.name, Blocks(Some(lines), c, p).value, tool, e))
  {
    hide DynamicRecords, Blocks, Mapped, Validated, Confirmed, Evidenced, FailedCases.Valid;
    if DynamicRecords(Some(lines), c).Some? && Blocks(Some(lines), c, p).Some? {
      forall checkpoint, name ensures Mapped(checkpoint, name, failed) <==> Validated(checkpoint, name, failed) {
        ValidatedIff(checkpoint, name, failed);
      }
      forall name ensures Confirmed(name, Blocks(Some(lines), c, p).value, tool, e) <==>
                          Evidenced(name, Blocks(Some(lines), c, p).value, tool, e) {
        EvidencedIff(name, Blocks(Some(lines), c, p).value, tool, e);
      }
    }
  }

  /** Exactly when the final gate passes for a document: it is well formed, and unless it has no Bug of non-zero confidence
      its analysis texts are complete, every Bug has a test, every test is evidenced, and no test is shadowed. */
  lemma FinalPassesIff(lines: seq<string>, c: Contract, p: Protocol, tool: Option<Tool>, e: Evidence)
    ensures FinalOk(Some(lines), c, p, tool, e) <==>
            && DynamicRecords(Some(lines), c).Some? && Blocks(Some(lines), c, p).Some?
            && var records := DynamicRecords(Some(lines), c).value;
            records != [] ==>
              && e.contentOk && !Shadowed(records)
              && forall r :: r in records ==>
                   r.tests != [] && forall t :: t in r.tests ==> Evidenced(t.name, Blocks(Some(lines), c, p).value, tool, e)
    ensures FinalOk(None, c, p, tool, e)
  {
    hide DynamicRecords, Blocks, Confirmed, Evidenced, Shadowed, Mapped, TestMap;
    if DynamicRecords(Some(lines), c).Some? && Blocks(Some(lines), c, p).Some? {
      var records := DynamicRecords(Some(lines), c).value;
      RefusedIff(records);
      forall name ensures Confirmed(name, Blocks(Some(lines), c, p).value, tool, e) <==>
                          Evidenced(name, Blocks(Some(lines), c, p).value, tool, e) {
        EvidencedIff(name, Blocks(Some(lines), c, p).value, tool, e);
      }
    }
  }

  /** The same over the lines: a document with Bugs passes if and only if analysis and evidence are complete, every line that
      opens a Bug of non-zero confidence has a test, and no test is shadowed. */
  lemma FinalPassesByLines(lines: seq<string>, c: Contract, p: Protocol, tool: Option<Tool>, e: Evidence)
    requires DynamicRecords(Some(lines), c).Some? && Blocks(Some(lines), c, p).Some? && exists j: nat :: OpensBug(lines, j)
    ensures FinalOk(Some(lines), c, p, tool, e) <==>
            && e.contentOk && !Shadowed(DynamicRecords(Some(lines), c).value)
            && (forall j: nat :: OpensBug(lines, j) ==> HasTestLine(lines, j))
            && (forall j: nat, i: nat :: Belongs(lines, j, i) ==> EvidencedAt(lines, i, Blocks(Some(lines), c, p).value, tool, e))
  {
    hide DynamicRecords, Blocks, Evidenced, Shadowed, OpensBug, Belongs, EvidencedAt, FinalOk, HasTestLine;
    FinalPassesIff(lines, c, p, tool, e);
    SomeBug(lines, c);
    TestedBugs(lines, c);
    EvidencedTests(lines, c, Blocks(Some(lines), c, p).value, tool, e);
  }

  lemma SomeBug(lines: seq<string>, c: Contract)
    requires DynamicRecords(Some(lines), c).Some? && exists j: nat :: OpensBug(lines, j)
    ensures DynamicRecords(Some(lines), c).value != []
  {
    hide DynamicRecords, OpensBug, Belongs;
    RecordsAreExact(lines, c);
    BugsInside(lines);
    var j: nat :| OpensBug(lines, j);
    assert HasRecord(DynamicRecords(Some(lines), c).value, j);
  }

  lemma TestedBugs(lines: seq<string>, c: Contract)
    requires DynamicRecords(Some(lines), c).Some?
    ensures (forall r :: r in DynamicRecords(Some(lines), c).value ==> r.tests != []) <==>
            (forall j: nat :: OpensBug(lines, j) ==> HasTestLine(lines, j))
  {
    hide DynamicRecords, OpensBug, Belongs, HasTestLine;
    var records := DynamicRecords(Some(lines), c).value;
    RecordsAreExact(lines, c);
    BugsInside(lines);
    forall r | r in records ensures OpensBug(lines, r.line) && (r.tests != [] <==> HasTestLine(lines, r.line)) {
      TestedIff(lines, c, r);
    }
    forall j: nat | OpensBug(lines, j) ensures exists r :: r in records && r.line == j { assert HasRecord(records, j); }
  }

  lemma EvidencedTests(lines: seq<string>, c: Contract, blocks: map<string, Block>, tool: Option<Tool>, e: Evidence)
    requires DynamicRecords(Some(lines), c).Some?
    ensures (forall r, t :: r in DynamicRecords(Some(lines), c).value && t in r.tests ==> Evidenced(t.name, blocks, tool, e)) <==>
            (forall j: nat, i: nat :: Belongs(lines, j, i) ==> EvidencedAt(lines, i, blocks, tool, e))
  {
    hide DynamicRecords, OpensBug, Belongs, EvidencedAt, Evidenced;
    var records := DynamicRecords(Some(lines), c).value;
    RecordsAreExact(lines, c);
    BugsInside(lines);
    forall r, t | r in records && t in r.tests
      ensures Belongs(lines, r.line, t.line) && (EvidencedAt(lines, t.line, blocks, tool, e) <==> Evidenced(t.name, blocks, tool, e)) {
      ListedTest(lines, c, r, t, blocks, tool, e);
    }
    forall j: nat, i: nat | Belongs(lines, j, i) ensures exists r, t :: r in records && t in r.tests && r.line == j && t.line == i {
      assert HasTest(records, j, i);
    }
  }

  /** Some test belongs to the Bug at line `j`. */
  ghost predicate HasTestLine(lines: seq<string>, j: nat)
  {
    exists i: nat :: Belongs(lines, j, i)
  }

  /** The test at line `i` is evidenced. */
  ghost predicate EvidencedAt(lines: seq<string>, i: nat, blocks: map<string, Block>, tool: Option<Tool>, e: Evidence)
  {
    i < |lines| && TagsOf(At(lines, i)) != [] && Evidenced(Strip(TagsOf(At(lines, i))[0].value), blocks, tool, e)
  }

  lemma BugsInside(lines: seq<string>)
    ensures forall j: nat :: OpensBug(lines, j) ==> j < |lines|
    ensures forall j: nat, i: nat :: Belongs(lines, j, i) ==> i < |lines|
  {
  }

  /** A record has tests if and only if some line belongs to its Bug. */
  lemma TestedIff(lines: seq<string>, c: Contract, r: BugRecord)
    requires DynamicRecords(Some(lines), c).Some? && r in DynamicRecords(Some(lines), c).value
    ensures OpensBug(lines, r.line) && (r.tests != [] <==> HasTestLine(lines, r.line))
  {
    hide DynamicRecords, OpensBug, Belongs;
    var records := DynamicRecords(Some(lines), c).value;
    RecordsAreExact(lines, c);
    BugsInside(lines);
    assert HasRecord(records, r.line);
    if r.tests != [] {
      assert r.tests[0] in r.tests && HasTest(records, r.line, r.tests[0].line);
    }
    forall i: nat | Belongs(lines, r.line, i) ensures r.tests != [] {
      assert HasTest(records, r.line, i);
      var s, t :| s in records && t in s.tests && s.line == r.line && t.line == i;
      OneRecordPerLine(lines, c, r, s);
    }
  }

  lemma ListedTest(lines: seq<string>, c: Contract, r: BugRecord, t: Test, blocks: map<string, Block>, tool: Option<Tool>,
                   e: Evidence)
    requires DynamicRecords(Some(lines), c).Some? && r in DynamicRecords(Some(lines), c).value && t in r.tests
    ensures Belongs(lines, r.line, t.line)
    ensures EvidencedAt(lines, t.line, blocks, tool, e) <==> Evidenced(t.name, blocks, tool, e)
  {
    hide DynamicRecords, Belongs, Evidenced, EntryLine, TagsOf, At, Strip;
    RecordsAreExact(lines, c);
    RecordPairs(lines, c);
    InPairs(DynamicRecords(Some(lines), c).value, r, t);
    assert HasTest(DynamicRecords(Some(lines), c).value, r.line, t.line);
    assert TestLine(lines, t);
  }
}
