/** Exactly when matching by parts makes the final waveform gate refuse the tests of a document
    (ucagent/checkers/toffee_report.py). */
module DocumentedTests {
  import opened Text
  import opened ReportGate
  import opened DynamicBugs
  import opened Waveform
  import opened WaveformGate

  // ---------------------------------------------------------------- when a documented test is refused

  /** The test `t` of record `r` is read as the earlier documented test number `k`, which is not documented under the
      checkpoint of `r`. */
  ghost predicate Shadows(records: seq<BugRecord>, names: seq<string>, r: BugRecord, t: Test, k: nat)
  {
    && r in records && t in r.tests && k < |names|
    && FirstMatching(Pieces(t.name, "::"), names, k) && names[k] != t.name
    && !Documented(records, names[k], r.checkpoint)
  }

  ghost predicate Shadowed(records: seq<BugRecord>)
  {
    exists r, t, k :: Shadows(records, TestMap(records).names, r, t, k)
  }

  lemma MappedIff(checkpoint: string, name: string, failed: FailedCases)
    ensures Mapped(checkpoint, name, failed) <==>
            exists k :: 0 <= k < |failed.names| && FirstMatching(Pieces(name, "::"), failed.names, k)
                        && Holds(failed, failed.names[k], checkpoint)
  {
    hide Matches, Pieces, FirstMatch;
    var parts := Pieces(name, "::");
    if FirstMatch(parts, failed.names).Some? {
      var k := FirstMatchIndex(parts, failed.names);
      assert FirstMatching(parts, failed.names, k);
    }
    forall k | 0 <= k < |failed.names| && FirstMatching(parts, failed.names, k)
      ensures FirstMatch(parts, failed.names) == Some(failed.names[k]) {
      FirstMatchIs(parts, failed.names, k);
    }
  }

  /** Every documented test is matched to some documented test. */
  lemma SomeMatch(records: seq<BugRecord>, r: BugRecord, t: Test) returns (k: nat)
    requires r in records && t in r.tests
    ensures k < |TestMap(records).names| && FirstMatching(Pieces(t.name, "::"), TestMap(records).names, k)
  {
    hide Matches, Pieces, FirstMatch, TestMap;
    var m := TestMap(records);
    TestMapExact(records, t.name, r.checkpoint);
    assert Documented(records, t.name, r.checkpoint);
    assert t.name in m.names;
    MatchesItself(t.name);
    k := FirstMatchIndex(Pieces(t.name, "::"), m.names);
  }

  lemma OneFirst(parts: seq<string>, names: seq<string>, j: nat, k: nat)
    requires j < |names| && k < |names| && FirstMatching(parts, names, j) && FirstMatching(parts, names, k)
    ensures j == k
  {
    hide Matches;
  }

  lemma UnmappedIffShadowed(records: seq<BugRecord>, r: BugRecord, t: Test)
    requires r in records && t in r.tests
    ensures !Mapped(r.checkpoint, t.name, TestMap(records)) <==>
            exists k :: Shadows(records, TestMap(records).names, r, t, k)
  {
    hide Mapped, FirstMatching, TestMap, Pieces;
    var m := TestMap(records);
    var parts := Pieces(t.name, "::");
    MappedIff(r.checkpoint, t.name, m);
    var k := SomeMatch(records, r, t);
    TestMapExact(records, m.names[k], r.checkpoint);
    TestMapExact(records, t.name, r.checkpoint);
    assert Documented(records, t.name, r.checkpoint);
    forall j | 0 <= j < |m.names| && FirstMatching(parts, m.names, j) ensures j == k {
      OneFirst(parts, m.names, j, k);
    }
    if !Mapped(r.checkpoint, t.name, m) {
      assert !Holds(m, m.names[k], r.checkpoint);
      assert Shadows(records, m.names, r, t, k);
    }
  }

  /** The exact condition: the documented tests cannot all be matched if and only if some test is read as another
      documented test, the first one that contains all its parts, that is not documented under its checkpoint. */
  lemma RefusedIff(records: seq<BugRecord>)
    ensures !AllMapped(records, TestMap(records)) <==> Shadowed(records)
  {
    hide Mapped, Shadows, TestMap;
    forall r, t | r in records && t in r.tests
      ensures !Mapped(r.checkpoint, t.name, TestMap(records)) <==>
              exists k :: Shadows(records, TestMap(records).names, r, t, k) {
      UnmappedIffShadowed(records, r, t);
    }
    if Shadowed(records) {
      var r, t, k :| Shadows(records, TestMap(records).names, r, t, k);
      ShadowedTest(records, TestMap(records).names, r, t, k);
      UnmappedIffShadowed(records, r, t);
      assert !Mapped(r.checkpoint, t.name, TestMap(records));
    }
  }

  lemma ShadowedTest(records: seq<BugRecord>, names: seq<string>, r: BugRecord, t: Test, k: nat)
    requires Shadows(records, names, r, t, k)
    ensures r in records && t in r.tests
  {
  }

  /** Nothing is missing: the document and its evidence are well formed, there is a Bug, every Bug has a test and every
      test a confirmed record. */
  ghost predicate Complete(document: Option<seq<string>>, c: Contract, p: Protocol, tool: Option<Tool>, e: Evidence)
  {
    && DynamicRecords(document, c).Some? && Blocks(document, c, p).Some? && e.contentOk
    && var records := DynamicRecords(document, c).value;
    && records != []
    && forall r :: r in records ==>
         r.tests != [] && forall t :: t in r.tests ==> Confirmed(t.name, Blocks(document, c, p).value, tool, e)
  }

  /** The final gate accepts a complete document if and only if none of its tests is shadowed. */
  lemma CompletePassesIff(document: Option<seq<string>>, c: Contract, p: Protocol, tool: Option<Tool>, e: Evidence)
    requires document.Some? && Complete(document, c, p, tool, e)
    ensures FinalOk(document, c, p, tool, e) <==> !Shadowed(DynamicRecords(document, c).value)
  {
    hide DynamicRecords, Blocks, TestMap, Confirmed, Mapped, Shadowed;
    RefusedIff(DynamicRecords(document, c).value);
  }
}
