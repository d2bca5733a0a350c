/** Exactly which test reports are accepted, said about the lists of the report and of the documents
    (ucagent/checkers/toffee_report.py). */
module ReportRules {
  import opened Text
  import opened Lists
  import opened Locations
  import opened ReportGate

  // ---------------------------------------------------------------- the rules

  /** The first failed test that contains all parts failed under the checkpoint. */
  ghost predicate FirstFailedUnder(parts: seq<string>, checkpoint: string, failed: FailedCases)
  {
    exists k :: 0 <= k < |failed.names| && FirstMatching(parts, failed.names, k)
                && failed.names[k] in failed.checks && checkpoint in failed.checks[failed.names[k]]
  }

  /** No test of the report, failed or passed, contains all parts. */
  ghost predicate UnknownTest(parts: seq<string>, failed: FailedCases, cases: seq<(string, bool)>)
  {
    && (forall n :: n in failed.names ==> !Matches(parts, n))
    && (forall c :: c in cases && c.1 ==> !Matches(parts, c.0))
  }

  /** A mark of the Bug document inside the prefix agrees with the report: it belongs to a checkpoint of the tests; its
      confidence is a number and its test a node ID; and if the confidence is not zero, its test failed under its
      checkpoint, or in batch mode is not known at all. */
  ghost predicate MarkFits(mark: string, report: Report, o: Options)
  {
    var rate, parts := ParseInt(LastOf(Before(mark, "/TC-"), '-')), LastParts(mark);
    && Before(mark, "/BG-") in report.allChecks && o.prefix <= Before(mark, "/BG-")
    && rate.Some? && |parts| >= 2 && report.testCases.Some?
    && (rate.value != 0 ==>
          || FirstFailedUnder(parts, Before(mark, "/BG-"), report.failed)
          || (o.onlyMarked && UnknownTest(parts, report.failed, report.testCases.value)))
  }

  /** A failed checkpoint that counts: inside the prefix, and in batch mode marked by a test. */
  predicate Counts(report: Report, o: Options, ck: string)
  {
    ck in report.failedChecks && o.prefix <= ck && (o.onlyMarked ==> ck in report.allChecks && ck !in report.unmarkedChecks)
  }

  /** Some Bug of non-zero confidence inside the prefix is documented under the checkpoint. */
  ghost predicate HasBugMark(marks: seq<string>, prefix: string, ck: string)
  {
    exists m :: m in marks && prefix <= m && PathOf(m) == ck && "BG-" <= LastOf(m, '/')
                && ParseBugLabel(LastOf(m, '/')).Some? && ParseBugLabel(LastOf(m, '/')).value.1 > 0.0
  }

  /** The report and the document have something to analyse. */
  ghost predicate NeedsAnalysis(report: Report, docs: Documents, o: Options)
  {
    (exists ck :: Counts(report, o, ck)) || docs.bugFileExists || report.failed.names != []
  }

  /** The Bug document explains the report. */
  ghost predicate Analysed(report: Report, docs: Documents, o: Options)
  {
    && docs.tests.Some? && docs.bugs.Some?
    && (forall m :: m in docs.tests.value && o.prefix <= m ==> MarkFits(m, report, o))
    && (forall t :: t in report.failed.names ==> exists m :: m in docs.tests.value && ExplainedBy(m, t, report.failed))
    && (forall m :: m in docs.bugs.value && o.prefix <= m ==>
          "BG-" <= LastOf(m, '/') && ParseBugLabel(LastOf(m, '/')).Some?)
    && (o.checkFailInBug ==> forall ck :: Counts(report, o, ck) ==> HasBugMark(docs.bugs.value, o.prefix, ck))
  }

  /** Test code and document have the same checkpoints inside the prefix, as far as the flags demand it. */
  predicate SameCheckpoints(report: Report, checks: seq<string>, o: Options)
  {
    && (o.checkTcInDoc ==> forall i :: 0 <= i < |report.allChecks| && o.prefix <= report.allChecks[i] ==>
                             report.allChecks[i] in checks)
    && (o.checkDocInTc ==> forall i :: 0 <= i < |checks| && o.prefix <= checks[i] ==> checks[i] in report.allChecks)
  }

  // ---------------------------------------------------------------- the gate against the rules

  lemma {:induction false} PassedIff(cases: seq<(string, bool)>, name: string)
    ensures name in PassedNames(cases) <==> exists i :: 0 <= i < |cases| && cases[i] == (name, true)
    decreases |cases|
  {
    if cases != [] {
      PassedIff(cases[1..], name);
      assert forall i :: 0 <= i < |cases| - 1 ==> cases[1..][i] == cases[i + 1];
    }
  }

  lemma FirstFailedIff(parts: seq<string>, checkpoint: string, failed: FailedCases)
    requires failed.Valid()
    ensures FirstFailedUnder(parts, checkpoint, failed) <==>
            var found := FirstMatch(parts, failed.names);
            found.Some? && found.value in failed.checks && checkpoint in failed.checks[found.value]
  {
    hide Matches;
    if FirstMatch(parts, failed.names).Some? {
      var k := FirstMatchIndex(parts, failed.names);
      assert FirstMatching(parts, failed.names, k);
    }
    if FirstFailedUnder(parts, checkpoint, failed) {
      var k :| 0 <= k < |failed.names| && FirstMatching(parts, failed.names, k)
               && failed.names[k] in failed.checks && checkpoint in failed.checks[failed.names[k]];
      FirstMatchIs(parts, failed.names, k);
    }
  }

  lemma UnknownIff(parts: seq<string>, failed: FailedCases, cases: seq<(string, bool)>)
    ensures UnknownTest(parts, failed, cases) <==>
            FirstMatch(parts, failed.names).None? && FirstMatch(parts, PassedNames(cases)).None?
  {
    hide Matches, PassedNames, FirstMatch;
    forall n ensures n in PassedNames(cases) <==> (n, true) in cases { PassedIff(cases, n); }
    if FirstMatch(parts, failed.names).None? && FirstMatch(parts, PassedNames(cases)).None? {
      forall c | c in cases && c.1 ensures !Matches(parts, c.0) { assert c == (c.0, true); }
    }
    if FirstMatch(parts, PassedNames(cases)).Some? {
      var n := FirstMatch(parts, PassedNames(cases)).value;
      assert (n, true) in cases;
    }
  }

  lemma AgreesIff(mark: string, report: Report, o: Options)
    requires report.failed.Valid() && report.testCases.Some?
    ensures Agrees(mark, ChecksInTc(report, o), report.failed, PassedNames(report.testCases.value), o.onlyMarked) <==>
            MarkFits(mark, report, o)
  {
    hide FirstFailedUnder, UnknownTest, FirstMatch, PassedNames, LastParts, ParseInt, LastOf, Before;
    var parts := LastParts(mark);
    FirstFailedIff(parts, CheckpointOf(mark), report.failed);
    UnknownIff(parts, report.failed, report.testCases.value);
    assert CheckpointOf(mark) in ChecksInTc(report, o) <==>
           CheckpointOf(mark) in report.allChecks && o.prefix <= CheckpointOf(mark);
  }

  lemma ExplainedIff(mark: string, t: string, failed: FailedCases)
    ensures Explains(mark, t, failed) <==> ExplainedBy(mark, t, failed)
  {
    hide Matches, FirstParts, CheckpointOf, Before, LastOf, ParseBugLabel;
    if Explains(mark, t, failed) { ExplanationIsFirst(mark, t, failed); }
    if ExplainedBy(mark, t, failed) {
      var k :| 0 <= k < |failed.names| && failed.names[k] == t && FirstMatching(FirstParts(mark), failed.names, k);
      FirstMatchIs(FirstParts(mark), failed.names, k);
    }
  }

  lemma TestsIff(report: Report, tests: seq<string>, o: Options)
    requires report.failed.Valid() && report.testCases.Some?
    ensures TestsAnalysed(tests, ChecksInTc(report, o), o.prefix, report.failed, PassedNames(report.testCases.value),
                          o.onlyMarked) <==>
            && (forall m :: m in tests && o.prefix <= m ==> MarkFits(m, report, o))
            && (forall t :: t in report.failed.names ==> exists m :: m in tests && ExplainedBy(m, t, report.failed))
  {
    hide Agrees, MarkFits, Explains, ExplainedBy, PassedNames, ChecksInTc;
    forall m ensures Agrees(m, ChecksInTc(report, o), report.failed, PassedNames(report.testCases.value), o.onlyMarked) <==>
                     MarkFits(m, report, o) {
      AgreesIff(m, report, o);
    }
    forall m, t ensures Explains(m, t, report.failed) <==> ExplainedBy(m, t, report.failed) {
      ExplainedIff(m, t, report.failed);
    }
  }

  lemma CountsIff(report: Report, o: Options)
    ensures forall ck :: ck in FailedChecks(report, o) <==> Counts(report, o, ck)
    ensures FailedChecks(report, o) == [] <==> forall ck :: !Counts(report, o, ck)
  {
    hide FailedChecks;
    assert FailedChecks(report, o) != [] ==> FailedChecks(report, o)[0] in FailedChecks(report, o);
  }

  lemma FailuresIff(report: Report, bugs: seq<string>, o: Options)
    ensures FailuresAnalysed(bugs, o.prefix, if o.checkFailInBug then FailedChecks(report, o) else []) <==>
            && (forall m :: m in bugs && o.prefix <= m ==> "BG-" <= LastOf(m, '/') && ParseBugLabel(LastOf(m, '/')).Some?)
            && (o.checkFailInBug ==> forall ck :: Counts(report, o, ck) ==> HasBugMark(bugs, o.prefix, ck))
  {
    CountsIff(report, o);
    hide FailedChecks, Counts, ParseBugLabel, LastOf, PathOf;
    forall ck ensures HasBugMark(bugs, o.prefix, ck) <==>
                      exists m :: m in bugs && HasPrefix(m, o.prefix) && NonZeroMark(m) && ck == PathOf(m) {
    }
  }

  lemma CheckpointsIff(report: Report, checks: seq<string>, o: Options)
    ensures SameCheckpoints(report, checks, o) <==>
            && (o.checkTcInDoc ==> SubsetOf(ChecksInTc(report, o), WithPrefix(checks, o.prefix)))
            && (o.checkDocInTc ==> SubsetOf(WithPrefix(checks, o.prefix), ChecksInTc(report, o)))
  {
    hide WithPrefix;
  }

  lemma FailedNamesIff(failed: FailedCases)
    requires failed.Valid()
    ensures failed.checks != map[] <==> failed.names != []
  {
    if failed.names != [] { assert failed.names[0] in failed.checks; }
    if failed.checks != map[] {
      var n :| n in failed.checks;
      assert n in failed.names;
    }
  }

  /** Exactly when a report passes. */
  lemma ReportPassesIff(report: Report, docs: Documents, o: Options, waveform: bool, post: bool)
    requires report.failed.Valid()
    ensures ReportOk(report, docs, o, waveform, post) <==>
            && docs.checks.Some? && !report.coverageMissing && report.unassociated <= 0 && report.testCases.Some? && post
            && SameCheckpoints(report, docs.checks.value, o)
            && (NeedsAnalysis(report, docs, o) ==> Analysed(report, docs, o) && waveform)
            && (report.unmarkedCount > 0 && !o.onlyMarked ==>
                  forall ck :: ck in report.unmarkedChecks ==> !(o.prefix <= ck))
  {
    hide TestsAnalysed, FailuresAnalysed, MarkFits, ExplainedBy, HasBugMark, Counts, PassedNames, FailedChecks, ChecksInTc,
      SubsetOf, SameCheckpoints, ParseBugLabel, LastOf, WithPrefix;
    if docs.checks.Some? { CheckpointsIff(report, docs.checks.value, o); }
    CountsIff(report, o);
    FailedNamesIff(report.failed);
    if report.testCases.Some? && docs.tests.Some? { TestsIff(report, docs.tests.value, o); }
    if docs.bugs.Some? { FailuresIff(report, docs.bugs.value, o); }
  }

  /** What a passing report says of the documented tests: each mark of a Bug of non-zero confidence inside the prefix
      belongs to a checkpoint of the tests, and the first failed test that contains all its parts failed under that
      checkpoint; only in batch mode it may name a test the report does not know. */
  lemma PassingMarksFit(report: Report, docs: Documents, o: Options, waveform: bool, post: bool, mark: string)
    requires report.failed.Valid() && ReportOk(report, docs, o, waveform, post)
    requires docs.tests.Some? && mark in docs.tests.value && o.prefix <= mark && NeedsAnalysis(report, docs, o)
    ensures Before(mark, "/BG-") in report.allChecks
    ensures var rate, parts := ParseInt(LastOf(Before(mark, "/TC-"), '-')), LastParts(mark);
            && rate.Some? && report.testCases.Some?
            && (rate.value != 0 && !FirstFailedUnder(parts, Before(mark, "/BG-"), report.failed) ==>
                  o.onlyMarked && UnknownTest(parts, report.failed, report.testCases.value))
  {
    hide ReportOk, FirstFailedUnder, UnknownTest, ParseInt, LastOf, Before, LastParts, NeedsAnalysis, SameCheckpoints, ExplainedBy;
    ReportPassesIff(report, docs, o, waveform, post);
    assert MarkFits(mark, report, o);
  }

  // ---------------------------------------------------------------- what a mark says

  /** The path of a test in the Bug document: checkpoint, label of the Bug and test. */
  function MarkOf(checkpoint: string, name: string, percent: nat, test: string): string
  {
    checkpoint + "/" + BugLabel(name, percent) + "/TC-" + test
  }

  lemma OccursChars(s: string, part: string, i: int)
    ensures OccursAt(s, part, i) ==> forall k :: 0 <= k < |part| ==> s[i + k] == part[k]
  {
    if OccursAt(s, part, i) {
      var t := s[i..i + |part|];
      assert forall k :: 0 <= k < |t| ==> t[k] == s[i + k];
    }
  }

  lemma OccursInFront(front: string, rest: string, part: string, i: int)
    ensures OccursAt(front + rest, part, i) && i + |part| <= |front| ==> OccursAt(front, part, i)
  {
    assert 0 <= i <= |front| - |part| ==> (front + rest)[i..i + |part|] == front[i..i + |part|];
  }

  /** Where a part occurs first, when nothing in front of it or across the seam is the part. */
  lemma FirstAt(front: string, part: string, back: string)
    requires part != "" && !Contains(front, part)
    requires forall i :: 0 <= i < |front| < i + |part| ==> !OccursAt(front + part + back, part, i)
    ensures Find(front + part + back, part) == |front|
  {
    var s := front + part + back;
    assert s == front + (part + back);
    assert s[|front|..|front| + |part|] == part;
    assert OccursAt(s, part, |front|);
    forall i | OccursAt(s, part, i) ensures i >= |front| { OccursInFront(front, part + back, part, i); }
  }

  /** Nothing occurs across a seam at which a slash begins the part. */
  lemma NoSeam(s: string, part: string, at: nat, i: int)
    requires at < |s| && s[at] == '/' && part != "" && part[0] == '/' && '/' !in part[1..]
    requires i < at < i + |part|
    ensures !OccursAt(s, part, i)
  {
    OccursChars(s, part, i);
    assert part[at - i] == part[1..][at - i - 1];
  }

  lemma LabelHasNoSlash(name: string, percent: nat)
    requires '/' !in name
    ensures '/' !in BugLabel(name, percent) && "BG-" <= BugLabel(name, percent)
  {
    NatTextShape(percent);
    LabelPrefix(name, percent);
    hide NatText;
    var digits := NatText(percent);
    assert BugLabel(name, percent) == "BG-" + name + "-" + digits;
  }

  lemma BugOfMark(checkpoint: string, tag: string, rest: string)
    requires !Contains(checkpoint, "/BG-") && "BG-" <= tag
    ensures Before(checkpoint + "/" + tag + rest, "/BG-") == checkpoint
  {
    var back := tag[3..] + rest;
    var s := checkpoint + "/BG-" + back;
    assert tag == "BG-" + tag[3..];
    assert checkpoint + "/" + tag + rest == s;
    assert s[|checkpoint|] == '/';
    forall i | 0 <= i < |checkpoint| < i + 4 ensures !OccursAt(s, "/BG-", i) { NoSeam(s, "/BG-", |checkpoint|, i); }
    FirstAt(checkpoint, "/BG-", back);
  }

  lemma TestOfMark(front: string, test: string)
    requires !Contains(front, "/TC-")
    ensures Before(front + "/TC-" + test, "/TC-") == front && Behind(front + "/TC-" + test, "/TC-") == test
    ensures BehindLast(front + "/TC-" + test, "/TC-") == BehindLast(test, "/TC-")
  {
    var s := front + "/TC-" + test;
    assert s[|front|] == '/';
    forall i | 0 <= i < |front| < i + 4 ensures !OccursAt(s, "/TC-", i) { NoSeam(s, "/TC-", |front|, i); }
    FirstAt(front, "/TC-", test);
    assert s[..|front|] == front && s[|front| + 4..] == test;
  }

  /** A Bug without slashes adds no test mark. */
  lemma NoTestMark(checkpoint: string, tag: string)
    requires !Contains(checkpoint, "/TC-") && "BG-" <= tag && '/' !in tag
    ensures !Contains(checkpoint + "/" + tag, "/TC-")
  {
    var s := checkpoint + "/" + tag;
    assert s == checkpoint + ("/" + tag);
    assert s[|checkpoint|] == '/' && s[|checkpoint| + 1] == tag[0];
    assert forall k :: |checkpoint| < k < |s| ==> s[k] == tag[k - |checkpoint| - 1];
    forall i ensures !OccursAt(s, "/TC-", i) {
      OccursChars(s, "/TC-", i);
      OccursInFront(checkpoint, "/" + tag, "/TC-", i);
      if i < |checkpoint| < i + 4 { NoSeam(s, "/TC-", |checkpoint|, i); }
      assert "/TC-"[0] == '/' && "/TC-"[1] == 'T';
    }
  }

  lemma LastOfJoin(front: string, c: char, back: string)
    requires c !in back
    ensures LastOf(front + [c] + back, c) == back
  {
    var s := front + [c] + back;
    assert s[|front|] == c && forall k :: |front| < k < |s| ==> s[k] == back[k - |front| - 1];
    hide LastIndexOf;
    assert LastIndexOf(s, c) == |front|;
  }

  /** A mark of the document is read as what it was made of. */
  lemma MarkReads(checkpoint: string, name: string, percent: nat, test: string)
    requires !Contains(checkpoint, "/BG-") && !Contains(checkpoint, "/TC-") && '/' !in name && !Contains(test, "/TC-")
    ensures var mark := MarkOf(checkpoint, name, percent, test);
            && CheckpointOf(mark) == checkpoint && LastOf(Before(mark, "/TC-"), '/') == BugLabel(name, percent)
            && ParseInt(LastOf(Before(mark, "/TC-"), '-')) == Some(percent)
            && FirstParts(mark) == Pieces(test, "::") && LastParts(mark) == Pieces(test, "::")
  {
    hide Pieces, Find, BugLabel, LastIndexOf, ParseInt, NatText, Contains, LastOf, Before, Behind, BehindLast;
    var tag := BugLabel(name, percent);
    var mark, front := MarkOf(checkpoint, name, percent, test), checkpoint + "/" + tag;
    LabelHasNoSlash(name, percent);
    assert mark == checkpoint + "/" + tag + ("/TC-" + test);
    BugOfMark(checkpoint, tag, "/TC-" + test);
    NoTestMark(checkpoint, tag);
    assert mark == front + "/TC-" + test;
    TestOfMark(front, test);
    NoneBehind(test);
    assert front == checkpoint + ['/'] + tag;
    LastOfJoin(checkpoint, '/', tag);
    NumberOfLabel(checkpoint, name, percent);
  }

  lemma NoneBehind(test: string)
    requires !Contains(test, "/TC-")
    ensures BehindLast(test, "/TC-") == test
  {
  }

  lemma NumberOfLabel(checkpoint: string, name: string, percent: nat)
    ensures ParseInt(LastOf(checkpoint + "/" + BugLabel(name, percent), '-')) == Some(percent)
  {
    hide NatText, ParseInt, LastOf;
    NatTextShape(percent);
    ParseIntOfNatText(percent);
    var front, digits := checkpoint + "/BG-" + name, NatText(percent);
    assert '-' !in digits;
    assert checkpoint + "/" + BugLabel(name, percent) == front + ['-'] + digits;
    LastOfJoin(front, '-', digits);
  }
}
