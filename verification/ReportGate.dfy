/** The test-report gate: `check_report` and the checks it is made of
    (ucagent/checkers/toffee_report.py). */
module ReportGate {
  import opened Text
  import opened Lists
  import opened Locations

  /** The failed tests, in report order, with the checkpoints each one failed under. */
  datatype FailedCases = FailedCases(names: seq<string>, checks: map<string, seq<string>>)
  {
    ghost predicate Valid()
    {
      forall n :: n in names <==> n in checks
    }
  }

  /** The parts of a Toffee report the gate reads. */
  datatype Report = Report(coverageMissing: bool, unassociated: int, allChecks: seq<string>, failedChecks: seq<string>,
                           unmarkedCount: int, unmarkedChecks: seq<string>, failed: FailedCases,
                           testCases: Option<seq<(string, bool)>>)

  /** What the document readers return: the CK paths of the functions document and the BG and TC paths of the
      Bug document; None where the reader raises. */
  datatype Documents = Documents(checks: Option<seq<string>>, bugFileExists: bool, bugs: Option<seq<string>>,
                                 tests: Option<seq<string>>)

  datatype Options = Options(prefix: string, checkTcInDoc: bool, checkDocInTc: bool, onlyMarked: bool,
                             checkFailInBug: bool)

  // ---------------------------------------------------------------- reading a mark

  /** `s.split(sep, 1)[0]`. */
  function Before(s: string, sep: string): string
  {
    var i := Find(s, sep);
    if i == -1 then s else s[..i]
  }

  /** `s.split(sep, 1)[-1]`. */
  function Behind(s: string, sep: string): string
  {
    var i := Find(s, sep);
    if i == -1 then s else s[i + |sep|..]
  }

  /** `s.split(sep)[-1]`. */
  function BehindLast(s: string, sep: string): string
    requires sep != ""
    decreases |s|
  {
    var i := Find(s, sep);
    if i == -1 then s else BehindLast(s[i + |sep|..], sep)
  }

  function LastOf(s: string, c: char): string
  {
    s[LastIndexOf(s, c) + 1..]
  }

  function CheckpointOf(mark: string): string
  {
    Before(mark, "/BG-")
  }

  /** The parts of the test name that select the first matching test. */
  function FirstParts(mark: string): seq<string>
  {
    Pieces(Behind(mark, "/TC-"), "::")
  }

  function LastParts(mark: string): seq<string>
  {
    Pieces(BehindLast(mark, "/TC-"), "::")
  }

  // ---------------------------------------------------------------- matching a test by its parts

  /** Every part occurs somewhere in the name. */
  predicate Matches(parts: seq<string>, name: string)
  {
    forall i :: 0 <= i < |parts| ==> Find(name, parts[i]) != -1
  }

  /** `_find_matching_test_case`: the first name that matches. */
  function FirstMatch(parts: seq<string>, names: seq<string>): (r: Option<string>)
    ensures r.Some? ==> r.value in names && Matches(parts, r.value)
    ensures r.None? ==> forall n :: n in names ==> !Matches(parts, n)
  {
    if names == [] then None
    else if Matches(parts, names[0]) then Some(names[0])
    else FirstMatch(parts, names[1..])
  }

  method FindMatchingTestCase(parts: seq<string>, names: seq<string>) returns (r: Option<string>)
    ensures r == FirstMatch(parts, names)
  {
    hide Matches;
    for k := 0 to |names|
      invariant FirstMatch(parts, names) == FirstMatch(parts, names[k..])
    {
      assert names[k..][0] == names[k] && names[k..][1..] == names[k + 1..];
      if Matches(parts, names[k]) {
        return Some(names[k]);
      }
    }
    assert names[|names|..] == [];
    r := None;
  }

  lemma OccursInside(a: string, b: string, c: string, part: string)
    requires Contains(b, part)
    ensures Contains(a + b + c, part)
  {
    var i :| OccursAt(b, part, i);
    var s := a + b + c;
    assert s[|a| + i..|a| + i + |part|] == b[i..i + |part|];
    assert OccursAt(s, part, |a| + i);
  }

  lemma StartOccurs(s: string, n: nat)
    requires n <= |s|
    ensures Contains(s, s[..n])
  {
    assert OccursAt(s, s[..n], 0);
  }

  lemma {:induction false} PiecesOccur(s: string, sep: string, part: string)
    requires sep != "" && part in Pieces(s, sep)
    ensures Contains(s, part)
    decreases |s|
  {
    hide FindFrom, Contains;
    var i := Find(s, sep);
    if i == -1 {
      StartOccurs(s, |s|);
      assert s[..|s|] == s;
    } else {
      var rest := s[i + |sep|..];
      if part == s[..i] {
        StartOccurs(s, i);
      } else {
        PiecesOccur(rest, sep, part);
        OccursInside(s[..i + |sep|], rest, "", part);
        assert s == s[..i + |sep|] + rest + "";
      }
    }
  }

  /** Every name matches its own parts. */
  lemma MatchesItself(name: string)
    ensures Matches(Pieces(name, "::"), name)
  {
    var parts := Pieces(name, "::");
    hide Pieces, Find;
    forall i | 0 <= i < |parts| ensures Find(name, parts[i]) != -1 {
      PiecesOccur(name, "::", parts[i]);
      assert Contains(name, parts[i]);
    }
  }

  lemma {:induction false} FirstMatchIs(parts: seq<string>, names: seq<string>, k: nat)
    requires k < |names| && Matches(parts, names[k]) && forall j :: 0 <= j < k ==> !Matches(parts, names[j])
    ensures FirstMatch(parts, names) == Some(names[k])
    decreases |names|
  {
    hide Matches;
    if k > 0 {
      assert names[1..][k - 1] == names[k];
      assert forall j :: 0 <= j < k - 1 ==> names[1..][j] == names[j + 1];
      FirstMatchIs(parts, names[1..], k - 1);
    }
  }

  lemma {:induction false} FirstMatchIndex(parts: seq<string>, names: seq<string>) returns (k: nat)
    requires FirstMatch(parts, names).Some?
    ensures k < |names| && FirstMatch(parts, names) == Some(names[k])
    ensures forall j :: 0 <= j < k ==> !Matches(parts, names[j])
    decreases |names|
  {
    hide Matches;
    if Matches(parts, names[0]) {
      k := 0;
    } else {
      var m := FirstMatchIndex(parts, names[1..]);
      k := m + 1;
      assert forall j :: 0 <= j < m ==> names[1..][j] == names[j + 1];
    }
  }

  /** A test named in full is matched as itself exactly when no earlier, different test contains all its parts. */
  lemma NamedTestIsMatchedIff(names: seq<string>, k: nat)
    requires k < |names| && NoDup(names)
    ensures var parts := Pieces(names[k], "::");
            FirstMatch(parts, names) == Some(names[k]) <==> forall j :: 0 <= j < k ==> !Matches(parts, names[j])
  {
    var parts := Pieces(names[k], "::");
    MatchesItself(names[k]);
    hide Matches, Pieces, FirstMatch;
    var m := FirstMatchIndex(parts, names);
    if forall j :: 0 <= j < k ==> !Matches(parts, names[j]) {
      FirstMatchIs(parts, names, k);
    }
  }

  // ---------------------------------------------------------------- the parts of the gate

  predicate HasPrefix(s: string, prefix: string)
  {
    prefix <= s
  }

  function WithPrefix(s: seq<string>, prefix: string): (r: seq<string>)
    ensures forall x :: x in r <==> x in s && HasPrefix(x, prefix)
  {
    if s == [] then []
    else (if HasPrefix(s[0], prefix) then [s[0]] else []) + WithPrefix(s[1..], prefix)
  }

  /** The mark of a Bug of non-zero confidence that, read by its parts, points to the failed test `t` under a
      checkpoint `t` failed with. */
  ghost predicate Explains(mark: string, t: string, failed: FailedCases)
  {
    var bug := ParseBugLabel(LastOf(Before(mark, "/TC-"), '/'));
    && bug.Some? && bug.value.1 > 0.0
    && FirstMatch(FirstParts(mark), failed.names) == Some(t)
    && t in failed.checks && CheckpointOf(mark) in failed.checks[t]
  }

  /** A mark inside the target prefix agrees with the report: its checkpoint exists, its confidence is a number, its
      test is a node ID; and if the confidence is not zero, the test it points to failed under that checkpoint, or
      (in batch mode only) is not a known test. */
  ghost predicate Agrees(mark: string, checksInTc: seq<string>, failed: FailedCases, passed: seq<string>,
                         onlyMarked: bool)
  {
    var rate := ParseInt(LastOf(Before(mark, "/TC-"), '-'));
    && CheckpointOf(mark) in checksInTc && rate.Some? && |LastParts(mark)| >= 2
    && (rate.value != 0 ==>
          match FirstMatch(LastParts(mark), failed.names)
          case Some(t) => t in failed.checks && CheckpointOf(mark) in failed.checks[t]
          case None => onlyMarked && FirstMatch(LastParts(mark), passed).None?)
  }

  ghost predicate TestsAnalysed(marks: seq<string>, checksInTc: seq<string>, prefix: string, failed: FailedCases,
                                passed: seq<string>, onlyMarked: bool)
  {
    && (forall m :: m in marks && HasPrefix(m, prefix) ==> Agrees(m, checksInTc, failed, passed, onlyMarked))
    && (forall t :: t in failed.names ==> exists m :: m in marks && Explains(m, t, failed))
  }

  /** The first loop of `check_bug_tc_analysis`: the failed tests that some mark explains. */
  method ExplainedTests(marks: seq<string>, failed: FailedCases) returns (explained: set<string>)
    requires failed.Valid()
    ensures forall t :: t in explained <==> exists m :: m in marks && Explains(m, t, failed)
  {
    hide FirstParts, CheckpointOf, Before, ParseBugLabel, FirstMatch, LastOf;
    explained := {};
    for i := 0 to |marks|
      invariant forall t :: t in explained <==> exists m :: m in marks[..i] && Explains(m, t, failed)
    {
      assert marks[..i + 1] == marks[..i] + [marks[i]];
      ghost var before := explained;
      var bug := ParseBugLabel(LastOf(Before(marks[i], "/TC-"), '/'));
      if bug.Some? && bug.value.1 > 0.0 {
        var found := FindMatchingTestCase(FirstParts(marks[i]), failed.names);
        if found.Some? && CheckpointOf(marks[i]) in failed.checks[found.value] {
          explained := explained + {found.value};
        }
      }
      assert forall t :: t in explained <==> t in before || Explains(marks[i], t, failed);
    }
    assert marks[..|marks|] == marks;
  }

  /** The second loop: one mark inside the target prefix. */
  method MarkAgrees(mark: string, checksInTc: seq<string>, failed: FailedCases, passed: seq<string>, onlyMarked: bool)
    returns (ok: bool)
    requires failed.Valid()
    ensures ok == Agrees(mark, checksInTc, failed, passed, onlyMarked)
  {
    hide CheckpointOf, Before, LastOf, ParseInt, LastParts, FirstMatch;
    if CheckpointOf(mark) !in checksInTc {
      return false;
    }
    var rate := ParseInt(LastOf(Before(mark, "/TC-"), '-'));
    if rate.None? || |LastParts(mark)| < 2 {
      return false;
    }
    var failing := FindMatchingTestCase(LastParts(mark), failed.names);
    if failing.Some? {
      if rate.value != 0 && CheckpointOf(mark) !in failed.checks[failing.value] {
        return false;
      }
    } else if rate.value != 0 {
      var passing := FindMatchingTestCase(LastParts(mark), passed);
      if passing.Some? || !onlyMarked {
        return false;
      }
    }
    ok := true;
  }

  method CheckBugTcAnalysis(marks: Option<seq<string>>, checksInTc: seq<string>, prefix: string, failed: FailedCases,
                            passed: seq<string>, onlyMarked: bool)
    returns (ok: bool)
    requires failed.Valid()
    ensures ok == (marks.Some? && TestsAnalysed(marks.value, checksInTc, prefix, failed, passed, onlyMarked))
  {
    hide Agrees, Explains;
    if marks.None? {
      return false;
    }
    var all := marks.value;
    var explained := ExplainedTests(all, failed);
    for i := 0 to |all|
      invariant forall j :: 0 <= j < i && HasPrefix(all[j], prefix) ==>
                  Agrees(all[j], checksInTc, failed, passed, onlyMarked)
    {
      if HasPrefix(all[i], prefix) {
        var agrees := MarkAgrees(all[i], checksInTc, failed, passed, onlyMarked);
        if !agrees {
          assert all[i] in all;
          return false;
        }
      }
    }
    ok := forall t :: t in failed.names ==> t in explained;
  }

  /** The checkpoint paths of the Bugs of non-zero confidence inside the prefix; None when a mark is no Bug label. */
  ghost predicate BugChecks(marks: seq<string>, prefix: string, checks: seq<string>)
  {
    && (forall m :: m in marks && HasPrefix(m, prefix) ==> BugMark(m))
    && (forall ck :: ck in checks <==> exists m :: m in marks && HasPrefix(m, prefix) && NonZeroMark(m) && ck == PathOf(m))
  }

  predicate BugMark(mark: string)
  {
    "BG-" <= LastOf(mark, '/') && ParseBugLabel(LastOf(mark, '/')).Some?
  }

  predicate NonZeroMark(mark: string)
  {
    BugMark(mark) && ParseBugLabel(LastOf(mark, '/')).value.1 > 0.0
  }

  /** `"/".join(mark.split("/")[:-1])`. */
  function PathOf(mark: string): string
  {
    var i := LastIndexOf(mark, '/');
    if i == -1 then "" else mark[..i]
  }

  method GetBugCkList(marks: Option<seq<string>>, prefix: string) returns (checks: Option<seq<string>>)
    ensures checks.Some? ==> marks.Some? && BugChecks(marks.value, prefix, checks.value)
    ensures checks.None? ==> marks.None? || exists m :: m in marks.value && HasPrefix(m, prefix) && !BugMark(m)
  {
    hide BugMark, HasPrefix, PathOf;
    if marks.None? {
      return None;
    }
    var all := marks.value;
    var found: seq<string> := [];
    for i := 0 to |all|
      invariant BugChecks(all[..i], prefix, found)
    {
      assert all[..i + 1] == all[..i] + [all[i]];
      assert all[i] in all;
      if HasPrefix(all[i], prefix) {
        if !BugMark(all[i]) {
          return None;
        }
        if NonZeroMark(all[i]) {
          found := found + [PathOf(all[i])];
        }
      }
    }
    assert all[..|all|] == all;
    checks := Some(found);
  }

  /** Every failed checkpoint carries a Bug of non-zero confidence. */
  ghost predicate FailuresAnalysed(marks: seq<string>, prefix: string, failedChecks: seq<string>)
  {
    && (forall m :: m in marks && HasPrefix(m, prefix) ==> BugMark(m))
    && (forall ck :: ck in failedChecks ==>
          exists m :: m in marks && HasPrefix(m, prefix) && NonZeroMark(m) && ck == PathOf(m))
  }

  method CheckBugCkAnalysis(marks: Option<seq<string>>, failedChecks: seq<string>, checkFailInBug: bool, prefix: string)
    returns (ok: bool)
    ensures ok == (marks.Some? && FailuresAnalysed(marks.value, prefix, if checkFailInBug then failedChecks else []))
  {
    hide BugMark, HasPrefix, PathOf, NonZeroMark;
    var checks := GetBugCkList(marks, prefix);
    if checks.None? {
      return false;
    }
    ok := checkFailInBug ==> forall ck :: ck in failedChecks ==> ck in checks.value;
  }

  method CheckDocStruct(testChecks: seq<string>, docChecks: seq<string>, checkTcInDoc: bool, checkDocInTc: bool)
    returns (ok: bool)
    ensures ok == ((checkTcInDoc ==> SubsetOf(testChecks, docChecks)) && (checkDocInTc ==> SubsetOf(docChecks, testChecks)))
  {
    if checkTcInDoc {
      var missing := DropIn(testChecks, docChecks);
      EmptyDropIsSubset(testChecks, docChecks);
      if missing != [] {
        return false;
      }
    }
    if checkDocInTc {
      var missing := DropIn(docChecks, testChecks);
      EmptyDropIsSubset(docChecks, testChecks);
      if missing != [] {
        return false;
      }
    }
    ok := true;
  }

  lemma EmptyDropIsSubset(s: seq<string>, t: seq<string>)
    ensures DropIn(s, t) == [] <==> SubsetOf(s, t)
  {
    if DropIn(s, t) != [] {
      assert DropIn(s, t)[0] in DropIn(s, t);
    }
    assert forall x :: x in DropIn(s, t) <==> x in s && x !in t;
  }

  // ---------------------------------------------------------------- the whole gate

  function PassedNames(cases: seq<(string, bool)>): seq<string>
  {
    if cases == [] then [] else (if cases[0].1 then [cases[0].0] else []) + PassedNames(cases[1..])
  }

  function ChecksInTc(report: Report, o: Options): seq<string>
  {
    WithPrefix(report.allChecks, o.prefix)
  }

  /** The failed checkpoints the gate looks at: in batch mode only those some test marks. */
  function FailedChecks(report: Report, o: Options): (r: seq<string>)
    ensures forall ck :: ck in r <==>
              ck in report.failedChecks && HasPrefix(ck, o.prefix) &&
              (o.onlyMarked ==> ck in report.allChecks && ck !in report.unmarkedChecks)
  {
    var failed := WithPrefix(report.failedChecks, o.prefix);
    if o.onlyMarked then KeepIn(failed, DropIn(ChecksInTc(report, o), report.unmarkedChecks)) else failed
  }

  /** What a passing report means; `waveform` and `post` are the verdicts of the waveform gate and the caller's own
      post-check. */
  ghost predicate ReportOk(report: Report, docs: Documents, o: Options, waveform: bool, post: bool)
  {
    && docs.checks.Some? && !report.coverageMissing && report.unassociated <= 0 && report.testCases.Some?
    && (var docChecks, testChecks := WithPrefix(docs.checks.value, o.prefix), ChecksInTc(report, o);
        && (o.checkTcInDoc ==> SubsetOf(testChecks, docChecks))
        && (o.checkDocInTc ==> SubsetOf(docChecks, testChecks)))
    && (FailedChecks(report, o) != [] || docs.bugFileExists || report.failed.checks != map[] ==>
          && docs.tests.Some? && docs.bugs.Some? && waveform
          && TestsAnalysed(docs.tests.value, ChecksInTc(report, o), o.prefix, report.failed,
                           PassedNames(report.testCases.value), o.onlyMarked)
          && FailuresAnalysed(docs.bugs.value, o.prefix, if o.checkFailInBug then FailedChecks(report, o) else []))
    && (report.unmarkedCount > 0 && !o.onlyMarked ==>
          forall ck :: ck in report.unmarkedChecks ==> !HasPrefix(ck, o.prefix))
    && post
  }

  method CheckReport(report: Report, docs: Documents, o: Options, waveform: bool, post: bool) returns (ok: bool)
    requires report.failed.Valid()
    ensures ok == ReportOk(report, docs, o, waveform, post)
  {
    hide TestsAnalysed, FailuresAnalysed, HasPrefix, PassedNames, FailedChecks, ChecksInTc, SubsetOf;
    if docs.checks.None? {
      return false;
    }
    if report.coverageMissing || report.unassociated > 0 {
      return false;
    }
    var checksInTc := ChecksInTc(report, o);
    ok := CheckDocStruct(checksInTc, WithPrefix(docs.checks.value, o.prefix), o.checkTcInDoc, o.checkDocInTc);
    if !ok {
      return;
    }
    var failedChecks := FailedChecks(report, o);
    if report.testCases.None? {
      return false;
    }
    if failedChecks != [] || docs.bugFileExists || report.failed.checks != map[] {
      ok := CheckBugTcAnalysis(docs.tests, checksInTc, o.prefix, report.failed, PassedNames(report.testCases.value),
                               o.onlyMarked);
      if !ok {
        return;
      }
      ok := CheckBugCkAnalysis(docs.bugs, failedChecks, o.checkFailInBug, o.prefix);
      if !ok || !waveform {
        return false;
      }
    }
    if report.unmarkedCount > 0 && !o.onlyMarked {
      var unmarked := WithPrefix(report.unmarkedChecks, o.prefix);
      if unmarked != [] {
        assert unmarked[0] in unmarked;
        return false;
      }
    }
    ok := post;
  }

  /** A passing report explains every failure: each failed test contains all parts of the test name of a mark of
      non-zero confidence, no earlier failed test does, and the mark's checkpoint is one the test failed with;
      with the flag on, each failed checkpoint in the prefix carries a Bug of non-zero confidence; with both
      document flags on, the document and the test code have the same checkpoints in the prefix. */
  lemma PassExplainsFailures(report: Report, docs: Documents, o: Options, waveform: bool, post: bool)
    requires report.failed.Valid() && ReportOk(report, docs, o, waveform, post)
    ensures forall t :: t in report.failed.names ==>
              docs.tests.Some? && exists m :: m in docs.tests.value && ExplainedBy(m, t, report.failed)
    ensures o.checkFailInBug ==>
              forall ck :: ck in report.failedChecks && HasPrefix(ck, o.prefix) &&
                           (o.onlyMarked ==> ck in report.allChecks && ck !in report.unmarkedChecks) ==>
                docs.bugs.Some? && exists m :: m in docs.bugs.value && NonZeroMark(m) && PathOf(m) == ck
    ensures o.checkTcInDoc && o.checkDocInTc ==>
              forall ck :: HasPrefix(ck, o.prefix) ==> (ck in docs.checks.value <==> ck in report.allChecks)
  {
    hide Explains, Agrees, HasPrefix, PathOf, NonZeroMark, BugMark, ExplainedBy, PassedNames;
    forall t | t in report.failed.names
      ensures docs.tests.Some? && exists m :: m in docs.tests.value && ExplainedBy(m, t, report.failed) {
      assert t in report.failed.checks;
      assert report.failed.checks != map[];
      var m :| m in docs.tests.value && Explains(m, t, report.failed);
      ExplanationIsFirst(m, t, report.failed);
    }
    forall ck | o.checkFailInBug && ck in report.failedChecks && HasPrefix(ck, o.prefix) &&
                (o.onlyMarked ==> ck in report.allChecks && ck !in report.unmarkedChecks)
      ensures docs.bugs.Some? && exists m :: m in docs.bugs.value && NonZeroMark(m) && PathOf(m) == ck {
      assert ck in FailedChecks(report, o);
    }
    if o.checkTcInDoc && o.checkDocInTc {
      forall ck | HasPrefix(ck, o.prefix) ensures ck in docs.checks.value <==> ck in report.allChecks {
        assert ck in WithPrefix(docs.checks.value, o.prefix) <==> ck in docs.checks.value;
        assert ck in ChecksInTc(report, o) <==> ck in report.allChecks;
      }
    }
  }

  /** What a mark that explains the failed test `t` looks like. */
  ghost predicate ExplainedBy(mark: string, t: string, failed: FailedCases)
  {
    var bug := ParseBugLabel(LastOf(Before(mark, "/TC-"), '/'));
    && bug.Some? && bug.value.1 > 0.0
    && t in failed.checks && CheckpointOf(mark) in failed.checks[t]
    && exists k :: 0 <= k < |failed.names| && failed.names[k] == t && FirstMatching(FirstParts(mark), failed.names, k)
  }

  ghost predicate FirstMatching(parts: seq<string>, names: seq<string>, k: nat)
    requires k < |names|
  {
    Matches(parts, names[k]) && forall j :: 0 <= j < k ==> !Matches(parts, names[j])
  }

  lemma ExplanationIsFirst(mark: string, t: string, failed: FailedCases)
    requires Explains(mark, t, failed)
    ensures ExplainedBy(mark, t, failed)
  {
    hide Matches, FirstParts, CheckpointOf, Before, LastOf, ParseBugLabel;
    var k := FirstMatchIndex(FirstParts(mark), failed.names);
    assert FirstMatching(FirstParts(mark), failed.names, k);
  }

  // ---------------------------------------------------------------- where matching by parts goes wrong

  lemma LongerNameMatches(name: string, suffix: string)
    ensures Matches(Pieces(name, "::"), name + suffix)
  {
    hide Pieces, Find, Contains;
    var parts := Pieces(name, "::");
    forall i | 0 <= i < |parts| ensures Find(name + suffix, parts[i]) != -1 {
      PiecesOccur(name, "::", parts[i]);
      OccursInside("", name, suffix, parts[i]);
      assert "" + name + suffix == name + suffix;
    }
  }

  predicate NonZeroTestMark(mark: string)
  {
    var bug := ParseBugLabel(LastOf(Before(mark, "/TC-"), '/'));
    bug.Some? && bug.value.1 > 0.0
  }

  /** Exactly when a mark that names the failed test number `k` in full counts for it: its confidence is not zero, the
      test failed under its checkpoint, and no earlier failed test contains all parts of the name. */
  lemma ExplainsIff(mark: string, failed: FailedCases, k: nat)
    requires failed.Valid() && NoDup(failed.names) && k < |failed.names|
    requires FirstParts(mark) == Pieces(failed.names[k], "::")
    ensures Explains(mark, failed.names[k], failed) <==>
            && NonZeroTestMark(mark) && CheckpointOf(mark) in failed.checks[failed.names[k]]
            && forall j :: 0 <= j < k ==> !Matches(FirstParts(mark), failed.names[j])
  {
    hide Matches, Pieces, FirstParts, ParseBugLabel, Before, LastOf, CheckpointOf, FirstMatch;
    NamedTestIsMatchedIff(failed.names, k);
    assert failed.names[k] in failed.names;
  }

  /** When a failed test whose name extends `failed.names[k]` is reported earlier, no mark that names the shorter test
      in full explains it: every such mark is counted for a longer name. */
  lemma LongerNameShadows(failed: FailedCases, j: nat, k: nat, suffix: string, mark: string)
    requires failed.Valid() && NoDup(failed.names) && j < k < |failed.names|
    requires failed.names[j] == failed.names[k] + suffix && FirstParts(mark) == Pieces(failed.names[k], "::")
    ensures !Explains(mark, failed.names[k], failed)
  {
    hide Matches, Pieces, FirstParts, Explains, CheckpointOf, NonZeroTestMark;
    LongerNameMatches(failed.names[k], suffix);
    ExplainsIff(mark, failed, k);
  }
}
