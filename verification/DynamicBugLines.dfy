/** Which lines of a dynamic Bug document make up its records, independently of the scanner
    (ucagent/checkers/toffee_report.py). */
module DynamicBugLines {
  import opened Text
  import opened Lists
  import opened Locations
  import opened DynamicBugs

  // ---------------------------------------------------------------- what the lines say

  function At(lines: seq<string>, i: nat): string
    requires i < |lines|
  {
    Strip(lines[i])
  }

  /** Fenced text is open before line `n`. */
  predicate FenceOpen(lines: seq<string>, n: nat)
    requires n <= |lines|
  {
    n > 0 && (IsFence(At(lines, n - 1)) != FenceOpen(lines, n - 1))
  }

  /** Line `i` is neither a fence nor fenced text. */
  predicate Visible(lines: seq<string>, i: nat)
    requires i < |lines|
  {
    !IsFence(At(lines, i)) && !FenceOpen(lines, i)
  }

  /** The DYNAMIC-BUGS container is open before line `n`. */
  predicate Inside(lines: seq<string>, n: nat)
    requires n <= |lines|
  {
    n > 0 &&
    if Visible(lines, n - 1) && At(lines, n - 1) == DYNAMIC_BUGS then true
    else if Visible(lines, n - 1) && At(lines, n - 1) == DYNAMIC_BUGS_END then false
    else Inside(lines, n - 1)
  }

  predicate EntryLine(lines: seq<string>, i: nat)
    requires i < |lines|
  {
    Visible(lines, i) && Inside(lines, i) && At(lines, i) != DYNAMIC_BUGS && At(lines, i) != DYNAMIC_BUGS_END
  }

  predicate OneTag(lines: seq<string>, i: nat, kind: Kind)
    requires i < |lines|
  {
    var tags := TagsOf(At(lines, i));
    |tags| == 1 && tags[0].kind == kind
  }

  /** A Bug of non-zero confidence is declared at line `j`. */
  predicate OpensBug(lines: seq<string>, j: nat)
  {
    j < |lines| && EntryLine(lines, j) && OneTag(lines, j, BG) && NonZero(Label(TagsOf(At(lines, j))[0]))
  }

  predicate IsTest(lines: seq<string>, i: nat)
  {
    i < |lines| && EntryLine(lines, i) && OneTag(lines, i, TC)
  }

  /** Line `k` ends the entry of every Bug before it. */
  predicate Breaks(lines: seq<string>, k: nat)
  {
    k < |lines| && Visible(lines, k) &&
    (At(lines, k) == DYNAMIC_BUGS_END || (EntryLine(lines, k) && HasScope(TagsOf(At(lines, k)))))
  }

  /** The Bug at line `j` is the current one before line `n`. */
  ghost predicate Open(lines: seq<string>, j: nat, n: nat)
  {
    j < n && OpensBug(lines, j) && forall k: nat :: j < k < n ==> !Breaks(lines, k)
  }

  /** The test at line `i` belongs to the Bug at line `j`. */
  ghost predicate Belongs(lines: seq<string>, j: nat, i: nat)
  {
    IsTest(lines, i) && Open(lines, j, i)
  }

  // ---------------------------------------------------------------- what the scanner lists

  ghost predicate HasRecord(records: seq<BugRecord>, j: nat)
  {
    exists r :: r in records && r.line == j
  }

  ghost predicate HasTest(records: seq<BugRecord>, j: nat, i: nat)
  {
    exists r, t :: r in records && t in r.tests && r.line == j && t.line == i
  }

  function All(s: Scan): seq<BugRecord>
  {
    Close(s).closed
  }

  ghost predicate ListsExactly(lines: seq<string>, n: nat, records: seq<BugRecord>)
  {
    && (forall j: nat :: HasRecord(records, j) <==> j < n && OpensBug(lines, j))
    && (forall j: nat, i: nat :: HasTest(records, j, i) <==> i < n && Belongs(lines, j, i))
  }

  ghost predicate CurrentIsOpen(lines: seq<string>, n: nat, s: Scan)
  {
    forall j: nat :: Open(lines, j, n) <==> s.current.Some? && j == s.current.value.line
  }

  ghost predicate Tracks(lines: seq<string>, n: nat, s: Scan)
    requires n <= |lines|
  {
    && s.fence == FenceOpen(lines, n)
    && s.inside == Inside(lines, n)
    && CurrentIsOpen(lines, n, s)
    && ListsExactly(lines, n, All(s))
  }

  /** Line `n` leaves records and current Bug alone. */
  lemma Unchanged(lines: seq<string>, n: nat, s: Scan, t: Scan)
    requires n < |lines| && Tracks(lines, n, s)
    requires t.current == s.current && t.closed == s.closed
    requires !OpensBug(lines, n) && !Breaks(lines, n) && (IsTest(lines, n) ==> s.current.None?)
    ensures CurrentIsOpen(lines, n + 1, t)
    ensures ListsExactly(lines, n + 1, All(t))
  {
    hide OpensBug, Breaks, IsTest, HasTest, HasRecord, FenceOpen, Inside;
    OpenAfter(lines, n, n + 1);
    assert All(t) == All(s);
    assert CurrentIsOpen(lines, n + 1, t);
    hide Open;
  }

  lemma OpenAfter(lines: seq<string>, n: nat, m: nat)
    requires m == n + 1
    ensures forall j: nat :: Open(lines, j, m) <==>
                             (Open(lines, j, n) && !Breaks(lines, n)) || (j == n && OpensBug(lines, n))
  {
    hide OpensBug, Breaks;
  }

  /** Line `n` ends the current entry. */
  lemma Ended(lines: seq<string>, n: nat, s: Scan, t: Scan)
    requires n < |lines| && Tracks(lines, n, s) && t.current.None? && t.closed == All(s)
    requires Breaks(lines, n) && !OpensBug(lines, n) && !IsTest(lines, n)
    ensures CurrentIsOpen(lines, n + 1, t)
    ensures ListsExactly(lines, n + 1, All(t))
  {
    hide OpensBug, Breaks, IsTest, HasTest, HasRecord, FenceOpen, Inside;
    OpenAfter(lines, n, n + 1);
    assert All(t) == All(s);
  }

  lemma RecordAdded(records: seq<BugRecord>, r: BugRecord)
    ensures forall j: nat :: HasRecord(records + [r], j) <==> HasRecord(records, j) || j == r.line
    ensures forall j: nat, i: nat ::
              HasTest(records + [r], j, i) <==> HasTest(records, j, i) || (j == r.line && HasTest([r], j, i))
  {
    var all := records + [r];
    assert forall x :: x in all <==> x in records || x == r;
    assert forall x :: x in [r] <==> x == r;
    forall j: nat, i: nat
      ensures HasTest(all, j, i) <==> HasTest(records, j, i) || (j == r.line && HasTest([r], j, i)) {
      if HasTest(all, j, i) {
        var x, t :| x in all && t in x.tests && x.line == j && t.line == i;
      }
    }
  }

  lemma TestAdded(r: BugRecord, t: Test)
    ensures forall j: nat, i: nat ::
              HasTest([r.(tests := r.tests + [t])], j, i) <==>
              HasTest([r], j, i) || (j == r.line && i == t.line)
  {
    var next := r.(tests := r.tests + [t]);
    assert forall x :: x in next.tests <==> x in r.tests || x == t;
    assert forall x :: x in [next] <==> x == next;
    assert forall x :: x in [r] <==> x == r;
    forall j: nat, i: nat
      ensures HasTest([next], j, i) <==> HasTest([r], j, i) || (j == r.line && i == t.line) {
      if j == r.line && (i == t.line || HasTest([r], j, i)) {
        assert exists u :: u in next.tests && u.line == i;
      }
    }
  }

  lemma NoTestsYet(r: BugRecord)
    requires r.tests == []
    ensures forall j: nat, i: nat :: !HasTest([r], j, i)
  {
  }

  /** Line `n` opens a Bug of non-zero confidence. */
  lemma Opened(lines: seq<string>, n: nat, s: Scan, t: Scan)
    requires n < |lines| && Tracks(lines, n, s) && t.closed == All(s)
    requires t.current.Some? && t.current.value.line == n && t.current.value.tests == []
    requires Breaks(lines, n) && OpensBug(lines, n) && !IsTest(lines, n)
    ensures CurrentIsOpen(lines, n + 1, t)
    ensures ListsExactly(lines, n + 1, All(t))
  {
    hide OpensBug, Breaks, IsTest, HasTest, HasRecord, FenceOpen, Inside;
    OpenAfter(lines, n, n + 1);
    RecordAdded(All(s), t.current.value);
    NoTestsYet(t.current.value);
  }

  /** Line `n` lists a test of the current Bug. */
  lemma Added(lines: seq<string>, n: nat, s: Scan, t: Scan, test: Test)
    requires n < |lines| && Tracks(lines, n, s) && t.closed == s.closed && s.current.Some?
    requires test.line == n
    requires t.current == Some(s.current.value.(tests := s.current.value.tests + [test]))
    requires !Breaks(lines, n) && !OpensBug(lines, n) && IsTest(lines, n)
    ensures CurrentIsOpen(lines, n + 1, t)
    ensures ListsExactly(lines, n + 1, All(t))
  {
    hide OpensBug, Breaks, IsTest, HasTest, HasRecord, FenceOpen, Inside;
    var r := s.current.value;
    OpenAfter(lines, n, n + 1);
    RecordAdded(s.closed, r);
    RecordAdded(s.closed, t.current.value);
    TestAdded(r, test);
  }

  lemma Fenced(lines: seq<string>, n: nat)
    requires n < |lines|
    ensures FenceOpen(lines, n + 1) == (IsFence(At(lines, n)) != FenceOpen(lines, n))
    ensures Inside(lines, n + 1) ==
            if Visible(lines, n) && At(lines, n) == DYNAMIC_BUGS then true
            else if Visible(lines, n) && At(lines, n) == DYNAMIC_BUGS_END then false
            else Inside(lines, n)
  {
  }

  /** The effect of a scope tag: the current record is closed, and a Bug of non-zero confidence becomes current. */
  lemma ScopeEffect(s: Scan, n: nat, text: string, c: Contract, t: Scan)
    requires ScanEntry(s, n, text, c) == Some(t) && |TagsOf(text)| == 1 && TagsOf(text)[0].kind != TC
    ensures t.closed == All(s) && t.fence == s.fence && t.inside == s.inside
    ensures var tag := TagsOf(text)[0];
            && (t.current.Some? <==> tag.kind == BG && NonZero(Label(tag)))
            && (t.current.Some? ==>
                  t.current == Some(BugRecord(Label(tag), Joined([s.fg, s.fc, s.ck]), n, [])))
  {
    hide TagsOf, HeadingTitle, Label, Joined, NonZero, ParseBugLabel;
    assert HasScope(TagsOf(text));
  }

  /** The effect of a test tag: the current record gets one more test. */
  lemma TestEffect(s: Scan, n: nat, text: string, c: Contract, t: Scan) returns (test: Test)
    requires ScanEntry(s, n, text, c) == Some(t) && |TagsOf(text)| == 1 && TagsOf(text)[0].kind == TC
    ensures t.closed == s.closed && t.fence == s.fence && t.inside == s.inside && HeadingTitle(text, TagsOf(text)[0], c).Some?
    ensures test.line == n && test.name == Strip(TagsOf(text)[0].value)
    ensures t.current == if s.current.None? then None
                         else Some(s.current.value.(tests := s.current.value.tests + [test]))
  {
    hide TagsOf, HeadingTitle, Label, Joined, NonZero, ParseBugLabel, Strip;
    assert !HasScope(TagsOf(text));
    test := Test(Strip(TagsOf(text)[0].value), HeadingTitle(text, TagsOf(text)[0], c).value, n);
  }

  /** A line with a proper heading, inside the container. */
  lemma EntryTracks(lines: seq<string>, n: nat, s: Scan, c: Contract, t: Scan)
    requires n < |lines| && Tracks(lines, n, s) && EntryLine(lines, n)
    requires ScanEntry(s, n, At(lines, n), c) == Some(t)
    ensures CurrentIsOpen(lines, n + 1, t)
    ensures ListsExactly(lines, n + 1, All(t))
    ensures t.fence == s.fence && t.inside == s.inside
  {
    hide TagsOf, HeadingTitle, FenceOpen, Inside, ListsExactly, Open, Label, ParseBugLabel, Joined, Tracks, At, Apply,
      CurrentIsOpen, All, Close, HasScope, NonZero;
    var tags := TagsOf(At(lines, n));
    if tags == [] {
      NoTagLine(lines, n);
      Unchanged(lines, n, s, t);
    } else {
      HeadingHasOneTag(At(lines, n), tags[0], c);
      if tags[0].kind == TC {
        TestTracks(lines, n, s, c, t);
      } else {
        ScopeTracks(lines, n, s, c, t);
      }
    }
  }

  lemma NoTagLine(lines: seq<string>, n: nat)
    requires n < |lines| && EntryLine(lines, n) && TagsOf(At(lines, n)) == []
    ensures !OpensBug(lines, n) && !Breaks(lines, n) && !IsTest(lines, n)
  {
    hide TagsOf, FenceOpen, Inside, Visible, At;
  }

  lemma TestTracks(lines: seq<string>, n: nat, s: Scan, c: Contract, t: Scan)
    requires n < |lines| && Tracks(lines, n, s) && EntryLine(lines, n)
    requires ScanEntry(s, n, At(lines, n), c) == Some(t) && OneTag(lines, n, TC)
    ensures CurrentIsOpen(lines, n + 1, t)
    ensures ListsExactly(lines, n + 1, All(t))
    ensures t.fence == s.fence && t.inside == s.inside
  {
    hide TagsOf, HeadingTitle, FenceOpen, Inside, ListsExactly, Open, Label, NonZero, Tracks, At, Visible, CurrentIsOpen,
      All, ScanEntry, Strip;
    var test := TestEffect(s, n, At(lines, n), c, t);
    if s.current.None? {
      Unchanged(lines, n, s, t);
    } else {
      Added(lines, n, s, t, test);
    }
  }

  lemma ScopeTracks(lines: seq<string>, n: nat, s: Scan, c: Contract, t: Scan)
    requires n < |lines| && Tracks(lines, n, s) && EntryLine(lines, n)
    requires ScanEntry(s, n, At(lines, n), c) == Some(t)
    requires |TagsOf(At(lines, n))| == 1 && TagsOf(At(lines, n))[0].kind != TC
    ensures CurrentIsOpen(lines, n + 1, t)
    ensures ListsExactly(lines, n + 1, All(t))
    ensures t.fence == s.fence && t.inside == s.inside
  {
    hide TagsOf, HeadingTitle, FenceOpen, Inside, ListsExactly, Open, Label, Joined, Tracks, At, Visible, CurrentIsOpen,
      ParseBugLabel, ScanEntry, NonZero;
    var tags := TagsOf(At(lines, n));
    ScopeEffect(s, n, At(lines, n), c, t);
    if tags[0].kind == BG && NonZero(Label(tags[0])) {
      Opened(lines, n, s, t);
    } else {
      Ended(lines, n, s, t);
    }
  }

  lemma LineTracks(lines: seq<string>, n: nat, s: Scan, c: Contract, t: Scan)
    requires n < |lines| && Tracks(lines, n, s)
    requires ScanLine(s, n, At(lines, n), c) == Some(t)
    ensures Tracks(lines, n + 1, t)
  {
    hide TagsOf, FenceOpen, Inside, ListsExactly, Open, ScanEntry, IsFence, HasBug, OneTag, At, NonZero, Label;
    Fenced(lines, n);
    var u := if s.firstBug.None? && HasBug(TagsOf(At(lines, n))) then s.(firstBug := Some(n)) else s;
    assert Tracks(lines, n, u);
    if IsFence(At(lines, n)) || s.fence {
      Unchanged(lines, n, s, t);
    } else if At(lines, n) == DYNAMIC_BUGS {
      MarkersDiffer();
      Unchanged(lines, n, u, t);
    } else if At(lines, n) == DYNAMIC_BUGS_END {
      Ended(lines, n, u, t);
    } else if !u.inside {
      Unchanged(lines, n, u, t);
    } else {
      EntryTracks(lines, n, u, c, t);
    }
  }

  lemma MarkersDiffer()
    ensures DYNAMIC_BUGS != DYNAMIC_BUGS_END
  {
    assert DYNAMIC_BUGS[1] != DYNAMIC_BUGS_END[1];
  }

  lemma StartTracks(lines: seq<string>)
    ensures Tracks(lines, 0, START)
  {
  }

  lemma {:induction false} ScannerTracks(lines: seq<string>, n: nat, c: Contract)
    requires n <= |lines| && After(lines, n, c).Some?
    ensures Tracks(lines, n, After(lines, n, c).value)
    decreases n
  {
    hide ScanLine, Tracks, Strip;
    if n > 0 {
      ScannerTracks(lines, n - 1, c);
      LineTracks(lines, n - 1, After(lines, n - 1, c).value, c, After(lines, n, c).value);
    } else {
      StartTracks(lines);
    }
  }

  /** The records of an accepted document list exactly the visible Bugs of non-zero confidence in the container,
      and under each exactly the tests between it and the next FG/FC/CK/BG tag or the end of the container. */
  lemma RecordsAreExact(lines: seq<string>, c: Contract)
    requires DynamicRecords(Some(lines), c).Some?
    ensures ListsExactly(lines, |lines|, DynamicRecords(Some(lines), c).value)
  {
    hide ListsExactly, HasStaticTag, After;
    ScannerTracks(lines, |lines|, c);
  }

  // ---------------------------------------------------------------- the order of the listed tests

  /** All (Bug, test) pairs, in document order. */
  function Pairs(records: seq<BugRecord>): seq<(string, Test)>
  {
    if records == [] then []
    else
      var r := records[|records| - 1];
      Pairs(records[..|records| - 1]) + Map(r.tests, (t: Test) => (r.bug, t))
  }

  /** The pairs come from different lines, in order, and each is a test tag of the document. */
  ghost predicate FromLines(lines: seq<string>, n: nat, pairs: seq<(string, Test)>)
  {
    && (forall i, j :: 0 <= i < j < |pairs| ==> pairs[i].1.line < pairs[j].1.line)
    && (forall p :: p in pairs ==> p.1.line < n && TestLine(lines, p.1))
  }

  ghost predicate TestLine(lines: seq<string>, t: Test)
  {
    && IsTest(lines, t.line) && t.name == Strip(TagsOf(At(lines, t.line))[0].value)
    && Marks(TC) <= At(lines, t.line)
  }

  lemma HeadingMarks(text: string, tag: Tag, c: Contract)
    requires HeadingTitle(text, tag, c).Some?
    ensures Marks(tag.kind) <= text
  {
    hide Label, Marks;
  }

  lemma PairsOfLast(records: seq<BugRecord>, r: BugRecord)
    ensures Pairs(records + [r]) == Pairs(records) + Map(r.tests, (t: Test) => (r.bug, t))
  {
    assert (records + [r])[..|records|] == records;
  }

  lemma PairAdded(records: seq<BugRecord>, r: BugRecord, t: Test)
    ensures Pairs(records + [r.(tests := r.tests + [t])]) == Pairs(records + [r]) + [(r.bug, t)]
  {
    hide Pairs;
    var next := r.(tests := r.tests + [t]);
    PairsOfLast(records, r);
    PairsOfLast(records, next);
    assert Map(next.tests, (u: Test) => (r.bug, u)) == Map(r.tests, (u: Test) => (r.bug, u)) + [(r.bug, t)];
  }

  lemma PairsStay(records: seq<BugRecord>, r: BugRecord)
    requires r.tests == []
    ensures Pairs(records + [r]) == Pairs(records)
  {
    PairsOfLast(records, r);
    assert Map(r.tests, (u: Test) => (r.bug, u)) == [];
  }

  /** One line adds at most one pair, the test of that line. */
  lemma LineAddsPair(lines: seq<string>, n: nat, s: Scan, c: Contract, t: Scan)
    requires n < |lines| && s.fence == FenceOpen(lines, n) && s.inside == Inside(lines, n)
    requires ScanLine(s, n, At(lines, n), c) == Some(t)
    ensures Pairs(All(t)) == Pairs(All(s)) ||
            exists p :: Pairs(All(t)) == Pairs(All(s)) + [p] && p.1.line == n && TestLine(lines, p.1)
  {
    hide TagsOf, FenceOpen, Inside, IsFence, HasBug, At, NonZero, Label, HeadingTitle, Strip, Pairs, Apply;
    if !IsFence(At(lines, n)) && !s.fence && At(lines, n) != DYNAMIC_BUGS && At(lines, n) != DYNAMIC_BUGS_END
       && s.inside && TagsOf(At(lines, n)) != [] {
      EntryAddsPair(lines, n, if s.firstBug.None? && HasBug(TagsOf(At(lines, n))) then s.(firstBug := Some(n)) else s,
                    c, t);
    }
  }

  lemma EntryAddsPair(lines: seq<string>, n: nat, s: Scan, c: Contract, t: Scan)
    requires n < |lines| && EntryLine(lines, n) && TagsOf(At(lines, n)) != []
    requires ScanEntry(s, n, At(lines, n), c) == Some(t)
    ensures Pairs(All(t)) == Pairs(All(s)) ||
            exists p :: Pairs(All(t)) == Pairs(All(s)) + [p] && p.1.line == n && TestLine(lines, p.1)
  {
    hide TagsOf, At, NonZero, Label, HeadingTitle, Strip, Pairs, Joined, ScanEntry, EntryLine, TestLine;
    var tags := TagsOf(At(lines, n));
    EntryHasOneTag(s, n, At(lines, n), c, t);
    if tags[0].kind == TC {
      var test := TestEffect(s, n, At(lines, n), c, t);
      if s.current.Some? {
        IsTestOf(lines, n, test, c);
        PairAdded(s.closed, s.current.value, test);
        assert (Pairs(All(s)) + [(s.current.value.bug, test)])[|Pairs(All(s))|].1 == test;
      }
    } else {
      ScopeEffect(s, n, At(lines, n), c, t);
      if t.current.Some? {
        PairsStay(t.closed, t.current.value);
      }
    }
  }

  lemma EntryHasOneTag(s: Scan, n: nat, text: string, c: Contract, t: Scan)
    requires ScanEntry(s, n, text, c) == Some(t) && TagsOf(text) != []
    ensures |TagsOf(text)| == 1
  {
    hide TagsOf, HeadingTitle, Apply, HasScope;
    HeadingHasOneTag(text, TagsOf(text)[0], c);
  }

  lemma IsTestOf(lines: seq<string>, n: nat, test: Test, c: Contract)
    requires n < |lines| && EntryLine(lines, n) && OneTag(lines, n, TC) && test.line == n
    requires test.name == Strip(TagsOf(At(lines, n))[0].value) && HeadingTitle(At(lines, n), TagsOf(At(lines, n))[0], c).Some?
    ensures TestLine(lines, test)
  {
    hide TagsOf, At, HeadingTitle, Strip, EntryLine;
    HeadingMarks(At(lines, n), TagsOf(At(lines, n))[0], c);
  }

  lemma {:induction false} PairsFromLines(lines: seq<string>, n: nat, c: Contract)
    requires n <= |lines| && After(lines, n, c).Some?
    ensures FromLines(lines, n, Pairs(All(After(lines, n, c).value)))
    decreases n
  {
    hide TagsOf, FenceOpen, Inside, ListsExactly, ScanLine, Pairs, Close, CurrentIsOpen, TestLine, Strip;
    if n > 0 {
      PairsFromLines(lines, n - 1, c);
      ScannerTracks(lines, n - 1, c);
      LineAddsPair(lines, n - 1, After(lines, n - 1, c).value, c, After(lines, n, c).value);
    } else {
      NoPairs();
    }
  }

  lemma NoPairs()
    ensures Pairs(All(START)) == []
  {
  }

  /** The tests listed under the records of an accepted document stand on different lines, in order. */
  lemma RecordPairs(lines: seq<string>, c: Contract)
    requires DynamicRecords(Some(lines), c).Some?
    ensures FromLines(lines, |lines|, Pairs(DynamicRecords(Some(lines), c).value))
  {
    hide FromLines, HasStaticTag, After;
    PairsFromLines(lines, |lines|, c);
  }

  // ---------------------------------------------------------------- the labels of the records

  /** The last line before line `n` that carries a tag of this kind, or -1. */
  function LastTag(lines: seq<string>, n: nat, kind: Kind): (r: int)
    requires n <= |lines|
    ensures -1 <= r < n && (r >= 0 ==> OneTag(lines, r, kind))
  {
    if n == 0 then -1
    else if EntryLine(lines, n - 1) && OneTag(lines, n - 1, kind) then n - 1
    else LastTag(lines, n - 1, kind)
  }

  function LabelAt(lines: seq<string>, i: int): Option<string>
    requires i < |lines|
  {
    if i < 0 || TagsOf(At(lines, i)) == [] then None else Some(Label(TagsOf(At(lines, i))[0]))
  }

  // The FG, FC and CK tag in force before line `n`: an FC counts only within its FG, a CK only within both.

  function FgAt(lines: seq<string>, n: nat): Option<string>
    requires n <= |lines|
  {
    LabelAt(lines, LastTag(lines, n, FG))
  }

  function FcAt(lines: seq<string>, n: nat): Option<string>
    requires n <= |lines|
  {
    if LastTag(lines, n, FC) < LastTag(lines, n, FG) then None else LabelAt(lines, LastTag(lines, n, FC))
  }

  function CkAt(lines: seq<string>, n: nat): Option<string>
    requires n <= |lines|
  {
    if LastTag(lines, n, CK) < LastTag(lines, n, FG) || LastTag(lines, n, CK) < LastTag(lines, n, FC) then None
    else LabelAt(lines, LastTag(lines, n, CK))
  }

  ghost predicate Hierarchy(lines: seq<string>, n: nat, s: Scan)
    requires n <= |lines|
  {
    s.fg == FgAt(lines, n) && s.fc == FcAt(lines, n) && s.ck == CkAt(lines, n)
  }

  lemma OtherLine(lines: seq<string>, n: nat)
    requires n < |lines| && (!EntryLine(lines, n) || TagsOf(At(lines, n)) == [] ||
                             OneTag(lines, n, BG) || OneTag(lines, n, TC))
    ensures FgAt(lines, n + 1) == FgAt(lines, n) && FcAt(lines, n + 1) == FcAt(lines, n)
    ensures CkAt(lines, n + 1) == CkAt(lines, n)
  {
    hide EntryLine, TagsOf, At, Label;
  }

  lemma ScopeLine(lines: seq<string>, n: nat, kind: Kind)
    requires n < |lines| && EntryLine(lines, n) && OneTag(lines, n, kind)
    ensures var own := Some(Label(TagsOf(At(lines, n))[0]));
            && (kind == FG ==> FgAt(lines, n + 1) == own && FcAt(lines, n + 1) == None && CkAt(lines, n + 1) == None)
            && (kind == FC ==> FgAt(lines, n + 1) == FgAt(lines, n) && FcAt(lines, n + 1) == own
                               && CkAt(lines, n + 1) == None)
            && (kind == CK ==> FgAt(lines, n + 1) == FgAt(lines, n) && FcAt(lines, n + 1) == FcAt(lines, n)
                               && CkAt(lines, n + 1) == own)
  {
    hide EntryLine, TagsOf, At, Label;
  }

  /** The scopes after a tag: one of its own kind replaces its own level and ends the levels below. */
  predicate ScopesAfter(s: Scan, tag: Tag, t: Scan)
  {
    && t.fg == (if tag.kind == FG then Some(Label(tag)) else s.fg)
    && t.fc == (if tag.kind == FG then None else if tag.kind == FC then Some(Label(tag)) else s.fc)
    && t.ck == (if tag.kind == FG || tag.kind == FC then None else if tag.kind == CK then Some(Label(tag)) else s.ck)
  }

  lemma ApplyScopes(s: Scan, n: nat, tag: Tag, title: string, t: Scan)
    requires Apply(s, n, tag, title) == Some(t)
    ensures ScopesAfter(s, tag, t)
  {
    hide Label, ParseBugLabel, Joined, NonZero, Strip;
  }

  lemma ScanScopes(s: Scan, n: nat, text: string, c: Contract, t: Scan)
    requires ScanEntry(s, n, text, c) == Some(t)
    ensures TagsOf(text) == [] ==> t.fg == s.fg && t.fc == s.fc && t.ck == s.ck
    ensures TagsOf(text) != [] ==> HeadingTitle(text, TagsOf(text)[0], c).Some? && ScopesAfter(s, TagsOf(text)[0], t)
  {
    hide TagsOf, HeadingTitle, Label, HasScope, Apply;
    if TagsOf(text) != [] {
      var tag := TagsOf(text)[0];
      var u := if s.current.Some? && c.analysisField(text) then s.(analysis := true) else s;
      ApplyScopes(if HasScope(TagsOf(text)) then Close(u) else u, n, tag, HeadingTitle(text, tag, c).value, t);
    }
  }

  lemma EntryHierarchy(lines: seq<string>, n: nat, s: Scan, c: Contract, t: Scan)
    requires n < |lines| && EntryLine(lines, n) && Hierarchy(lines, n, s)
    requires ScanEntry(s, n, At(lines, n), c) == Some(t)
    ensures Hierarchy(lines, n + 1, t)
  {
    hide TagsOf, HeadingTitle, Label, At, EntryLine, FgAt, FcAt, CkAt, ScanEntry;
    var tags := TagsOf(At(lines, n));
    ScanScopes(s, n, At(lines, n), c, t);
    if tags == [] {
      OtherLine(lines, n);
    } else {
      HeadingHasOneTag(At(lines, n), tags[0], c);
      if tags[0].kind == BG || tags[0].kind == TC {
        OtherLine(lines, n);
      } else {
        ScopeLine(lines, n, tags[0].kind);
      }
    }
  }

  lemma {:induction false} HierarchyTracks(lines: seq<string>, n: nat, c: Contract)
    requires n <= |lines| && After(lines, n, c).Some?
    ensures Hierarchy(lines, n, After(lines, n, c).value)
    decreases n
  {
    hide TagsOf, FenceOpen, Inside, ListsExactly, CurrentIsOpen, Strip, HasBug, IsFence, ScanEntry, FgAt, FcAt, CkAt;
    if n == 0 {
      NoTagsYet(lines);
    } else {
      HierarchyTracks(lines, n - 1, c);
      ScannerTracks(lines, n - 1, c);
      var s, t := After(lines, n - 1, c).value, After(lines, n, c).value;
      var text := At(lines, n - 1);
      var u := if s.firstBug.None? && HasBug(TagsOf(text)) then s.(firstBug := Some(n - 1)) else s;
      if !IsFence(text) && !s.fence && text != DYNAMIC_BUGS && text != DYNAMIC_BUGS_END && u.inside {
        EntryHierarchy(lines, n - 1, u, c, t);
      } else {
        OtherLine(lines, n - 1);
      }
    }
  }

  lemma NoTagsYet(lines: seq<string>)
    ensures FgAt(lines, 0) == None && FcAt(lines, 0) == None && CkAt(lines, 0) == None
  {
  }

  /** The record carries the label of its line and the path of the FG, FC and CK tags in force there. */
  ghost predicate RecordLine(lines: seq<string>, r: BugRecord)
  {
    && OpensBug(lines, r.line) && r.bug == Label(TagsOf(At(lines, r.line))[0])
    && r.checkpoint == Joined([FgAt(lines, r.line), FcAt(lines, r.line), CkAt(lines, r.line)])
  }

  lemma EntryKeepsLabels(lines: seq<string>, n: nat, s: Scan, c: Contract, t: Scan)
    requires n < |lines| && EntryLine(lines, n) && ScanEntry(s, n, At(lines, n), c) == Some(t)
    requires Hierarchy(lines, n, s) && forall r :: r in All(s) ==> RecordLine(lines, r)
    ensures forall r :: r in All(t) ==> RecordLine(lines, r)
  {
    hide TagsOf, At, NonZero, Label, HeadingTitle, ParseBugLabel, EntryLine, Joined, RecordLine, Apply, HasScope,
      Hierarchy;
    var tags := TagsOf(At(lines, n));
    if tags != [] {
      HeadingHasOneTag(At(lines, n), tags[0], c);
      if tags[0].kind == TC {
        TestKeepsLabels(lines, n, s, c, t);
      } else {
        ScopeKeepsLabels(lines, n, s, c, t);
      }
    } else {
      assert All(t) == All(s);
    }
  }

  lemma TestKeepsLabels(lines: seq<string>, n: nat, s: Scan, c: Contract, t: Scan)
    requires n < |lines| && ScanEntry(s, n, At(lines, n), c) == Some(t) && OneTag(lines, n, TC)
    requires forall r :: r in All(s) ==> RecordLine(lines, r)
    ensures forall r :: r in All(t) ==> RecordLine(lines, r)
  {
    hide TagsOf, At, Label, HeadingTitle, OpensBug, Joined, FgAt, FcAt, CkAt, ScanEntry, Strip;
    var test := TestEffect(s, n, At(lines, n), c, t);
    if s.current.Some? {
      assert s.current.value in All(s);
      assert All(t) == s.closed + [t.current.value];
      assert forall r :: r in s.closed ==> r in All(s);
    }
  }

  lemma ScopeKeepsLabels(lines: seq<string>, n: nat, s: Scan, c: Contract, t: Scan)
    requires n < |lines| && EntryLine(lines, n) && ScanEntry(s, n, At(lines, n), c) == Some(t)
    requires |TagsOf(At(lines, n))| == 1 && TagsOf(At(lines, n))[0].kind != TC
    requires Hierarchy(lines, n, s) && forall r :: r in All(s) ==> RecordLine(lines, r)
    ensures forall r :: r in All(t) ==> RecordLine(lines, r)
  {
    hide TagsOf, At, Label, NonZero, Joined, EntryLine, RecordLine, FgAt, FcAt, CkAt, ScanEntry;
    ScopeEffect(s, n, At(lines, n), c, t);
    if t.current.Some? {
      assert All(t) == All(s) + [t.current.value];
      NewRecordLine(lines, n, t.current.value);
    } else {
      assert All(t) == All(s);
    }
  }

  lemma NewRecordLine(lines: seq<string>, n: nat, r: BugRecord)
    requires n < |lines| && EntryLine(lines, n) && OneTag(lines, n, BG) && r.line == n
    requires r.bug == Label(TagsOf(At(lines, n))[0]) && NonZero(r.bug)
    requires r.checkpoint == Joined([FgAt(lines, n), FcAt(lines, n), CkAt(lines, n)])
    ensures RecordLine(lines, r)
  {
    hide TagsOf, At, Label, NonZero, EntryLine, FgAt, FcAt, CkAt, Joined;
  }

  lemma {:induction false} LabelsFromLines(lines: seq<string>, n: nat, c: Contract)
    requires n <= |lines| && After(lines, n, c).Some?
    ensures forall r :: r in All(After(lines, n, c).value) ==> RecordLine(lines, r)
    decreases n
  {
    hide TagsOf, FenceOpen, Inside, ListsExactly, CurrentIsOpen, Strip, RecordLine, HasBug, IsFence, ScanEntry, FgAt,
      FcAt, CkAt;
    if n > 0 {
      LabelsFromLines(lines, n - 1, c);
      ScannerTracks(lines, n - 1, c);
      HierarchyTracks(lines, n - 1, c);
      var s, t := After(lines, n - 1, c).value, After(lines, n, c).value;
      var text := At(lines, n - 1);
      var u := if s.firstBug.None? && HasBug(TagsOf(text)) then s.(firstBug := Some(n - 1)) else s;
      assert All(u) == All(s);
      if !IsFence(text) && !s.fence && text != DYNAMIC_BUGS && text != DYNAMIC_BUGS_END && u.inside {
        EntryKeepsLabels(lines, n - 1, u, c, t);
      } else {
        assert All(t) == All(s);
      }
    }
  }

  lemma RecordLabels(lines: seq<string>, c: Contract)
    requires DynamicRecords(Some(lines), c).Some?
    ensures forall r :: r in DynamicRecords(Some(lines), c).value ==> RecordLine(lines, r)
  {
    hide RecordLine, HasStaticTag, After;
    LabelsFromLines(lines, |lines|, c);
  }

  lemma {:induction false} InPairs(records: seq<BugRecord>, r: BugRecord, t: Test)
    requires r in records && t in r.tests
    ensures (r.bug, t) in Pairs(records)
    decreases |records|
  {
    var last := records[|records| - 1];
    var rest := records[..|records| - 1];
    assert records == rest + [last];
    PairsOfLast(rest, last);
    if r in rest {
      InPairs(rest, r, t);
    } else {
      var j :| 0 <= j < |r.tests| && r.tests[j] == t;
      assert Map(r.tests, (u: Test) => (r.bug, u))[j] == (r.bug, t);
    }
  }
}
