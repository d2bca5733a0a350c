/** Exactly which dynamic Bug documents are accepted, said about their lines (ucagent/checkers/toffee_report.py). */
module DynamicBugRules {
  import opened Text
  import opened Lists
  import opened Locations
  import opened DynamicBugs
  import opened DynamicBugLines

  // ---------------------------------------------------------------- the rules

  /** The container opens at line `i`. */
  predicate StartsAt(lines: seq<string>, i: nat)
  {
    i < |lines| && Visible(lines, i) && At(lines, i) == DYNAMIC_BUGS
  }

  predicate TagsBug(lines: seq<string>, i: nat)
  {
    i < |lines| && Visible(lines, i) && HasBug(TagsOf(At(lines, i)))
  }

  ghost predicate OnlyStart(lines: seq<string>, i: nat)
  {
    StartsAt(lines, i) && forall k: nat :: StartsAt(lines, k) ==> k == i
  }

  ghost predicate NoBugBefore(lines: seq<string>, i: nat)
  {
    forall k: nat :: TagsBug(lines, k) ==> i <= k
  }

  /** There is one container, and no Bug tag comes before it. */
  ghost predicate OneContainer(lines: seq<string>)
  {
    exists i: nat :: OnlyStart(lines, i) && NoBugBefore(lines, i)
  }

  /** Line `k` of the container opens a field of the analysis. */
  predicate Analyses(lines: seq<string>, c: Contract, k: nat)
  {
    k < |lines| && EntryLine(lines, k) && c.analysisField(At(lines, k))
  }

  /** Line `i` of the container is free of tags or a proper heading; a BG tag is a Bug label; and a test of the Bug at
      line `j` has a name and comes before the analysis of that Bug. */
  ghost predicate LineFits(lines: seq<string>, c: Contract, i: nat)
  {
    i < |lines| && EntryLine(lines, i) && TagsOf(At(lines, i)) != [] ==>
      var tag := TagsOf(At(lines, i))[0];
      && HeadingTitle(At(lines, i), tag, c).Some?
      && (tag.kind == BG ==> ParseBugLabel(Label(tag)).Some?)
      && (tag.kind == TC ==>
            forall j: nat :: Open(lines, j, i) ==>
              Strip(tag.value) != "" && forall k: nat :: j < k <= i ==> !Analyses(lines, c, k))
  }

  // ---------------------------------------------------------------- the scanner against the rules

  ghost predicate ContainersAre(lines: seq<string>, n: nat, s: Scan)
  {
    NoDup(s.containers) && forall i: nat :: i in s.containers <==> i < n && StartsAt(lines, i)
  }

  ghost predicate FirstBugIs(lines: seq<string>, n: nat, s: Scan)
  {
    match s.firstBug
    case None => forall k: nat :: k < n ==> !TagsBug(lines, k)
    case Some(f) => f < n && TagsBug(lines, f) && forall k: nat :: k < f ==> !TagsBug(lines, k)
  }

  ghost predicate AnalysisIs(lines: seq<string>, n: nat, s: Scan, c: Contract)
  {
    s.current.Some? ==> (s.analysis <==> exists k: nat :: s.current.value.line < k < n && Analyses(lines, c, k))
  }

  ghost predicate Follows(lines: seq<string>, n: nat, s: Scan, c: Contract)
  {
    ContainersAre(lines, n, s) && FirstBugIs(lines, n, s) && AnalysisIs(lines, n, s, c)
  }

  lemma ContainersStep(lines: seq<string>, n: nat, s: Scan, c: Contract, t: Scan)
    requires n < |lines| && s.fence == FenceOpen(lines, n) && ContainersAre(lines, n, s)
    requires ScanLine(s, n, At(lines, n), c) == Some(t)
    ensures ContainersAre(lines, n + 1, t)
  {
    hide FenceOpen, IsFence, HasBug, TagsOf, At, ScanEntry;
    EntryKeepsContainers(s, n, At(lines, n), c);
    EntryKeepsContainers(s.(firstBug := Some(n)), n, At(lines, n), c);
    if StartsAt(lines, n) {
      assert t.containers == s.containers + [n];
    } else {
      assert t.containers == s.containers;
    }
  }

  lemma EntryKeepsContainers(s: Scan, n: nat, text: string, c: Contract)
    ensures ScanEntry(s, n, text, c).Some? ==>
              ScanEntry(s, n, text, c).value.containers == s.containers && ScanEntry(s, n, text, c).value.firstBug == s.firstBug
  {
    hide TagsOf, HeadingTitle, Label, Joined, NonZero, ParseBugLabel, Strip, HasScope;
  }

  lemma FirstBugStep(lines: seq<string>, n: nat, s: Scan, c: Contract, t: Scan)
    requires n < |lines| && s.fence == FenceOpen(lines, n) && FirstBugIs(lines, n, s)
    requires ScanLine(s, n, At(lines, n), c) == Some(t)
    ensures FirstBugIs(lines, n + 1, t)
  {
    hide FenceOpen, IsFence, HasBug, TagsOf, At, ScanEntry;
    EntryKeepsContainers(s, n, At(lines, n), c);
    EntryKeepsContainers(s.(firstBug := Some(n)), n, At(lines, n), c);
    assert t.firstBug == if s.firstBug.None? && TagsBug(lines, n) then Some(n) else s.firstBug;
  }

  /** How a line with text of the container changes the current Bug and its analysis. */
  lemma EntryAnalysis(s: Scan, n: nat, text: string, c: Contract)
    ensures var r, field := ScanEntry(s, n, text, c), s.current.Some? && c.analysisField(text);
            r.Some? && r.value.current.Some? ==>
              if r.value.current.value.line == n && TagsOf(text) != [] && TagsOf(text)[0].kind == BG then !r.value.analysis
              else s.current.Some? && r.value.current.value.line == s.current.value.line
                   && (r.value.analysis <==> s.analysis || field)
  {
    hide TagsOf, HeadingTitle, Label, Joined, NonZero, ParseBugLabel, Strip;
    if TagsOf(text) != [] && HeadingTitle(text, TagsOf(text)[0], c).Some? {
      HeadScope(TagsOf(text));
      ScopeOfHeading(text, c);
    }
  }

  lemma HeadScope(tags: seq<Tag>)
    requires tags != []
    ensures tags[0].kind != TC ==> HasScope(tags)
  {
  }

  lemma ScopeOfHeading(text: string, c: Contract)
    requires TagsOf(text) != [] && HeadingTitle(text, TagsOf(text)[0], c).Some?
    ensures HasScope(TagsOf(text)) <==> TagsOf(text)[0].kind != TC
  {
    hide TagsOf, HeadingTitle;
    HeadingHasOneTag(text, TagsOf(text)[0], c);
  }

  /** The same for any line. */
  lemma LineAnalysis(lines: seq<string>, n: nat, s: Scan, c: Contract, t: Scan)
    requires n < |lines| && s.fence == FenceOpen(lines, n) && s.inside == Inside(lines, n)
    requires ScanLine(s, n, At(lines, n), c) == Some(t) && t.current.Some?
    ensures if s.current.Some? && t.current.value.line == s.current.value.line && s.current.value.line < n
            then t.analysis <==> s.analysis || Analyses(lines, c, n)
            else (t.current.value.line == n && !t.analysis) || (s.current.Some? && s.current.value.line >= n)
  {
    hide FenceOpen, Inside, IsFence, HasBug, TagsOf, At, ScanEntry;
    EntryAnalysis(s, n, At(lines, n), c);
    EntryAnalysis(s.(firstBug := Some(n)), n, At(lines, n), c);
  }

  lemma AnalysisStep(lines: seq<string>, n: nat, s: Scan, c: Contract, t: Scan)
    requires n < |lines| && s.fence == FenceOpen(lines, n) && s.inside == Inside(lines, n) && AnalysisIs(lines, n, s, c)
    requires CurrentIsOpen(lines, n, s)
    requires ScanLine(s, n, At(lines, n), c) == Some(t)
    ensures AnalysisIs(lines, n + 1, t, c)
  {
    hide FenceOpen, Inside, ScanLine, At, Analyses, CurrentIsOpen;
    if s.current.Some? { CurrentIsBefore(lines, n, s); }
    if t.current.Some? {
      LineAnalysis(lines, n, s, c, t);
      if t.current.value.line < n { OneMoreAnalysis(lines, c, t.current.value.line, n); }
    }
  }

  lemma OneMoreAnalysis(lines: seq<string>, c: Contract, j: nat, n: nat)
    requires j < n
    ensures (exists k: nat :: j < k < n + 1 && Analyses(lines, c, k)) <==>
            (exists k: nat :: j < k < n && Analyses(lines, c, k)) || Analyses(lines, c, n)
  {
    hide Analyses;
  }

  lemma CurrentIsBefore(lines: seq<string>, n: nat, s: Scan)
    requires CurrentIsOpen(lines, n, s) && s.current.Some?
    ensures s.current.value.line < n && Open(lines, s.current.value.line, n)
  {
    hide Open;
    assert Open(lines, s.current.value.line, n);
    OpenIsBefore(lines, s.current.value.line, n);
  }

  lemma OpenIsBefore(lines: seq<string>, j: nat, n: nat)
    requires Open(lines, j, n)
    ensures j < n
  {
  }

  /** When one line of the container is accepted. */
  lemma EntryIff(s: Scan, n: nat, text: string, c: Contract)
    ensures ScanEntry(s, n, text, c).Some? <==>
            (TagsOf(text) == [] ||
              var tag := TagsOf(text)[0];
              && HeadingTitle(text, tag, c).Some?
              && (tag.kind == BG ==> ParseBugLabel(Label(tag)).Some?)
              && (tag.kind == TC && s.current.Some? ==>
                    Strip(tag.value) != "" && !s.analysis && !c.analysisField(text)))
  {
    hide TagsOf, HeadingTitle, Label, Joined, NonZero, ParseBugLabel, Strip;
    if TagsOf(text) != [] && HeadingTitle(text, TagsOf(text)[0], c).Some? {
      ScopeOfHeading(text, c);
    }
  }

  /** The tests of the current Bug come before its analysis. */
  lemma BeforeAnalysisIff(lines: seq<string>, n: nat, s: Scan, c: Contract)
    requires n < |lines| && CurrentIsOpen(lines, n, s) && AnalysisIs(lines, n, s, c) && EntryLine(lines, n)
    ensures (forall j: nat :: Open(lines, j, n) ==> forall k: nat :: j < k <= n ==> !Analyses(lines, c, k)) <==>
            (s.current.Some? ==> !s.analysis && !c.analysisField(At(lines, n)))
  {
    hide Open, EntryLine, At;
    if s.current.Some? {
      var j := s.current.value.line;
      CurrentIsBefore(lines, n, s);
      assert Analyses(lines, c, n) <==> c.analysisField(At(lines, n));
    }
  }

  lemma NamedIff(lines: seq<string>, n: nat, s: Scan, named: bool)
    requires CurrentIsOpen(lines, n, s)
    ensures (forall j: nat :: Open(lines, j, n) ==> named) <==> (s.current.Some? ==> named)
  {
    hide Open;
    if s.current.Some? { CurrentIsBefore(lines, n, s); }
  }

  lemma LineIff(lines: seq<string>, n: nat, s: Scan, c: Contract)
    requires n < |lines| && Tracks(lines, n, s) && Follows(lines, n, s, c)
    ensures ScanLine(s, n, At(lines, n), c).Some? <==> LineFits(lines, c, n)
  {
    hide TagsOf, HeadingTitle, FenceOpen, Inside, Open, Label, ParseBugLabel, At, ScanEntry, IsFence, HasBug, ListsExactly,
      ContainersAre, FirstBugIs, AnalysisIs, CurrentIsOpen, Strip, Analyses;
    var u := if s.firstBug.None? && HasBug(TagsOf(At(lines, n))) then s.(firstBug := Some(n)) else s;
    if EntryLine(lines, n) {
      EntryIff(u, n, At(lines, n), c);
      BeforeAnalysisIff(lines, n, s, c);
      if TagsOf(At(lines, n)) != [] { NamedIff(lines, n, s, Strip(TagsOf(At(lines, n))[0].value) != ""); }
    }
  }

  lemma FollowsStep(lines: seq<string>, n: nat, s: Scan, c: Contract, t: Scan)
    requires n < |lines| && Tracks(lines, n, s) && Follows(lines, n, s, c) && ScanLine(s, n, At(lines, n), c) == Some(t)
    ensures Follows(lines, n + 1, t, c)
  {
    hide FenceOpen, Inside, ScanLine, ListsExactly, ContainersAre, FirstBugIs, AnalysisIs, CurrentIsOpen, At;
    ContainersStep(lines, n, s, c, t);
    FirstBugStep(lines, n, s, c, t);
    AnalysisStep(lines, n, s, c, t);
  }

  lemma FollowsStart(lines: seq<string>, c: Contract)
    ensures Follows(lines, 0, START, c)
  {
  }

  lemma {:induction false} ScanIff(lines: seq<string>, n: nat, c: Contract)
    requires n <= |lines|
    ensures After(lines, n, c).Some? <==> forall i: nat :: i < n ==> LineFits(lines, c, i)
    ensures After(lines, n, c).Some? ==> Follows(lines, n, After(lines, n, c).value, c)
    decreases n
  {
    hide ScanLine, Tracks, Strip, LineFits, Follows;
    if n == 0 {
      FollowsStart(lines, c);
    } else {
      ScanIff(lines, n - 1, c);
      if After(lines, n - 1, c).Some? {
        var s := After(lines, n - 1, c).value;
        ScannerTracks(lines, n - 1, c);
        LineIff(lines, n - 1, s, c);
        if After(lines, n, c).Some? { FollowsStep(lines, n - 1, s, c, After(lines, n, c).value); }
      }
    }
  }

  lemma OneItem(s: seq<nat>, i: nat)
    requires NoDup(s) && forall k: nat :: k in s <==> k == i
    ensures s == [i]
  {
    assert i in s && i in [i];
    NoDupFits(s, [i]);
  }

  lemma OnlyStartIff(lines: seq<string>, s: Scan, i: nat)
    requires ContainersAre(lines, |lines|, s)
    ensures OnlyStart(lines, i) <==> s.containers == [i]
  {
    hide StartsAt;
    StartsInside(lines);
    if OnlyStart(lines, i) { OneItem(s.containers, i); }
    assert s.containers == [i] ==> i in s.containers;
  }

  lemma NoBugBeforeIff(lines: seq<string>, s: Scan, i: nat)
    requires FirstBugIs(lines, |lines|, s)
    ensures NoBugBefore(lines, i) <==> !(s.firstBug.Some? && i > s.firstBug.value)
  {
    hide TagsBug;
    StartsInside(lines);
  }

  lemma ContainerIff(lines: seq<string>, s: Scan)
    requires ContainersAre(lines, |lines|, s) && FirstBugIs(lines, |lines|, s)
    ensures OneContainer(lines) <==>
            |s.containers| == 1 && !(s.firstBug.Some? && s.containers[0] > s.firstBug.value)
  {
    hide ContainersAre, FirstBugIs, OnlyStart, NoBugBefore;
    forall i: nat ensures (OnlyStart(lines, i) <==> s.containers == [i])
                          && (NoBugBefore(lines, i) <==> !(s.firstBug.Some? && i > s.firstBug.value)) {
      OnlyStartIff(lines, s, i);
      NoBugBeforeIff(lines, s, i);
    }
    if |s.containers| == 1 {
      assert s.containers == [s.containers[0]];
      assert OnlyStart(lines, s.containers[0]);
    }
  }

  lemma StartsInside(lines: seq<string>)
    ensures forall i: nat :: StartsAt(lines, i) ==> i < |lines|
    ensures forall i: nat :: TagsBug(lines, i) ==> i < |lines|
  {
  }

  /** Exactly which documents are accepted: no static Bug tag anywhere, one container with no Bug tag before it, and every
      line of the container in order. */
  lemma AcceptedIff(lines: seq<string>, c: Contract)
    ensures DynamicRecords(Some(lines), c).Some? <==>
            !HasStaticTag(lines) && OneContainer(lines) && forall i: nat :: i < |lines| ==> LineFits(lines, c, i)
  {
    hide HasStaticTag, OneContainer, LineFits, After, Close;
    ScanIff(lines, |lines|, c);
    if After(lines, |lines|, c).Some? { ContainerIff(lines, After(lines, |lines|, c).value); }
  }

  /** So a test that is listed has a name, and no field of the analysis of its Bug comes before it. */
  lemma TestsPrecedeAnalysis(lines: seq<string>, c: Contract, j: nat, i: nat)
    requires DynamicRecords(Some(lines), c).Some? && Belongs(lines, j, i)
    ensures i < |lines| && TagsOf(At(lines, i)) != [] && Strip(TagsOf(At(lines, i))[0].value) != ""
    ensures forall k: nat :: j < k <= i && k < |lines| && EntryLine(lines, k) ==> !c.analysisField(At(lines, k))
  {
    hide HasStaticTag, OneContainer, DynamicRecords, TagsOf, HeadingTitle, ParseBugLabel, Open, EntryLine, At, Strip;
    AcceptedIff(lines, c);
    assert LineFits(lines, c, i);
    forall k: nat | j < k <= i && k < |lines| && EntryLine(lines, k) ensures !c.analysisField(At(lines, k)) {
      assert !Analyses(lines, c, k);
    }
  }

  // ---------------------------------------------------------------- one record per line

  function LinesOf(records: seq<BugRecord>): (r: seq<nat>)
    ensures |r| == |records| && forall i :: 0 <= i < |r| ==> r[i] == records[i].line
  {
    Map(records, (r: BugRecord) => r.line)
  }

  lemma LinesSnoc(records: seq<BugRecord>, r: BugRecord)
    ensures LinesOf(records + [r]) == LinesOf(records) + [r.line]
  {
  }

  lemma EntryAddsLine(s: Scan, n: nat, text: string, c: Contract)
    ensures var r := ScanEntry(s, n, text, c);
            r.Some? ==> LinesOf(All(r.value)) == LinesOf(All(s)) || LinesOf(All(r.value)) == LinesOf(All(s)) + [n]
  {
    hide TagsOf, HeadingTitle, Label, Joined, NonZero, ParseBugLabel, Strip, HasScope, LinesOf;
    var r := ScanEntry(s, n, text, c);
    if TagsOf(text) != [] { HeadScope(TagsOf(text)); }
    if r.Some? && r.value.current.Some? {
      LinesSnoc(r.value.closed, r.value.current.value);
      if s.current.Some? { LinesSnoc(s.closed, s.current.value); }
    }
  }

  /** A line adds a record of its own or none. */
  lemma LineAddsLine(s: Scan, n: nat, text: string, c: Contract, t: Scan)
    requires ScanLine(s, n, text, c) == Some(t)
    ensures LinesOf(All(t)) == LinesOf(All(s)) || LinesOf(All(t)) == LinesOf(All(s)) + [n]
  {
    hide TagsOf, IsFence, HasBug, ScanEntry, LinesOf;
    var u := if s.firstBug.None? && HasBug(TagsOf(text)) then s.(firstBug := Some(n)) else s;
    assert All(u) == All(s);
    EntryAddsLine(u, n, text, c);
    hide All, Close;
    ClosingKeepsAll(u);
  }

  lemma ClosingKeepsAll(s: Scan)
    ensures All(Close(s).(inside := false)) == All(s)
    ensures All(s.(inside := true)) == All(s) && All(s.(fence := !s.fence)) == All(s)
    ensures forall containers :: All(s.(containers := containers, inside := true)) == All(s)
  {
  }

  lemma {:induction false} RecordsAscend(lines: seq<string>, n: nat, c: Contract)
    requires n <= |lines| && After(lines, n, c).Some?
    ensures var at := LinesOf(All(After(lines, n, c).value));
            (forall i :: 0 <= i < |at| ==> at[i] < n) && forall i, j :: 0 <= i < j < |at| ==> at[i] < at[j]
    decreases n
  {
    hide ScanLine, Strip, LinesOf, All;
    if n > 0 {
      RecordsAscend(lines, n - 1, c);
      LineAddsLine(After(lines, n - 1, c).value, n - 1, Strip(lines[n - 1]), c, After(lines, n, c).value);
    } else {
      NoRecordsYet();
    }
  }

  lemma NoRecordsYet()
    ensures LinesOf(All(START)) == []
  {
  }

  /** The records stand on different lines. */
  lemma OneRecordPerLine(lines: seq<string>, c: Contract, r: BugRecord, s: BugRecord)
    requires DynamicRecords(Some(lines), c).Some? && r.line == s.line
    requires r in DynamicRecords(Some(lines), c).value && s in DynamicRecords(Some(lines), c).value
    ensures r == s
  {
    hide After, HasStaticTag;
    var records := DynamicRecords(Some(lines), c).value;
    RecordsAscend(lines, |lines|, c);
    var i :| 0 <= i < |records| && records[i] == r;
    var j :| 0 <= j < |records| && records[j] == s;
    assert LinesOf(records)[i] == LinesOf(records)[j];
  }
}
