/** Reading the Bug documents into the expected Bugs: the second half of `_load_expected_bugs`
    (ucagent/checkers/recorder.py), after marks, tag lines and static links are known. */
module ExpectedBugs {
  import opened Text
  import opened Lists
  import opened LineRanges
  import opened Locations
  import opened Records
  import opened RecordRuns
  import DocumentRanges

  /** A Bug tag of the document with the range of its entry. */
  datatype Occurrence = Occurrence(tag: string, range: Span)

  /** A confirmed static Bug: its alias, the range of its entry and the dynamic Bugs it links to. */
  datatype Link = Link(alias: string, range: Span, tags: seq<string>)

  datatype Building = Building(ck: seq<string>, confidence: real, alias: seq<string>, ranges: seq<Span>,
                               staticRanges: seq<Span>)

  /** The loop variables: the expected Bugs in order, the Bug of each upper-case label (None for a label of zero
      confidence), and how many ranges of each label are taken. */
  datatype Loading = Loading(names: seq<string>, bugs: map<string, Building>, byTag: map<string, Option<string>>,
                             taken: map<string, nat>)

  const NOTHING := Loading([], map[], map[], map[])

  /** What the documents are read into: marks (FG/FC/CK/BG paths), tag lines and links; `upper` is `str.upper`. */
  datatype Sources = Sources(document: string, staticDocument: string, marks: seq<seq<string>>,
                             occurrences: seq<Occurrence>, links: seq<Link>, upper: string -> string)

  /** The ranges of the entries with this label, in document order. */
  function RangesOf(occurrences: seq<Occurrence>, tag: string): (r: seq<Span>)
    ensures forall s :: s in r ==> Occurrence(tag, s) in occurrences
  {
    if occurrences == [] then []
    else
      var o := occurrences[|occurrences| - 1];
      RangesOf(occurrences[..|occurrences| - 1], tag) + (if o.tag == tag then [o.range] else [])
  }

  function CkPath(mark: seq<string>): string
    requires mark != []
  {
    JoinWith(mark[..|mark| - 1], '/')
  }

  function Taken(s: Loading, tag: string): nat
  {
    if tag in s.taken then s.taken[tag] else 0
  }

  /** One mark; None stands for every ValueError of the loop. */
  function AddMark(s: Loading, mark: seq<string>, src: Sources): Option<Loading>
    requires mark != []
  {
    var tag := mark[|mark| - 1];
    match ParseBugLabel(tag)
    case None => None
    case Some((name, confidence)) =>
      if confidence == 0.0 then Some(s.(byTag := s.byTag[src.upper(tag) := None]))
      else
        var ck, k := CkPath(mark), Taken(s, tag);
        var ranges := RangesOf(src.occurrences, tag);
        var bug := if name in s.bugs then s.bugs[name] else Building([], confidence, [], [], []);
        if |mark| < 4 || !Close(bug.confidence, confidence) || k >= |ranges| then None
        else
          Some(Loading(if name in s.bugs then s.names else s.names + [name],
                       s.bugs[name := bug.(ck := if ck in bug.ck then bug.ck else bug.ck + [ck],
                                           ranges := bug.ranges + [ranges[k]])],
                       s.byTag[src.upper(tag) := Some(name)],
                       s.taken[tag := k + 1]))
  }

  function AddMarks(src: Sources, n: nat): Option<Loading>
    requires n <= |src.marks| && forall m :: m in src.marks ==> m != []
  {
    if n == 0 then Some(NOTHING)
    else
      match AddMarks(src, n - 1)
      case None => None
      case Some(s) => assert src.marks[n - 1] in src.marks; AddMark(s, src.marks[n - 1], src)
  }

  /** One link to one dynamic Bug. */
  function AddTag(s: Loading, alias: string, range: Span, tag: string, upper: string -> string): Option<Loading>
  {
    if upper(tag) !in s.byTag then None
    else
      match s.byTag[upper(tag)]
      case None => Some(s)
      case Some(name) =>
        if name !in s.bugs then None
        else
          var bug := s.bugs[name];
          Some(s.(bugs := s.bugs[name := bug.(alias := if alias in bug.alias then bug.alias else bug.alias + [alias],
                                              staticRanges := bug.staticRanges + [range])]))
  }

  function AddTags(s: Loading, link: Link, n: nat, upper: string -> string): Option<Loading>
    requires n <= |link.tags|
  {
    if n == 0 then Some(s)
    else
      match AddTags(s, link, n - 1, upper)
      case None => None
      case Some(t) => AddTag(t, link.alias, link.range, link.tags[n - 1], upper)
  }

  function AddLinks(s: Loading, links: seq<Link>, n: nat, upper: string -> string): Option<Loading>
    requires n <= |links|
  {
    if n == 0 then Some(s)
    else
      match AddLinks(s, links, n - 1, upper)
      case None => None
      case Some(t) => AddTags(t, links[n - 1], |links[n - 1].tags|, upper)
  }

  function RefsOf(src: Sources, b: Building): seq<string>
  {
    (if b.staticRanges != [] then [Printed(src.staticDocument, b.staticRanges)] else [])
    + [Printed(src.document, b.ranges)]
  }

  function Finished(src: Sources, s: Loading): Document
  {
    Document(s.names, map n | n in s.bugs :: Expected(s.bugs[n].ck, s.bugs[n].confidence, s.bugs[n].alias, RefsOf(src, s.bugs[n])))
  }

  function Expectation(src: Sources): Option<Document>
    requires forall m :: m in src.marks ==> m != []
  {
    match AddMarks(src, |src.marks|)
    case None => None
    case Some(s) =>
      match AddLinks(s, src.links, |src.links|, src.upper)
      case None => None
      case Some(t) => Some(Finished(src, t))
  }

  // ---------------------------------------------------------------- the loops

  method LoadExpectedBugs(src: Sources) returns (doc: Option<Document>)
    requires forall m :: m in src.marks ==> m != []
    ensures doc == Expectation(src)
  {
    hide AddMark, AddTag, Finished;
    var s := NOTHING;
    for i := 0 to |src.marks|
      invariant AddMarks(src, i) == Some(s)
    {
      assert src.marks[i] in src.marks;
      var next := AddMark(s, src.marks[i], src);
      if next.None? {
        NoMarks(src, i + 1, |src.marks|);
        return None;
      }
      s := next.value;
    }
    ghost var marked := s;
    for i := 0 to |src.links|
      invariant AddLinks(marked, src.links, i, src.upper) == Some(s)
    {
      ghost var before := s;
      for j := 0 to |src.links[i].tags|
        invariant AddTags(before, src.links[i], j, src.upper) == Some(s)
      {
        var next := AddTag(s, src.links[i].alias, src.links[i].range, src.links[i].tags[j], src.upper);
        if next.None? {
          NoTags(before, src.links[i], j + 1, |src.links[i].tags|, src.upper);
          NoLinks(marked, src.links, i + 1, |src.links|, src.upper);
          return None;
        }
        s := next.value;
      }
    }
    doc := Some(Finished(src, s));
  }

  lemma {:induction false} NoMarks(src: Sources, n: nat, m: nat)
    requires n <= m <= |src.marks| && (forall x :: x in src.marks ==> x != []) && AddMarks(src, n).None?
    ensures AddMarks(src, m).None?
    decreases m
  {
    hide AddMark;
    if n < m {
      NoMarks(src, n, m - 1);
    }
  }

  lemma {:induction false} NoTags(s: Loading, link: Link, n: nat, m: nat, upper: string -> string)
    requires n <= m <= |link.tags| && AddTags(s, link, n, upper).None?
    ensures AddTags(s, link, m, upper).None?
    decreases m
  {
    hide AddTag;
    if n < m {
      NoTags(s, link, n, m - 1, upper);
    }
  }

  lemma {:induction false} NoLinks(s: Loading, links: seq<Link>, n: nat, m: nat, upper: string -> string)
    requires n <= m <= |links| && AddLinks(s, links, n, upper).None?
    ensures AddLinks(s, links, m, upper).None?
    decreases m
  {
    hide AddTags;
    if n < m {
      NoLinks(s, links, n, m - 1, upper);
    }
  }

  // ---------------------------------------------------------------- what the marks amount to

  function TagOfMark(mark: seq<string>): string
  {
    if mark == [] then "" else mark[|mark| - 1]
  }

  /** The Bug a mark speaks about; None for a label of zero confidence. */
  function BugOf(mark: seq<string>): Option<string>
  {
    match ParseBugLabel(TagOfMark(mark))
    case None => None
    case Some((name, confidence)) => if confidence == 0.0 then None else Some(name)
  }

  /** The Bugs of the marks, in order and with repetitions. */
  function NamesOf(marks: seq<seq<string>>): seq<string>
  {
    if marks == [] then []
    else
      NamesOf(marks[..|marks| - 1])
      + match BugOf(marks[|marks| - 1]) case None => [] case Some(name) => [name]
  }

  function PathsOf(marks: seq<seq<string>>, name: string): seq<string>
  {
    if marks == [] then []
    else
      var m := marks[|marks| - 1];
      PathsOf(marks[..|marks| - 1], name) + (if m != [] && BugOf(m) == Some(name) then [CkPath(m)] else [])
  }

  function CountTag(marks: seq<seq<string>>, tag: string): nat
  {
    if marks == [] then 0
    else CountTag(marks[..|marks| - 1], tag) + (if TagOfMark(marks[|marks| - 1]) == tag then 1 else 0)
  }

  /** The ranges of a Bug: each of its marks has the range of its own tag, the k-th mark with a label that of the
      k-th tag with that label. */
  function OwnRanges(occurrences: seq<Occurrence>, marks: seq<seq<string>>, name: string): Option<seq<Span>>
  {
    if marks == [] then Some([])
    else
      var m, before := marks[|marks| - 1], OwnRanges(occurrences, marks[..|marks| - 1], name);
      var k, ranges := CountTag(marks[..|marks| - 1], TagOfMark(m)), RangesOf(occurrences, TagOfMark(m));
      if BugOf(m) != Some(name) then before
      else if before.None? || k >= |ranges| then None
      else Some(before.value + [ranges[k]])
  }

  lemma {:induction false} TakenIsCount(src: Sources, n: nat, tag: string)
    requires n <= |src.marks| && (forall m :: m in src.marks ==> m != []) && AddMarks(src, n).Some?
    ensures BugOf([tag]).Some? ==> Taken(AddMarks(src, n).value, tag) == CountTag(src.marks[..n], tag)
    decreases n
  {
    hide AddMark, ParseBugLabel, Taken;
    if n > 0 {
      TakenIsCount(src, n - 1, tag);
      assert src.marks[..n][..n - 1] == src.marks[..n - 1];
      assert src.marks[n - 1] in src.marks;
      TakenStep(AddMarks(src, n - 1).value, src.marks[n - 1], src, tag);
    } else {
      assert src.marks[..0] == [] && Taken(NOTHING, tag) == 0 by { NoneTaken(tag); }
    }
  }

  lemma NoneTaken(tag: string)
    ensures Taken(NOTHING, tag) == 0
  {
  }

  lemma TakenStep(s: Loading, mark: seq<string>, src: Sources, tag: string)
    requires mark != [] && AddMark(s, mark, src).Some?
    ensures BugOf([tag]).Some? ==>
              Taken(AddMark(s, mark, src).value, tag) == Taken(s, tag) + (if TagOfMark(mark) == tag then 1 else 0)
  {
    hide ParseBugLabel, RangesOf, CkPath, Close;
  }

  /** The Bug is not expected yet, or is what the marks so far say. */
  ghost predicate BugMatches(src: Sources, marks: seq<seq<string>>, s: Loading, name: string)
  {
    var own := OwnRanges(src.occurrences, marks, name);
    && own.Some? && (name in s.bugs <==> name in NamesOf(marks))
    && (name !in s.bugs ==> own.value == [] && PathsOf(marks, name) == [])
    && (name in s.bugs ==>
          && s.bugs[name].ck == Unique(PathsOf(marks, name)) && s.bugs[name].ranges == own.value
          && s.bugs[name].alias == [] && s.bugs[name].staticRanges == [])
  }

  lemma MarkAppended(src: Sources, marks: seq<seq<string>>, mark: seq<string>, name: string)
    requires mark != []
    ensures PathsOf(marks + [mark], name) == PathsOf(marks, name) + (if BugOf(mark) == Some(name) then [CkPath(mark)] else [])
    ensures name in NamesOf(marks + [mark]) <==> name in NamesOf(marks) || BugOf(mark) == Some(name)
    ensures var own, next := OwnRanges(src.occurrences, marks, name), OwnRanges(src.occurrences, marks + [mark], name);
            var k, ranges := CountTag(marks, TagOfMark(mark)), RangesOf(src.occurrences, TagOfMark(mark));
            next == if BugOf(mark) != Some(name) then own
                    else if own.None? || k >= |ranges| then None else Some(own.value + [ranges[k]])
  {
    hide BugOf, CkPath, RangesOf, CountTag;
    assert (marks + [mark])[..|marks|] == marks;
  }

  lemma MarkMatches(src: Sources, marks: seq<seq<string>>, mark: seq<string>, s: Loading, t: Loading, name: string)
    requires mark != [] && AddMark(s, mark, src) == Some(t) && BugMatches(src, marks, s, name)
    requires BugOf(mark).Some? ==> Taken(s, TagOfMark(mark)) == CountTag(marks, TagOfMark(mark))
    ensures BugMatches(src, marks + [mark], t, name)
  {
    hide ParseBugLabel, RangesOf, CkPath, Close, Unique, OwnRanges, PathsOf, NamesOf, CountTag, Taken;
    MarkAppended(src, marks, mark, name);
    SeqAssoc(PathsOf(marks, name), [], []);
    if BugOf(mark) == Some(name) {
      UniqueSnoc(PathsOf(marks, name), CkPath(mark));
      UniqueOfNothing<string>();
      SeqAssoc<string>([CkPath(mark)], [], []);
    } else {
      OthersStay(s, mark, src, name);
    }
  }

  lemma OthersStay(s: Loading, mark: seq<string>, src: Sources, name: string)
    requires mark != [] && AddMark(s, mark, src).Some? && BugOf(mark) != Some(name)
    ensures var t := AddMark(s, mark, src).value;
            (name in t.bugs <==> name in s.bugs) && (name in s.bugs ==> t.bugs[name] == s.bugs[name])
  {
    hide ParseBugLabel, RangesOf, CkPath, Close, Taken;
  }

  lemma UniqueOfNothing<T(!new)>()
    ensures Unique<T>([]) == []
  {
  }

  /** The expected Bugs after the marks: in order of first mention, each with its checkpoints in order of first mention
      and with the ranges of its own tags. */
  lemma {:induction false} MarksAreExact(src: Sources, n: nat, name: string)
    requires n <= |src.marks| && (forall m :: m in src.marks ==> m != []) && AddMarks(src, n).Some?
    ensures var s := AddMarks(src, n).value;
            s.names == Unique(NamesOf(src.marks[..n])) && BugMatches(src, src.marks[..n], s, name)
    decreases n
  {
    hide ParseBugLabel, RangesOf, CkPath, Close, Unique, BugMatches, AddMark;
    if n == 0 {
      NoMarksYet(src, name);
    } else {
      var mark := src.marks[n - 1];
      assert mark in src.marks;
      MarksAreExact(src, n - 1, name);
      OneMore(src.marks, n - 1);
      TakenIsCount(src, n - 1, TagOfMark(mark));
      var s, t := AddMarks(src, n - 1).value, AddMarks(src, n).value;
      MarkMatches(src, src.marks[..n - 1], mark, s, t, name);
      if BugOf(mark).Some? {
        MarksAreExact(src, n - 1, BugOf(mark).value);
      }
      NamesStep(src, src.marks[..n - 1], mark, s, t);
    }
  }

  lemma NoMarksYet(src: Sources, name: string)
    ensures NOTHING.names == Unique(NamesOf(src.marks[..0])) && BugMatches(src, src.marks[..0], NOTHING, name)
  {
    assert src.marks[..0] == [];
  }

  lemma NamesStep(src: Sources, marks: seq<seq<string>>, mark: seq<string>, s: Loading, t: Loading)
    requires mark != [] && AddMark(s, mark, src) == Some(t) && s.names == Unique(NamesOf(marks))
    requires BugOf(mark).Some? ==> BugMatches(src, marks, s, BugOf(mark).value)
    ensures t.names == Unique(NamesOf(marks + [mark]))
  {
    hide ParseBugLabel, RangesOf, CkPath, Close, Unique;
    assert (marks + [mark])[..|marks|] == marks;
    SeqAssoc(NamesOf(marks), [], []);
    if BugOf(mark).Some? {
      UniqueSnoc(NamesOf(marks), BugOf(mark).value);
    }
  }

  // ---------------------------------------------------------------- what the recorder may rely on

  ghost predicate ProperDocument(document: string)
  {
    document != "" && !IsSpace(document[0]) && '\n' !in document
  }

  function EntryRangesOf(occurrences: seq<Occurrence>): seq<Span>
  {
    Map(occurrences, (o: Occurrence) => o.range)
  }

  /** The ranges of the Bug tags are the entry ranges of the lines of a document, as the entry scan finds them. */
  ghost predicate ScannedRanges(occurrences: seq<Occurrence>)
  {
    exists lines :: DocumentRanges.EntryRanges(lines, EntryRangesOf(occurrences))
  }

  /** What reading tags and lines guarantees: tag texts without white space and angle brackets, one entry range per Bug
      line, two different documents. */
  ghost predicate ReadSources(src: Sources)
  {
    && (forall m :: m in src.marks ==> m != [] && forall part :: part in m ==> TagText(part))
    && (forall l :: l in src.links ==> TagText(l.alias) && l.range.0 >= 1)
    && ScannedRanges(src.occurrences)
    && ProperDocument(src.document) && ProperDocument(src.staticDocument) && src.document != src.staticDocument
  }

  /** Tags stand on different lines, counted from one. */
  lemma OccurrencesInOrder(src: Sources)
    requires ReadSources(src)
    ensures forall o :: o in src.occurrences ==> o.range.0 >= 1
    ensures forall i, j :: 0 <= i < j < |src.occurrences| ==> src.occurrences[i].range.0 < src.occurrences[j].range.0
  {
    hide TagText, ProperDocument;
    var ranges := EntryRangesOf(src.occurrences);
    var lines :| DocumentRanges.EntryRanges(lines, ranges);
    var starts := DocumentRanges.Starts(ranges);
    forall i | 0 <= i < |src.occurrences| ensures src.occurrences[i].range.0 == starts[i] >= 1 {
      assert starts[i] in starts;
      assert DocumentRanges.BugAt(lines, starts[i]);
    }
  }

  /** A range that belongs to a tag of the Bug. */
  ghost predicate RangeOfBug(src: Sources, name: string, range: Span)
  {
    exists o :: o in src.occurrences && o.range == range && BugOf([o.tag]) == Some(name)
  }

  ghost predicate BuiltBug(src: Sources, name: string, b: Building)
  {
    && TagText(name) && Percentage(b.confidence)
    && (forall c :: c in b.ck ==> TagText(c)) && NoDup(b.ck) && b.ck != []
    && b.ranges != [] && (forall r :: r in b.ranges ==> RangeOfBug(src, name, r))
    && (forall a :: a in b.alias ==> TagText(a)) && NoDup(b.alias)
    && (forall r :: r in b.staticRanges ==> r.0 >= 1)
  }

  ghost predicate Built(src: Sources, s: Loading)
  {
    && NoDup(s.names) && (forall n :: n in s.names <==> n in s.bugs)
    && (forall n :: n in s.bugs ==> BuiltBug(src, n, s.bugs[n]))
  }

  lemma NameOfTag(tag: string)
    requires TagText(tag) && BugOf([tag]).Some?
    ensures TagText(BugOf([tag]).value)
  {
    TagReadsBack(tag);
    hide Strip, StripAngles, IsBlank, DigitsValue, LastIndexOf;
    var dash := LastIndexOf(tag, '-');
    assert BugOf([tag]).value == tag[3..dash];
    assert forall i :: 3 <= i < dash ==> tag[3..dash][i - 3] == tag[i];
  }

  lemma PercentOfTag(tag: string)
    requires ParseBugLabel(tag).Some?
    ensures Percentage(ParseBugLabel(tag).value.1)
  {
    hide Strip, StripAngles, IsBlank, DigitsValue, LastIndexOf;
    var raw := StripAngles(Strip(tag));
    assert IsPercent(ParseBugLabel(tag).value.1, DigitsValue(raw[LastIndexOf(raw, '-') + 1..]));
  }

  lemma {:induction false} JoinedTagText(parts: seq<string>)
    requires parts != [] && forall p :: p in parts ==> TagText(p)
    ensures TagText(JoinWith(parts, '/'))
    decreases |parts|
  {
    assert parts[0] in parts;
    if |parts| > 1 {
      assert forall p :: p in parts[1..] ==> p in parts;
      JoinedTagText(parts[1..]);
      var rest := JoinWith(parts[1..], '/');
      assert JoinWith(parts, '/') == parts[0] + ['/'] + rest;
    }
  }

  lemma AddMarkBuilds(s: Loading, mark: seq<string>, src: Sources)
    requires ReadSources(src) && mark in src.marks && Built(src, s) && AddMark(s, mark, src).Some?
    ensures Built(src, AddMark(s, mark, src).value)
  {
    hide ParseBugLabel, RangesOf, CkPath, Close, BuiltBug, ReadSources, Taken;
    MarkIsRead(src, mark);
    var t := AddMark(s, mark, src).value;
    if BugOf(mark).Some? {
      var name := BugOf(mark).value;
      MarkBuilds(s, mark, src);
      forall n | n in t.bugs ensures BuiltBug(src, n, t.bugs[n]) {
        if n != name { OthersStay(s, mark, src, n); }
      }
    }
  }

  lemma MarkIsRead(src: Sources, mark: seq<string>)
    requires ReadSources(src) && mark in src.marks
    ensures mark != [] && forall part :: part in mark ==> TagText(part)
  {
  }

  /** A Bug with one more checkpoint and one more range of its own. */
  lemma ExtendedBuilds(src: Sources, name: string, bug: Building, path: string, range: Span)
    requires TagText(name) && TagText(path) && Percentage(bug.confidence) && RangeOfBug(src, name, range)
    requires BuiltBug(src, name, bug) || (bug.ck == [] && bug.ranges == [] && bug.alias == [] && bug.staticRanges == [])
    ensures BuiltBug(src, name, bug.(ck := if path in bug.ck then bug.ck else bug.ck + [path], ranges := bug.ranges + [range]))
  {
    hide TagText, RangeOfBug, Percentage;
  }

  /** The Bug of a mark, after the mark. */
  lemma MarkBuilds(s: Loading, mark: seq<string>, src: Sources)
    requires mark != [] && (forall part :: part in mark ==> TagText(part)) && Built(src, s)
    requires AddMark(s, mark, src).Some? && BugOf(mark).Some?
    ensures var t, name := AddMark(s, mark, src).value, BugOf(mark).value;
            name in t.bugs && BuiltBug(src, name, t.bugs[name])
  {
    hide ParseBugLabel, RangesOf, CkPath, Close, TagText, RangeOfBug, Taken, Percentage, BuiltBug;
    var t, name, tag := AddMark(s, mark, src).value, BugOf(mark).value, TagOfMark(mark);
    assert tag in mark;
    NameOfTag(tag);
    PercentOfTag(tag);
    PathIsTagText(mark);
    var range := RangesOf(src.occurrences, tag)[Taken(s, tag)];
    RangeIsOfBug(src, tag, range);
    var bug := if name in s.bugs then s.bugs[name] else Building([], ParseBugLabel(tag).value.1, [], [], []);
    if name in s.bugs { BuiltPercentage(src, name, bug); }
    ExtendedBuilds(src, name, bug, CkPath(mark), range);
  }

  lemma BuiltPercentage(src: Sources, name: string, b: Building)
    requires BuiltBug(src, name, b)
    ensures Percentage(b.confidence)
  {
  }

  lemma PathIsTagText(mark: seq<string>)
    requires |mark| >= 4 && forall part :: part in mark ==> TagText(part)
    ensures TagText(CkPath(mark))
  {
    hide TagText;
    assert forall p :: p in mark[..|mark| - 1] ==> p in mark;
    JoinedTagText(mark[..|mark| - 1]);
  }

  lemma RangeIsOfBug(src: Sources, tag: string, range: Span)
    requires range in RangesOf(src.occurrences, tag) && BugOf([tag]).Some?
    ensures RangeOfBug(src, BugOf([tag]).value, range)
  {
    hide ParseBugLabel, RangesOf;
    var o := Occurrence(tag, range);
    assert o in src.occurrences;
  }

  lemma {:induction false} MarksBuild(src: Sources, n: nat)
    requires ReadSources(src) && n <= |src.marks| && AddMarks(src, n).Some?
    ensures Built(src, AddMarks(src, n).value)
    decreases n
  {
    hide AddMark, BuiltBug;
    if n > 0 {
      MarksBuild(src, n - 1);
      assert src.marks[n - 1] in src.marks;
      AddMarkBuilds(AddMarks(src, n - 1).value, src.marks[n - 1], src);
    }
  }

  lemma AddTagBuilds(src: Sources, s: Loading, link: Link, tag: string)
    requires Built(src, s) && TagText(link.alias) && link.range.0 >= 1
    requires AddTag(s, link.alias, link.range, tag, src.upper).Some?
    ensures Built(src, AddTag(s, link.alias, link.range, tag, src.upper).value)
  {
    hide TagText, RangeOfBug, Percentage;
    var t := AddTag(s, link.alias, link.range, tag, src.upper).value;
    if s.byTag[src.upper(tag)].Some? {
      var name := s.byTag[src.upper(tag)].value;
      assert BuiltBug(src, name, s.bugs[name]);
      assert BuiltBug(src, name, t.bugs[name]);
    }
  }

  lemma {:induction false} AddTagsBuilds(src: Sources, s: Loading, link: Link, n: nat)
    requires Built(src, s) && TagText(link.alias) && link.range.0 >= 1 && n <= |link.tags|
    requires AddTags(s, link, n, src.upper).Some?
    ensures Built(src, AddTags(s, link, n, src.upper).value)
    decreases n
  {
    hide AddTag, Built, TagText;
    if n > 0 {
      AddTagsBuilds(src, s, link, n - 1);
      AddTagBuilds(src, AddTags(s, link, n - 1, src.upper).value, link, link.tags[n - 1]);
    }
  }

  lemma {:induction false} AddLinksBuilds(src: Sources, s: Loading, n: nat)
    requires ReadSources(src) && Built(src, s) && n <= |src.links| && AddLinks(s, src.links, n, src.upper).Some?
    ensures Built(src, AddLinks(s, src.links, n, src.upper).value)
    decreases n
  {
    hide AddTags, Built, TagText;
    if n > 0 {
      AddLinksBuilds(src, s, n - 1);
      assert src.links[n - 1] in src.links;
      AddTagsBuilds(src, AddLinks(s, src.links, n - 1, src.upper).value, src.links[n - 1], |src.links[n - 1].tags|);
    }
  }

  /** Equal references are references to the same document, with the same ranges. */
  lemma SamePrinted(d: string, r: seq<Span>, e: string, q: seq<Span>)
    requires Referable(d, r) && Referable(e, q) && Printed(d, r) == Printed(e, q)
    ensures d == e && Unique(r) == Unique(q)
  {
    ReferenceRoundTripIff(d, r);
    ReferenceRoundTripIff(e, q);
    hide ParseLocation, Printed, Unique;
  }

  lemma PrintedIsCanonical(d: string, r: seq<Span>)
    requires Referable(d, r)
    ensures CanonicalRef(Printed(d, r))
  {
    ReferenceRoundTripIff(d, r);
    hide ParseLocation, Printed, Unique;
  }

  lemma BuiltReferable(src: Sources, name: string, b: Building)
    requires ReadSources(src) && BuiltBug(src, name, b)
    ensures Referable(src.document, b.ranges)
    ensures b.staticRanges != [] ==> Referable(src.staticDocument, b.staticRanges)
  {
    hide TagText, BugOf, ScannedRanges;
    OccurrencesInOrder(src);
    forall r | r in b.ranges ensures r.0 >= 1 {
      assert RangeOfBug(src, name, r);
    }
  }

  lemma RefsDiffer(src: Sources, name: string, b: Building)
    requires ReadSources(src) && BuiltBug(src, name, b) && b.staticRanges != []
    ensures Printed(src.document, b.ranges) != Printed(src.staticDocument, b.staticRanges)
  {
    hide TagText, RangeOfBug, Printed, CanonicalRef, Referable, ProperDocument;
    BuiltReferable(src, name, b);
    if Printed(src.document, b.ranges) == Printed(src.staticDocument, b.staticRanges) {
      SamePrinted(src.document, b.ranges, src.staticDocument, b.staticRanges);
    }
  }

  lemma BuiltIsLoaded(src: Sources, name: string, b: Building)
    requires ReadSources(src) && BuiltBug(src, name, b)
    ensures LoadedBug(Expected(b.ck, b.confidence, b.alias, RefsOf(src, b)))
  {
    hide TagText, RangeOfBug, Printed, CanonicalRef, Referable, ReadSources, Percentage;
    BuiltReferable(src, name, b);
    PrintedIsCanonical(src.document, b.ranges);
    if b.staticRanges != [] {
      PrintedIsCanonical(src.staticDocument, b.staticRanges);
      RefsDiffer(src, name, b);
    }
  }

  lemma OneTagPerLine(src: Sources, m: string, n: string, range: Span)
    requires ReadSources(src) && RangeOfBug(src, m, range) && RangeOfBug(src, n, range)
    ensures m == n
  {
    hide TagText, BugOf, ScannedRanges;
    OccurrencesInOrder(src);
    var o :| o in src.occurrences && o.range == range && BugOf([o.tag]) == Some(m);
    var p :| p in src.occurrences && p.range == range && BugOf([p.tag]) == Some(n);
    var i :| 0 <= i < |src.occurrences| && src.occurrences[i] == o;
    var j :| 0 <= j < |src.occurrences| && src.occurrences[j] == p;
    assert i == j;
  }

  /** Two Bugs with the same references are the same Bug: their own references name tags on the same line. */
  lemma RefsTellApart(src: Sources, m: string, b: Building, n: string, c: Building)
    requires ReadSources(src) && BuiltBug(src, m, b) && BuiltBug(src, n, c)
    requires SameMembers(RefsOf(src, b), RefsOf(src, c))
    ensures m == n
  {
    hide TagText, RangeOfBug, Printed, ReadSources, Referable, Percentage;
    BuiltReferable(src, m, b);
    BuiltReferable(src, n, c);
    var own := Printed(src.document, b.ranges);
    assert own in RefsOf(src, b) && own in RefsOf(src, c);
    if own == Printed(src.document, c.ranges) {
      SamePrinted(src.document, b.ranges, src.document, c.ranges);
      var r := b.ranges[0];
      assert r in b.ranges && r in Unique(b.ranges) && r in Unique(c.ranges) && r in c.ranges;
      OneTagPerLine(src, m, n, r);
    } else {
      SamePrinted(src.document, b.ranges, src.staticDocument, c.staticRanges);
      DifferentDocuments(src);
      assert false;
    }
  }

  lemma DifferentDocuments(src: Sources)
    requires ReadSources(src)
    ensures src.document != src.staticDocument
  {
  }

  /** Whatever is loaded satisfies what the recorder's guarantees rely on. */
  lemma ExpectationIsLoaded(src: Sources)
    requires ReadSources(src) && Expectation(src).Some?
    ensures Loaded(Expectation(src).value)
  {
    hide AddMarks, AddLinks, BuiltBug, LoadedBug, TagText, RefsOf, ReadSources;
    MarksNonEmpty(src);
    MarksBuild(src, |src.marks|);
    var s := AddMarks(src, |src.marks|).value;
    AddLinksBuilds(src, s, |src.links|);
    var t := AddLinks(s, src.links, |src.links|, src.upper).value;
    var doc := Finished(src, t);
    forall n | n in doc.bugs ensures TagText(n) && LoadedBug(doc.bugs[n]) {
      BuiltName(src, n, t.bugs[n]);
      BuiltIsLoaded(src, n, t.bugs[n]);
    }
    forall m, n | m in doc.bugs && n in doc.bugs && SameMembers(doc.bugs[m].refs, doc.bugs[n].refs) ensures m == n {
      RefsTellApart(src, m, t.bugs[m], n, t.bugs[n]);
    }
  }

  lemma MarksNonEmpty(src: Sources)
    requires ReadSources(src)
    ensures forall m :: m in src.marks ==> m != []
  {
  }

  lemma BuiltName(src: Sources, n: string, b: Building)
    requires BuiltBug(src, n, b)
    ensures TagText(n)
  {
  }
}
