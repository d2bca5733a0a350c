/** A dynamic Bug document as it is laid out, and what the parsers of ucagent/checkers/toffee_report.py make of it. */
module DocumentWriter {
  import opened Text
  import opened Lists
  import opened DynamicBugs
  import opened DynamicBugLines
  import opened TestTags
  import opened Waveform
  import opened WaveformWriter
  import opened WaveformGate

  // ---------------------------------------------------------------- the document

  /** A Bug under its checkpoint: its tests, each to be followed by its reference, and the lines of its analysis. */
  datatype Item = Item(fg: string, fc: string, ck: string, bug: string, names: seq<string>, text: seq<string>)

  /** A document to be written: what stands between the marks and the tag of a heading, the title that is to be read
      there, and the central records. */
  datatype Sheet = Sheet(items: seq<Item>, visible: Tag -> string, title: Tag -> string, centrals: seq<Central>)

  function Heading(y: Sheet, tag: Tag): string
  {
    Marks(tag.kind) + y.visible(tag) + " <" + Label(tag) + ">"
  }

  function NormalTag(name: string): string
  {
    match NormalizeTestCaseTag("TC-" + name)
    case Some(tag) => tag
    case None => "TC-" + name
  }

  function CaseLines(y: Sheet, p: Protocol, names: seq<string>): seq<string>
  {
    if names == [] then []
    else
      var last := names[|names| - 1];
      CaseLines(y, p, names[..|names| - 1]) + [Heading(y, Tag(TC, last)), Reference(p, NormalTag(last))]
  }

  function Scopes(y: Sheet, item: Item): seq<string>
  {
    [Heading(y, Tag(FG, item.fg)), Heading(y, Tag(FC, item.fc)), Heading(y, Tag(CK, item.ck)),
     Heading(y, Tag(BG, item.bug))]
  }

  function ItemLines(y: Sheet, p: Protocol, item: Item): seq<string>
  {
    Scopes(y, item) + CaseLines(y, p, item.names) + item.text
  }

  function Body(y: Sheet, p: Protocol, items: seq<Item>): seq<string>
  {
    if items == [] then [] else Body(y, p, items[..|items| - 1]) + ItemLines(y, p, items[|items| - 1])
  }

  function Front(y: Sheet, p: Protocol): seq<string>
  {
    [DYNAMIC_BUGS] + Body(y, p, y.items) + [DYNAMIC_BUGS_END, EVIDENCE]
  }

  function Document(y: Sheet, p: Protocol): seq<string>
  {
    Front(y, p) + RenderedAll(y.centrals, p) + [EVIDENCE_END]
  }

  // ---------------------------------------------------------------- what is to be read

  function Checkpoint(item: Item): string
  {
    Joined([Some(Label(Tag(FG, item.fg))), Some(Label(Tag(FC, item.fc))), Some(Label(Tag(CK, item.ck)))])
  }

  /** The tests of which the first one stands at line `i`. */
  function TestsOf(y: Sheet, names: seq<string>, i: nat): (r: seq<Test>)
    ensures |r| == |names|
  {
    seq(|names|, k requires 0 <= k < |names| => Test(names[k], y.title(Tag(TC, names[k])), i + 2 * k))
  }

  /** The record of an item that starts at line `i`. */
  function RecordOf(y: Sheet, item: Item, i: nat): BugRecord
  {
    BugRecord(Label(Tag(BG, item.bug)), Checkpoint(item), i + 3, TestsOf(y, item.names, i + 4))
  }

  function RecordsOf(y: Sheet, p: Protocol, items: seq<Item>): seq<BugRecord>
  {
    if items == [] then []
    else
      var rest := items[..|items| - 1];
      RecordsOf(y, p, rest) + [RecordOf(y, items[|items| - 1], 1 + |Body(y, p, rest)|)]
  }

  function AssociationFor(pair: (string, Test)): Association
  {
    Association(pair.0, NormalTag(pair.1.name), pair.1.line, pair.1.line + 1)
  }

  function AssociationList(y: Sheet, p: Protocol): seq<Association>
  {
    Map(Pairs(RecordsOf(y, p, y.items)), AssociationFor)
  }

  // ---------------------------------------------------------------- when the lines are read as they are meant

  predicate Marker(text: string)
  {
    text == DYNAMIC_BUGS || text == DYNAMIC_BUGS_END || text == EVIDENCE || text == EVIDENCE_END
  }

  /** Neither a marker nor a line with a static Bug tag. */
  predicate Quiet(text: string)
  {
    !Marker(Strip(text)) && forall i :: 0 <= i < |TagsOf(text)| ==> !StaticTag(TagsOf(text)[i])
  }

  /** Neither a reference nor waveform data. */
  predicate Ordinary(text: string)
  {
    !Mentions(text) && !Misplaced(text)
  }

  predicate TextLine(text: string)
  {
    Quiet(text) && !IsFence(Strip(text)) && TagsOf(Strip(text)) == [] && Ordinary(Strip(text))
  }

  /** The contract reads the heading of the tag. */
  predicate Headed(y: Sheet, c: Contract, tag: Tag)
  {
    && ProperValue(tag.value) && '?' !in tag.value && !StaticTag(tag)
    && '<' !in y.visible(tag) && '>' !in y.visible(tag) && '?' !in y.visible(tag)
    && c.title(tag, y.visible(tag)) == Some(y.title(tag))
  }

  /** The two lines of a test are read as such. */
  predicate Cased(y: Sheet, c: Contract, p: Protocol, name: string)
  {
    && IsClean(name) && Headed(y, c, Tag(TC, name)) && !c.analysisField(Heading(y, Tag(TC, name)))
    && NormalizeTestCaseTag("TC-" + name).Some? && NormalizeTestCaseTag(NormalTag(name)).Some?
    && '<' !in p.anchor(NormalTag(name)) && '?' !in p.anchor(NormalTag(name))
    && !c.analysisField(Reference(p, NormalTag(name)))
  }

  predicate Itemized(y: Sheet, c: Contract, p: Protocol, item: Item)
  {
    && Headed(y, c, Tag(FG, item.fg)) && Headed(y, c, Tag(FC, item.fc)) && Headed(y, c, Tag(CK, item.ck))
    && Headed(y, c, Tag(BG, item.bug)) && NonZero(Label(Tag(BG, item.bug)))
    && (forall k :: 0 <= k < |item.names| ==> Cased(y, c, p, item.names[k]))
    && (forall k :: 0 <= k < |item.text| ==> TextLine(item.text[k]))
  }

  ghost predicate Recorded(r: Central, p: Protocol)
  {
    && Writable(r, p) && '<' !in p.anchor(r.test) && Quiet(r.heading) && Quiet(r.viewer)
    && forall k :: 0 <= k < |r.yaml| ==> Quiet(r.yaml[k])
  }

  /** The contract and the protocol read the lines of the document as they are meant. */
  ghost predicate Readable(y: Sheet, c: Contract, p: Protocol)
  {
    && (forall k :: 0 <= k < |y.items| ==> Itemized(y, c, p, y.items[k]))
    && (forall k :: 0 <= k < |y.centrals| ==> Recorded(y.centrals[k], p))
  }

  // ---------------------------------------------------------------- single lines

  /** No tag can start anywhere. */
  predicate NoTagStart(text: string)
  {
    forall i :: 0 <= i < |text| - 3 && text[i] == '<' ==> text[i + 3] != '-'
  }

  lemma {:induction false} NoTagsFrom(text: string, i: nat)
    requires i <= |text| && NoTagStart(text)
    ensures TagsFrom(text, i) == []
    decreases |text| - i
  {
    if i < |text| {
      NoTagsFrom(text, i + 1);
    }
  }

  lemma MarkerLines()
    ensures forall m :: Marker(m) ==> Strip(m) == m && TagsOf(m) == [] && !IsFence(m)
  {
    forall m | Marker(m) ensures Strip(m) == m && TagsOf(m) == [] && !IsFence(m) {
      CleanIsStripped(m);
      NoTagsFrom(m, 0);
    }
  }

  lemma MarkersEndIn()
    ensures forall m :: Marker(m) ==> m != "" && m[|m| - 1] == '>' && m[0] == '<' && m[1] in "/DW"
  {
  }

  lemma MarkersDiffer()
    ensures DYNAMIC_BUGS != DYNAMIC_BUGS_END && DYNAMIC_BUGS != EVIDENCE && DYNAMIC_BUGS != EVIDENCE_END
    ensures DYNAMIC_BUGS_END != EVIDENCE && DYNAMIC_BUGS_END != EVIDENCE_END && EVIDENCE != EVIDENCE_END
  {
    assert DYNAMIC_BUGS[1] == 'D' && DYNAMIC_BUGS_END[1] == '/' && EVIDENCE[1] == 'W' && EVIDENCE_END[1] == '/';
    assert DYNAMIC_BUGS_END[2] == 'D' && EVIDENCE_END[2] == 'W';
  }

  lemma OccursChar(text: string, part: string, i: nat, at: nat)
    requires OccursAt(text, part, i) && at < |part|
    ensures text[i + at] == part[at]
  {
    assert text[i..i + |part|][at] == text[i + at];
  }

  lemma Absent(text: string, part: string, at: nat)
    requires at < |part| && forall i :: 0 <= i <= |text| - |part| && text[i] == part[0] ==> text[i + at] != part[at]
    ensures Find(text, part) == -1
  {
    forall i ensures !OccursAt(text, part, i) {
      if OccursAt(text, part, i) {
        OccursChar(text, part, i, 0);
        OccursChar(text, part, i, at);
      }
    }
  }

  lemma AbsentChar(text: string, part: string, c: char)
    requires c !in text && c in part
    ensures Find(text, part) == -1
  {
    var at :| 0 <= at < |part| && part[at] == c;
    forall i ensures !OccursAt(text, part, i) {
      if OccursAt(text, part, i) {
        OccursChar(text, part, i, at);
      }
    }
  }

  lemma MarksStart(k: Kind)
    ensures Marks(k) != "" && '<' !in Marks(k) && '?' !in Marks(k) && Marks(k)[0] in "#-"
  {
  }

  /** The only angle bracket that opens is that of the tag. */
  lemma HeadingChars(y: Sheet, c: Contract, tag: Tag)
    requires Headed(y, c, tag)
    ensures var text := Heading(y, tag);
            && (forall i :: 0 <= i < |text| && text[i] == '<' ==> i < |text| - 2 && text[i + 1] != 'W')
            && '?' !in text && text[0] in "#-" && text[|text| - 1] == '>' && |text| >= 4
  {
    MarksStart(tag.kind);
    hide Marks;
    var text := Heading(y, tag);
    var front, kind := Marks(tag.kind) + y.visible(tag) + " ", KindText(tag.kind);
    assert text == front + "<" + kind + "-" + tag.value + ">";
    assert kind[0] != 'W' && |kind| == 2 && '<' !in kind && '?' !in kind;
    var p := |front|;
    assert text[p] == '<' && text[p + 1] == kind[0];
    forall i | 0 <= i < |text| && i != p ensures text[i] != '<' && text[i] != '?' {
      assert i < p ==> text[i] == front[i] && front[i] in front;
      assert p < i < p + 3 ==> text[i] == kind[i - p - 1];
      assert p + 4 <= i < |text| - 1 ==> text[i] == tag.value[i - p - 4];
    }
    assert text[0] == Marks(tag.kind)[0];
  }

  lemma HeadingHasItsTag(y: Sheet, c: Contract, tag: Tag)
    requires Headed(y, c, tag)
    ensures TagsOf(Heading(y, tag)) == [tag]
  {
    MarksStart(tag.kind);
    hide Label, TagAt, Marks;
    var front := Marks(tag.kind) + y.visible(tag) + " ";
    var text := Heading(y, tag);
    assert text == front + "<" + Label(tag) + ">";
    assert forall k :: 0 <= k < |front| ==> text[k] == front[k] && front[k] in front;
    NoTagsUntil(text, 0, |front|);
    TagAtEnd(front, tag);
    OneTagLeft(text, |front|, tag);
  }

  lemma HeadingReads(y: Sheet, c: Contract, tag: Tag)
    requires Headed(y, c, tag)
    ensures HeadingTitle(Heading(y, tag), tag, c) == Some(y.title(tag))
  {
    hide Label, Marks;
    var text, marks, suffix, visible := Heading(y, tag), Marks(tag.kind), " <" + Label(tag) + ">", y.visible(tag);
    assert text == marks + (visible + suffix);
    assert text == (marks + visible) + suffix;
    assert text[|text| - |suffix|..] == suffix;
    assert text[|marks|..|text| - |suffix|] == visible;
  }

  lemma MarkedLine(text: string)
    requires text != "" && text[0] in "#-" && text[|text| - 1] == '>'
    ensures Strip(text) == text && !Marker(text) && !IsFence(text)
  {
    assert IsClean(text);
    CleanIsStripped(text);
    hide Strip, IsSpace;
    MarkersEndIn();
  }

  lemma NoWaveform(text: string)
    requires text != "" && text[0] in "#-" && '?' !in text
    requires forall i :: 0 <= i < |text| && text[i] == '<' ==> i < |text| - 2 && text[i + 1] != 'W'
    ensures Ordinary(text)
  {
    hide Find;
    Absent(text, REFERENCE, 1);
    Absent(text, "<WAVEFORM-VIEWER>", 1);
    AbsentChar(text, "/surfer/?wave=", '?');
  }

  lemma HeadingStands(y: Sheet, c: Contract, tag: Tag)
    requires Headed(y, c, tag)
    ensures var text := Heading(y, tag); Strip(text) == text && !Marker(text) && !IsFence(text) && Ordinary(text)
  {
    hide Heading, Strip, Marker, IsFence, Ordinary, Headed;
    HeadingChars(y, c, tag);
    MarkedLine(Heading(y, tag));
    NoWaveform(Heading(y, tag));
  }

  lemma HeadingIsQuiet(y: Sheet, c: Contract, tag: Tag)
    requires Headed(y, c, tag)
    ensures Quiet(Heading(y, tag)) && Ordinary(Strip(Heading(y, tag)))
  {
    HeadingStands(y, c, tag);
    HeadingHasItsTag(y, c, tag);
    hide Heading, TagsOf, Strip, Marker, Ordinary;
  }

  const MIDDLE := " [WAVEFORM-EVIDENCE](#"

  lemma ReferenceChars(p: Protocol, test: string)
    requires '<' !in p.anchor(test) && '?' !in p.anchor(test)
    ensures var text := Reference(p, test);
            && |text| > 11 && text[0] == '<' && text[3] == 'V' && text[10] == 'R' && text[|text| - 1] == ')'
            && (forall i :: 0 < i < |text| ==> text[i] != '<') && '?' !in text
  {
    var text, id := Reference(p, test), p.anchor(test);
    assert text == REFERENCE + MIDDLE + (id + ")");
    assert |REFERENCE| == 14 && |MIDDLE| == 22;
    assert text[0] == REFERENCE[0] && text[3] == REFERENCE[3] && text[10] == REFERENCE[10];
    forall i | 0 <= i < |text| ensures (i > 0 ==> text[i] != '<') && text[i] != '?' {
      assert i < 14 ==> text[i] == REFERENCE[i];
      assert 14 <= i < 36 ==> text[i] == MIDDLE[i - 14];
      assert 36 <= i < |text| - 1 ==> text[i] == id[i - 36];
    }
  }

  lemma ReferenceFacts(p: Protocol, test: string)
    requires '<' !in p.anchor(test) && '?' !in p.anchor(test)
    ensures var text := Reference(p, test);
            && Strip(text) == text && TagsOf(text) == [] && !Marker(text) && !IsFence(text) && !Misplaced(text)
  {
    ReferenceChars(p, test);
    ReferenceMentions(p, test);
    hide Reference, Find, IsSpace, Mentions;
    var text := Reference(p, test);
    EndsAreClean(text);
    CleanIsStripped(text);
    NoTagsFrom(text, 0);
    Absent(text, "<WAVEFORM-VIEWER>", 10);
    AbsentChar(text, "/surfer/?wave=", '?');
    MarkersEndIn();
  }

  lemma EndsAreClean(text: string)
    requires text != "" && text[0] == '<' && text[|text| - 1] in ")>"
    ensures IsClean(text)
  {
  }

  lemma PlainIsQuiet(text: string)
    requires Strip(text) == text && TagsOf(text) == [] && !Marker(text)
    ensures Quiet(text)
  {
    hide Strip, TagsOf;
  }

  lemma AnchorChars(p: Protocol, test: string)
    requires '<' !in p.anchor(test)
    ensures var text := AnchorLine(p, test);
            && |text| >= 13 && text[0] == '<' && text[1] == 'a' && text[3] == 'i' && text[|text| - 1] == '>'
            && forall i :: 0 < i < |text| && i != |text| - 4 ==> text[i] != '<'
  {
    var text, id := AnchorLine(p, test), p.anchor(test);
    var n := |text|;
    assert text == ANCHOR_OPEN + id + ANCHOR_CLOSE;
    assert |ANCHOR_OPEN| == 7 && |ANCHOR_CLOSE| == 6;
    assert text[n - 1] == ANCHOR_CLOSE[5];
    forall i | 0 < i < n && i != n - 4 ensures text[i] != '<' {
      assert i < 7 ==> text[i] == ANCHOR_OPEN[i];
      assert 7 <= i < n - 6 ==> text[i] == id[i - 7];
      assert i >= n - 6 ==> text[i] == ANCHOR_CLOSE[i - (n - 6)];
    }
  }

  lemma AnchorIsQuiet(p: Protocol, test: string)
    requires '<' !in p.anchor(test)
    ensures Quiet(AnchorLine(p, test))
  {
    AnchorChars(p, test);
    hide IsSpace, AnchorLine, Strip, TagsOf, TagsFrom, Quiet, IsClean, Marker;
    var text := AnchorLine(p, test);
    EndsAreClean(text);
    CleanIsStripped(text);
    AnchorHasNoTag(text);
    AnchorIsNoMarker(text);
    PlainIsQuiet(text);
  }

  lemma AnchorIsNoMarker(text: string)
    requires |text| >= 13 && text[1] == 'a'
    ensures !Marker(text)
  {
    MarkersEndIn();
  }

  lemma AnchorHasNoTag(text: string)
    requires |text| >= 13 && text[3] == 'i' && text[|text| - 1] == '>'
    requires forall i :: 0 < i < |text| && i != |text| - 4 ==> text[i] != '<'
    ensures TagsOf(text) == []
  {
    NoTagsFrom(text, 0);
  }

  lemma FencesAreQuiet()
    ensures Quiet("```yaml") && Quiet("```")
  {
    CleanIsStripped("```yaml");
    CleanIsStripped("```");
    NoTagsFrom("```yaml", 0);
    NoTagsFrom("```", 0);
    hide Strip, TagsOf;
  }

  // ---------------------------------------------------------------- the scanner over the lines of an item

  /** The lines `part` stand from line `i` on. */
  predicate StandsAt(lines: seq<string>, i: nat, part: seq<string>)
  {
    i + |part| <= |lines| && lines[i..i + |part|] == part
  }

  lemma StandingLine(lines: seq<string>, i: nat, part: seq<string>, k: nat)
    requires StandsAt(lines, i, part) && k < |part|
    ensures lines[i + k] == part[k]
  {
    assert lines[i..i + |part|][k] == lines[i + k];
  }

  lemma StandsInParts(lines: seq<string>, i: nat, a: seq<string>, b: seq<string>)
    requires StandsAt(lines, i, a + b)
    ensures StandsAt(lines, i, a) && StandsAt(lines, i + |a|, b)
  {
    var part := a + b;
    assert (a + b)[..|a|] == a && (a + b)[|a|..] == b;
    SliceOfSlice(lines, i, i + |part|, 0, |a|);
    SliceOfSlice(lines, i, i + |part|, |a|, |part|);
  }

  lemma AfterIs(lines: seq<string>, n: nat, c: Contract, s: Scan, t: Scan)
    requires n < |lines| && After(lines, n, c) == Some(s) && Strip(lines[n]) == lines[n]
    requires ScanLine(s, n, lines[n], c) == Some(t)
    ensures After(lines, n + 1, c) == Some(t)
  {
    hide ScanLine, Strip;
  }

  /** The effect of a heading; an analysis field can only matter for a test. */
  lemma ScanHeading(y: Sheet, c: Contract, s: Scan, index: nat, tag: Tag)
    requires !s.fence && s.inside && Headed(y, c, tag) && (tag.kind == TC ==> !c.analysisField(Heading(y, tag)))
    requires tag.kind != TC ==> s.current.None?
    ensures var t := if s.firstBug.None? && tag.kind == BG then s.(firstBug := Some(index)) else s;
            ScanLine(s, index, Heading(y, tag), c) == Apply(t, index, tag, y.title(tag))
  {
    HeadingStands(y, c, tag);
    HeadingHasItsTag(y, c, tag);
    HeadingReads(y, c, tag);
    hide Heading, TagsOf, HeadingTitle, Apply, IsFence, Headed, Ordinary, Strip;
    var text := Heading(y, tag);
    assert TagsOf(text)[0] == tag;
    assert HasBug(TagsOf(text)) <==> tag.kind == BG;
    assert HasScope(TagsOf(text)) <==> tag.kind != TC;
  }

  /** The first heading of an item closes the Bug before it. */
  lemma ScanFirstHeading(y: Sheet, c: Contract, s: Scan, index: nat, tag: Tag)
    requires !s.fence && s.inside && Headed(y, c, tag) && tag.kind == FG
    ensures ScanLine(s, index, Heading(y, tag), c) == Apply(Close(s), index, tag, y.title(tag))
  {
    HeadingStands(y, c, tag);
    HeadingHasItsTag(y, c, tag);
    HeadingReads(y, c, tag);
    hide Heading, TagsOf, HeadingTitle, Apply, IsFence, Headed, Ordinary, Strip;
    var text := Heading(y, tag);
    assert TagsOf(text)[0] == tag;
    assert !HasBug(TagsOf(text)) && HasScope(TagsOf(text));
  }

  /** The scanner inside the container, with these records so far. */
  predicate Reading(s: Scan, records: seq<BugRecord>)
  {
    !s.fence && s.inside && s.containers == [0] && All(s) == records
  }

  /** The scanner behind the headings of an item that start at line `i`. */
  function AtBug(s: Scan, i: nat, item: Item): Scan
  {
    Close(s).(fg := Some(Label(Tag(FG, item.fg))), fc := Some(Label(Tag(FC, item.fc))), ck := Some(Label(Tag(CK, item.ck))),
              firstBug := if s.firstBug.Some? then s.firstBug else Some(i + 3),
              current := Some(BugRecord(Label(Tag(BG, item.bug)), Checkpoint(item), i + 3, [])), analysis := false)
  }

  /** The scanner with these tests under the current Bug. */
  function WithTests(s: Scan, tests: seq<Test>): Scan
    requires s.current.Some?
  {
    s.(current := Some(s.current.value.(tests := tests)))
  }

  /** The scanner behind the FG, FC and CK headings of an item. */
  function AtCheckpoint(s: Scan, item: Item): Scan
  {
    Close(s).(fg := Some(Label(Tag(FG, item.fg))), fc := Some(Label(Tag(FC, item.fc))), ck := Some(Label(Tag(CK, item.ck))))
  }

  lemma ScanFg(y: Sheet, c: Contract, lines: seq<string>, n: nat, s: Scan, tag: Tag)
    requires n < |lines| && After(lines, n, c) == Some(s) && !s.fence && s.inside
    requires Headed(y, c, tag) && tag.kind == FG && lines[n] == Heading(y, tag)
    ensures After(lines, n + 1, c) == Some(Close(s).(fg := Some(Label(tag)), fc := None, ck := None))
  {
    hide Heading, ScanLine, After, Label, Strip, Headed, Ordinary, IsFence, Marker;
    HeadingStands(y, c, tag);
    ScanFirstHeading(y, c, s, n, tag);
    AfterIs(lines, n, c, s, Close(s).(fg := Some(Label(tag)), fc := None, ck := None));
  }

  lemma ScanFcOrCk(y: Sheet, c: Contract, lines: seq<string>, n: nat, s: Scan, tag: Tag)
    requires n < |lines| && After(lines, n, c) == Some(s) && !s.fence && s.inside && s.current.None?
    requires Headed(y, c, tag) && (tag.kind == FC || tag.kind == CK) && lines[n] == Heading(y, tag)
    ensures After(lines, n + 1, c) ==
            Some(if tag.kind == FC then s.(fc := Some(Label(tag)), ck := None) else s.(ck := Some(Label(tag))))
  {
    hide Heading, ScanLine, After, Label, Strip, Headed, Ordinary, IsFence, Marker;
    HeadingStands(y, c, tag);
    ScanHeading(y, c, s, n, tag);
    AfterIs(lines, n, c, s, if tag.kind == FC then s.(fc := Some(Label(tag)), ck := None) else s.(ck := Some(Label(tag))));
  }

  lemma AtCheckpointFacts(s: Scan, item: Item)
    ensures var t := AtCheckpoint(s, item); t.current.None? && t.fence == s.fence && t.inside == s.inside
  {
    hide Label;
  }

  lemma ApplyBug(s: Scan, i: nat, item: Item, title: string)
    requires NonZero(Label(Tag(BG, item.bug)))
    ensures var t := AtCheckpoint(s, item);
            Apply(if t.firstBug.None? then t.(firstBug := Some(i + 3)) else t, i + 3, Tag(BG, item.bug), title) ==
            Some(AtBug(s, i, item))
  {
    hide Label, Joined;
  }

  lemma ScanBug(y: Sheet, c: Contract, lines: seq<string>, i: nat, s: Scan, item: Item)
    requires i + 3 < |lines| && After(lines, i + 3, c) == Some(AtCheckpoint(s, item)) && !s.fence && s.inside
    requires Headed(y, c, Tag(BG, item.bug)) && NonZero(Label(Tag(BG, item.bug)))
    requires lines[i + 3] == Heading(y, Tag(BG, item.bug))
    ensures After(lines, i + 4, c) == Some(AtBug(s, i, item))
  {
    hide Heading, ScanLine, After, Label, Strip, Headed, Ordinary, IsFence, Marker, Apply, AtBug, NonZero, AtCheckpoint;
    AtCheckpointFacts(s, item);
    ApplyBug(s, i, item, y.title(Tag(BG, item.bug)));
    HeadingStands(y, c, Tag(BG, item.bug));
    ScanHeading(y, c, AtCheckpoint(s, item), i + 3, Tag(BG, item.bug));
    AfterIs(lines, i + 3, c, AtCheckpoint(s, item), AtBug(s, i, item));
  }

  lemma ScopesStand(y: Sheet, lines: seq<string>, i: nat, item: Item)
    requires StandsAt(lines, i, Scopes(y, item))
    ensures i + 4 <= |lines| && lines[i] == Heading(y, Tag(FG, item.fg)) && lines[i + 1] == Heading(y, Tag(FC, item.fc))
    ensures lines[i + 2] == Heading(y, Tag(CK, item.ck)) && lines[i + 3] == Heading(y, Tag(BG, item.bug))
  {
    hide Heading, StandsAt;
    StandsFits(lines, i, Scopes(y, item));
    StandingLine(lines, i, Scopes(y, item), 0);
    StandingLine(lines, i, Scopes(y, item), 1);
    StandingLine(lines, i, Scopes(y, item), 2);
    StandingLine(lines, i, Scopes(y, item), 3);
  }

  lemma ScanScopes(y: Sheet, c: Contract, p: Protocol, lines: seq<string>, i: nat, s: Scan, item: Item)
    requires i <= |lines| && After(lines, i, c) == Some(s) && !s.fence && s.inside && Itemized(y, c, p, item)
    requires StandsAt(lines, i, Scopes(y, item))
    ensures i + 4 <= |lines| && After(lines, i + 4, c) == Some(AtBug(s, i, item))
  {
    hide Heading, StandsAt, ScanLine, After, AtBug, Label, Headed, Cased, TextLine, Scopes, NonZero;
    ScopesStand(y, lines, i, item);
    ScanFg(y, c, lines, i, s, Tag(FG, item.fg));
    var s1 := Close(s).(fg := Some(Label(Tag(FG, item.fg))), fc := None, ck := None);
    ScanFcOrCk(y, c, lines, i + 1, s1, Tag(FC, item.fc));
    var s2 := s1.(fc := Some(Label(Tag(FC, item.fc))), ck := None);
    ScanFcOrCk(y, c, lines, i + 2, s2, Tag(CK, item.ck));
    assert s2.(ck := Some(Label(Tag(CK, item.ck)))) == AtCheckpoint(s, item);
    ScanBug(y, c, lines, i, s, item);
  }

  lemma ScanTest(y: Sheet, c: Contract, p: Protocol, s: Scan, index: nat, name: string)
    requires !s.fence && s.inside && s.current.Some? && !s.analysis && Cased(y, c, p, name)
    ensures var tests := s.current.value.tests + [Test(name, y.title(Tag(TC, name)), index)];
            ScanLine(s, index, Heading(y, Tag(TC, name)), c) == Some(WithTests(s, tests))
  {
    hide ScanLine, Heading, Headed, Strip, IsSpace;
    CleanIsStripped(name);
    ScanHeading(y, c, s, index, Tag(TC, name));
  }

  lemma ScanReference(c: Contract, p: Protocol, s: Scan, index: nat, test: string)
    requires !s.fence && s.inside && '<' !in p.anchor(test) && '?' !in p.anchor(test)
    requires !c.analysisField(Reference(p, test))
    ensures ScanLine(s, index, Reference(p, test), c) == Some(s)
  {
    ReferenceFacts(p, test);
    hide Reference, TagsOf, IsFence, Strip, Misplaced;
    assert !HasBug(TagsOf(Reference(p, test)));
  }

  lemma {:induction false} CaseLineAt(y: Sheet, p: Protocol, names: seq<string>, k: nat)
    ensures |CaseLines(y, p, names)| == 2 * |names|
    ensures k < |names| ==> CaseLines(y, p, names)[2 * k] == Heading(y, Tag(TC, names[k]))
    ensures k < |names| ==> CaseLines(y, p, names)[2 * k + 1] == Reference(p, NormalTag(names[k]))
    decreases |names|
  {
    hide Heading, Reference, NormalTag;
    if names != [] {
      CaseLineAt(y, p, names[..|names| - 1], if k < |names| - 1 then k else 0);
    }
  }

  lemma OneTestMore(y: Sheet, names: seq<string>, i: nat)
    requires names != []
    ensures var some, last := names[..|names| - 1], names[|names| - 1];
            TestsOf(y, names, i) == TestsOf(y, some, i) + [Test(last, y.title(Tag(TC, last)), i + 2 * |some|)]
  {
  }

  /** The scanner over the tests of a Bug. */
  lemma {:induction false} ScanCases(y: Sheet, c: Contract, p: Protocol, lines: seq<string>, i: nat, s: Scan,
                                     names: seq<string>)
    requires i <= |lines| && After(lines, i, c) == Some(s) && !s.fence && s.inside && s.current.Some? && !s.analysis
    requires s.current.value.tests == [] && forall k :: 0 <= k < |names| ==> Cased(y, c, p, names[k])
    requires StandsAt(lines, i, CaseLines(y, p, names))
    ensures i + 2 * |names| <= |lines|
    ensures After(lines, i + 2 * |names|, c) == Some(WithTests(s, TestsOf(y, names, i)))
    decreases |names|
  {
    hide Heading, Reference, NormalTag, StandsAt, ScanLine, After, Strip, TestsOf, Cased;
    CaseLineAt(y, p, names, 0);
    StandsFits(lines, i, CaseLines(y, p, names));
    if names == [] {
      NoTests(y, i);
    } else {
      var some, last := names[..|names| - 1], names[|names| - 1];
      CaseLineAt(y, p, some, 0);
      var two := [Heading(y, Tag(TC, last)), Reference(p, NormalTag(last))];
      StandsInParts(lines, i, CaseLines(y, p, some), two);
      ScanCases(y, c, p, lines, i, s, some);
      var n := i + 2 * |some|;
      StandingLine(lines, n, two, 0);
      StandingLine(lines, n, two, 1);
      OneTestMore(y, names, i);
      ScanCase(y, c, p, lines, n, WithTests(s, TestsOf(y, some, i)), last);
    }
  }

  lemma StandsFits(lines: seq<string>, i: nat, part: seq<string>)
    requires StandsAt(lines, i, part)
    ensures i + |part| <= |lines|
  {
  }

  lemma NoTests(y: Sheet, i: nat)
    ensures TestsOf(y, [], i) == []
  {
  }

  lemma ScanCase(y: Sheet, c: Contract, p: Protocol, lines: seq<string>, n: nat, s: Scan, name: string)
    requires n + 2 <= |lines| && After(lines, n, c) == Some(s) && !s.fence && s.inside && s.current.Some? && !s.analysis
    requires Cased(y, c, p, name)
    requires lines[n] == Heading(y, Tag(TC, name)) && lines[n + 1] == Reference(p, NormalTag(name))
    ensures After(lines, n + 2, c) ==
            Some(WithTests(s, s.current.value.tests + [Test(name, y.title(Tag(TC, name)), n)]))
  {
    hide Heading, Reference, NormalTag, ScanLine, After, Strip, IsSpace, Headed, IsFence, Marker, Ordinary, TagsOf, Misplaced;
    var t := WithTests(s, s.current.value.tests + [Test(name, y.title(Tag(TC, name)), n)]);
    HeadingStands(y, c, Tag(TC, name));
    ScanTest(y, c, p, s, n, name);
    AfterIs(lines, n, c, s, t);
    ReferenceFacts(p, NormalTag(name));
    ScanReference(c, p, t, n + 1, NormalTag(name));
    AfterIs(lines, n + 1, c, t, t);
  }

  lemma ScanTextLine(c: Contract, s: Scan, index: nat, text: string)
    requires !s.fence && s.inside && TextLine(text)
    ensures var r := ScanLine(s, index, Strip(text), c); r.Some? && r.value.(analysis := s.analysis) == s
  {
    hide TagsOf, IsFence, Strip, Ordinary;
    assert !HasBug(TagsOf(Strip(text)));
  }

  /** Analysis text can only open the analysis fields. */
  lemma {:induction false} ScanText(c: Contract, lines: seq<string>, i: nat, s: Scan, text: seq<string>)
    requires i <= |lines| && After(lines, i, c) == Some(s) && !s.fence && s.inside
    requires StandsAt(lines, i, text) && forall k :: 0 <= k < |text| ==> TextLine(text[k])
    ensures i + |text| <= |lines| && After(lines, i + |text|, c).Some?
    ensures After(lines, i + |text|, c).value.(analysis := s.analysis) == s
    decreases |text|
  {
    hide ScanLine, Strip, TextLine, StandsAt;
    StandsFits(lines, i, text);
    if text != [] {
      var n := |text| - 1;
      assert text == text[..n] + [text[n]];
      StandsInParts(lines, i, text[..n], [text[n]]);
      ScanText(c, lines, i, s, text[..n]);
      StandingLine(lines, i, text, n);
      ScanTextLine(c, After(lines, i + n, c).value, i + n, text[n]);
    }
  }

  lemma AtBugFacts(s: Scan, i: nat, item: Item)
    ensures var t := AtBug(s, i, item);
            && t.fence == s.fence && t.inside == s.inside && t.containers == s.containers && !t.analysis
            && t.closed == All(s)
            && t.current == Some(BugRecord(Label(Tag(BG, item.bug)), Checkpoint(item), i + 3, []))
  {
    hide Label, Joined;
  }

  /** What the scanner has read behind an item. */
  lemma ItemIsRead(y: Sheet, p: Protocol, i: nat, s: Scan, records: seq<BugRecord>, item: Item, v: Scan)
    requires Reading(s, records)
    requires var u := WithTests(AtBug(s, i, item), TestsOf(y, item.names, i + 4)); v.(analysis := u.analysis) == u
    ensures Reading(v, records + [RecordOf(y, item, i)])
  {
    hide AtBug, TestsOf;
    AtBugFacts(s, i, item);
  }

  /** The scanner over one item. */
  lemma ScanItem(y: Sheet, c: Contract, p: Protocol, lines: seq<string>, i: nat, s: Scan, records: seq<BugRecord>, item: Item)
    requires i <= |lines| && After(lines, i, c) == Some(s) && Reading(s, records) && Itemized(y, c, p, item)
    requires StandsAt(lines, i, ItemLines(y, p, item))
    ensures i + |ItemLines(y, p, item)| <= |lines| && After(lines, i + |ItemLines(y, p, item)|, c).Some?
    ensures Reading(After(lines, i + |ItemLines(y, p, item)|, c).value, records + [RecordOf(y, item, i)])
  {
    hide StandsAt, ScanLine, After, Cased, TextLine, Headed, AtBug, CaseLines, Scopes, TestsOf, NonZero, ItemLines;
    ItemStands(y, p, lines, i, item);
    ScanScopes(y, c, p, lines, i, s, item);
    AtBugFacts(s, i, item);
    var t := AtBug(s, i, item);
    ScanCases(y, c, p, lines, i + 4, t, item.names);
    var u := WithTests(t, TestsOf(y, item.names, i + 4));
    var k := i + 4 + 2 * |item.names|;
    ScanText(c, lines, k, u, item.text);
    hide *;
    ItemIsRead(y, p, i, s, records, item, After(lines, k + |item.text|, c).value);
  }

  lemma FourScopes(y: Sheet, item: Item)
    ensures |Scopes(y, item)| == 4
  {
  }

  lemma BodySnoc(y: Sheet, p: Protocol, items: seq<Item>)
    requires items != []
    ensures Body(y, p, items) == Body(y, p, items[..|items| - 1]) + ItemLines(y, p, items[|items| - 1])
  {
  }

  /** The scanner over all items. */
  lemma {:induction false} ScanBody(y: Sheet, c: Contract, p: Protocol, lines: seq<string>, items: seq<Item>, s: Scan)
    requires forall k :: 0 <= k < |items| ==> Itemized(y, c, p, items[k])
    requires |lines| >= 1 && After(lines, 1, c) == Some(s) && Reading(s, [])
    requires StandsAt(lines, 1, Body(y, p, items))
    ensures 1 + |Body(y, p, items)| <= |lines| && After(lines, 1 + |Body(y, p, items)|, c).Some?
    ensures Reading(After(lines, 1 + |Body(y, p, items)|, c).value, RecordsOf(y, p, items))
    decreases |items|
  {
    hide StandsAt, ItemLines, After, Itemized, RecordOf, Reading;
    StandsFits(lines, 1, Body(y, p, items));
    if items != [] {
      var rest, last := items[..|items| - 1], items[|items| - 1];
      BodySnoc(y, p, items);
      StandsInParts(lines, 1, Body(y, p, rest), ItemLines(y, p, last));
      ScanBody(y, c, p, lines, rest, s);
      var n := 1 + |Body(y, p, rest)|;
      ScanItem(y, c, p, lines, n, After(lines, n, c).value, RecordsOf(y, p, rest), last);
    }
  }

  // ---------------------------------------------------------------- where the lines stand

  /** The line of the end marker of the Bugs. */
  function End(y: Sheet, p: Protocol): nat
  {
    1 + |Body(y, p, y.items)|
  }

  /** The line of the end marker of the evidence. */
  function Last(y: Sheet, p: Protocol): nat
  {
    End(y, p) + 2 + |RenderedAll(y.centrals, p)|
  }

  lemma Shape(y: Sheet, p: Protocol)
    ensures var lines := Document(y, p);
            && |lines| == Last(y, p) + 1 && StandsAt(lines, 1, Body(y, p, y.items))
            && StandsAt(lines, End(y, p) + 2, RenderedAll(y.centrals, p))
            && lines[0] == DYNAMIC_BUGS && lines[End(y, p)] == DYNAMIC_BUGS_END
            && lines[End(y, p) + 1] == EVIDENCE && lines[Last(y, p)] == EVIDENCE_END
  {
    hide Body, RenderedAll;
    var body, rendered := Body(y, p, y.items), RenderedAll(y.centrals, p);
    Middle([DYNAMIC_BUGS], body, [DYNAMIC_BUGS_END, EVIDENCE] + rendered + [EVIDENCE_END]);
    Middle([DYNAMIC_BUGS] + body + [DYNAMIC_BUGS_END, EVIDENCE], rendered, [EVIDENCE_END]);
    assert Document(y, p) == [DYNAMIC_BUGS] + body + ([DYNAMIC_BUGS_END, EVIDENCE] + rendered + [EVIDENCE_END]);
    assert Document(y, p) == ([DYNAMIC_BUGS] + body + [DYNAMIC_BUGS_END, EVIDENCE]) + rendered + [EVIDENCE_END];
  }

  lemma {:induction false} CasesAreQuiet(y: Sheet, c: Contract, p: Protocol, names: seq<string>)
    requires forall k :: 0 <= k < |names| ==> Cased(y, c, p, names[k])
    ensures forall x :: x in CaseLines(y, p, names) ==> Quiet(x)
    decreases |names|
  {
    hide Heading, Reference, NormalTag, Quiet, Headed;
    if names != [] {
      var some, last := names[..|names| - 1], names[|names| - 1];
      CasesAreQuiet(y, c, p, some);
      HeadingIsQuiet(y, c, Tag(TC, last));
      ReferenceIsQuiet(p, NormalTag(last));
    }
  }

  lemma ReferenceIsQuiet(p: Protocol, test: string)
    requires '<' !in p.anchor(test) && '?' !in p.anchor(test)
    ensures Quiet(Reference(p, test))
  {
    hide Reference, Strip, TagsOf, Marker, IsFence, Misplaced;
    ReferenceFacts(p, test);
    PlainIsQuiet(Reference(p, test));
  }

  lemma ScopesAreQuiet(y: Sheet, c: Contract, p: Protocol, item: Item)
    requires Itemized(y, c, p, item)
    ensures forall x :: x in Scopes(y, item) ==> Quiet(x) && Ordinary(Strip(x))
  {
    hide Heading, Quiet, Headed, Ordinary, Strip, Cased, TextLine;
    HeadingIsQuiet(y, c, Tag(FG, item.fg));
    HeadingIsQuiet(y, c, Tag(FC, item.fc));
    HeadingIsQuiet(y, c, Tag(CK, item.ck));
    HeadingIsQuiet(y, c, Tag(BG, item.bug));
  }

  lemma TextIsQuiet(text: seq<string>)
    requires forall k :: 0 <= k < |text| ==> TextLine(text[k])
    ensures forall x :: x in text ==> Quiet(x)
  {
    hide Quiet, Strip, TagsOf, Ordinary;
  }

  lemma ItemIsQuiet(y: Sheet, c: Contract, p: Protocol, item: Item)
    requires Itemized(y, c, p, item)
    ensures forall x :: x in ItemLines(y, p, item) ==> Quiet(x)
  {
    hide Scopes, CaseLines, Quiet, Headed, Cased, TextLine, NonZero, Ordinary;
    ScopesAreQuiet(y, c, p, item);
    CasesAreQuiet(y, c, p, item.names);
    TextIsQuiet(item.text);
  }

  lemma {:induction false} BodyIsQuiet(y: Sheet, c: Contract, p: Protocol, items: seq<Item>)
    requires forall k :: 0 <= k < |items| ==> Itemized(y, c, p, items[k])
    ensures forall x :: x in Body(y, p, items) ==> Quiet(x)
    decreases |items|
  {
    hide Quiet, Itemized, ItemLines;
    if items != [] {
      BodyIsQuiet(y, c, p, items[..|items| - 1]);
      ItemIsQuiet(y, c, p, items[|items| - 1]);
    }
  }

  lemma CentralIsQuiet(r: Central, p: Protocol)
    requires Recorded(r, p)
    ensures forall x :: x in Rendered(r, p) ==> Quiet(x)
  {
    hide Quiet, Writable, AnchorLine;
    AnchorIsQuiet(p, r.test);
    FencesAreQuiet();
  }

  lemma {:induction false} RenderedIsQuiet(rs: seq<Central>, p: Protocol)
    requires forall k :: 0 <= k < |rs| ==> Recorded(rs[k], p)
    ensures forall x :: x in RenderedAll(rs, p) ==> Quiet(x)
    decreases |rs|
  {
    hide Quiet, Recorded, Rendered;
    if rs != [] {
      CentralIsQuiet(rs[0], p);
      RenderedIsQuiet(rs[1..], p);
    }
  }

  lemma MarkerHasNoTags(m: string)
    requires Marker(m)
    ensures Strip(m) == m && TagsOf(m) == []
  {
    MarkerLines();
  }

  predicate IsMarkerLine(y: Sheet, p: Protocol, k: nat)
  {
    k == 0 || k == End(y, p) || k == End(y, p) + 1 || k == Last(y, p)
  }

  /** All lines but the four markers are quiet. */
  lemma OtherLines(y: Sheet, c: Contract, p: Protocol, k: nat)
    requires Readable(y, c, p) && k < |Document(y, p)| && !IsMarkerLine(y, p, k)
    ensures Quiet(Document(y, p)[k])
  {
    hide Document, Body, RenderedAll, Quiet, Itemized, Recorded, StandsAt;
    Shape(y, p);
    BodyIsQuiet(y, c, p, y.items);
    RenderedIsQuiet(y.centrals, p);
    if k < End(y, p) {
      StandingLine(Document(y, p), 1, Body(y, p, y.items), k - 1);
    } else {
      StandingLine(Document(y, p), End(y, p) + 2, RenderedAll(y.centrals, p), k - End(y, p) - 2);
    }
  }

  /** Every line by the marker it is, if any. */
  lemma LineFacts(y: Sheet, c: Contract, p: Protocol, k: nat)
    requires Readable(y, c, p) && k < |Document(y, p)|
    ensures var text := Document(y, p)[k];
            && (Marker(Strip(text)) <==> IsMarkerLine(y, p, k)) && (Marker(Strip(text)) ==> Strip(text) == text)
            && forall i :: 0 <= i < |TagsOf(text)| ==> !StaticTag(TagsOf(text)[i])
  {
    hide Document, Body, RenderedAll, Readable, TagsOf, Strip, End, Last, StandsAt, StaticTag;
    if IsMarkerLine(y, p, k) {
      Shape(y, p);
      MarkerHasNoTags(Document(y, p)[k]);
    } else {
      OtherLines(y, c, p, k);
    }
  }

  lemma DocumentMarkers(y: Sheet, c: Contract, p: Protocol)
    requires Readable(y, c, p)
    ensures var lines := Document(y, p);
            && Only(lines, DYNAMIC_BUGS) == Some(0) && Only(lines, DYNAMIC_BUGS_END) == Some(End(y, p))
            && Only(lines, EVIDENCE) == Some(End(y, p) + 1) && Only(lines, EVIDENCE_END) == Some(Last(y, p))
  {
    Shape(y, p);
    hide Document, Body, RenderedAll, Readable, TagsOf, Strip, Only, StandsAt, StaticTag;
    var lines := Document(y, p);
    forall k: nat | k < |lines|
      ensures (Marker(Strip(lines[k])) <==> IsMarkerLine(y, p, k)) && (Marker(Strip(lines[k])) ==> Strip(lines[k]) == lines[k]) {
      LineFacts(y, c, p, k);
    }
    MarkersDiffer();
    OnlyIs(lines, DYNAMIC_BUGS, 0);
    OnlyIs(lines, DYNAMIC_BUGS_END, End(y, p));
    OnlyIs(lines, EVIDENCE, End(y, p) + 1);
    OnlyIs(lines, EVIDENCE_END, Last(y, p));
  }

  // ---------------------------------------------------------------- the records

  const OPENED := START.(containers := [0], inside := true)

  lemma ScanStart()
    ensures forall c :: ScanLine(START, 0, DYNAMIC_BUGS, c) == Some(OPENED)
  {
    MarkerLines();
    hide TagsOf;
    assert Marker(DYNAMIC_BUGS);
    assert [] + [0] == [0];
    assert !HasBug(TagsOf(DYNAMIC_BUGS));
  }

  lemma ScanEnd(s: Scan, index: nat, c: Contract)
    requires !s.fence
    ensures ScanLine(s, index, DYNAMIC_BUGS_END, c) == Some(Close(s).(inside := false))
  {
    MarkerLines();
    MarkersDiffer();
    hide TagsOf;
    assert Marker(DYNAMIC_BUGS_END);
    assert !HasBug(TagsOf(DYNAMIC_BUGS_END));
  }

  /** The scanner behind the container: only fences and the first Bug tag still matter. */
  predicate Outside(s: Scan, records: seq<BugRecord>)
  {
    !s.inside && s.containers == [0] && s.current.None? && s.closed == records
  }

  lemma ScanOutside(s: Scan, records: seq<BugRecord>, index: nat, text: string, c: Contract)
    requires Outside(s, records) && text != DYNAMIC_BUGS && text != DYNAMIC_BUGS_END
    ensures var r := ScanLine(s, index, text, c); r.Some? && Outside(r.value, records)
  {
    hide HasBug, TagsOf, IsFence;
  }

  lemma {:induction false} ScanRest(y: Sheet, c: Contract, p: Protocol, n: nat, records: seq<BugRecord>)
    requires Readable(y, c, p) && End(y, p) < n <= |Document(y, p)|
    requires After(Document(y, p), End(y, p) + 1, c).Some?
    requires Outside(After(Document(y, p), End(y, p) + 1, c).value, records)
    ensures After(Document(y, p), n, c).Some? && Outside(After(Document(y, p), n, c).value, records)
    decreases n
  {
    hide ScanLine, Strip, Document, Readable, End, Last, TagsOf, StaticTag, Outside;
    if n > End(y, p) + 1 {
      ScanRest(y, c, p, n - 1, records);
      RestIsNoMarker(y, c, p, n - 1);
      ScanOutside(After(Document(y, p), n - 1, c).value, records, n - 1, Strip(Document(y, p)[n - 1]), c);
    }
  }

  lemma RestIsNoMarker(y: Sheet, c: Contract, p: Protocol, k: nat)
    requires Readable(y, c, p) && End(y, p) < k < |Document(y, p)|
    ensures Strip(Document(y, p)[k]) != DYNAMIC_BUGS && Strip(Document(y, p)[k]) != DYNAMIC_BUGS_END
  {
    Shape(y, p);
    hide Strip, Document, Readable, TagsOf, StaticTag, Body, RenderedAll, StandsAt;
    LineFacts(y, c, p, k);
    MarkersDiffer();
  }

  lemma FrontIsScanned(y: Sheet, c: Contract, p: Protocol)
    requires Readable(y, c, p)
    ensures var n := End(y, p) + 1;
            && n <= |Document(y, p)| && After(Document(y, p), n, c).Some?
            && Outside(After(Document(y, p), n, c).value, RecordsOf(y, p, y.items))
  {
    hide Document, Body, RenderedAll, Itemized, Recorded, StandsAt, ScanLine, After, Strip, RecordsOf;
    Shape(y, p);
    var lines := Document(y, p);
    MarkerHasNoTags(DYNAMIC_BUGS);
    MarkerHasNoTags(DYNAMIC_BUGS_END);
    AtStart(lines, c);
    ScanStart();
    AfterIs(lines, 0, c, START, OPENED);
    ScanBody(y, c, p, lines, y.items, OPENED);
    var s := After(lines, End(y, p), c).value;
    ScanEnd(s, End(y, p), c);
    AfterIs(lines, End(y, p), c, s, Close(s).(inside := false));
  }

  lemma AtStart(lines: seq<string>, c: Contract)
    ensures After(lines, 0, c) == Some(START)
  {
  }

  /** The records are those of the items. */
  lemma DocumentRecords(y: Sheet, c: Contract, p: Protocol)
    requires Readable(y, c, p)
    ensures DynamicRecords(Some(Document(y, p)), c) == Some(RecordsOf(y, p, y.items))
  {
    Shape(y, p);
    hide Document, After, Readable, TagsOf, Strip, StaticTag, Body, RenderedAll, StandsAt, RecordsOf;
    var lines := Document(y, p);
    FrontIsScanned(y, c, p);
    ScanRest(y, c, p, |lines|, RecordsOf(y, p, y.items));
    forall k: nat | k < |lines| ensures forall i :: 0 <= i < |TagsOf(lines[k])| ==> !StaticTag(TagsOf(lines[k])[i]) {
      LineFacts(y, c, p, k);
    }
    assert !HasStaticTag(lines);
  }

  // ---------------------------------------------------------------- the references

  lemma CaseInPlace(y: Sheet, p: Protocol, lines: seq<string>, i: nat, names: seq<string>, k: nat)
    requires StandsAt(lines, i, CaseLines(y, p, names)) && k < |names|
    ensures i + 2 * k + 1 < i + 2 * |names| <= |lines|
    ensures lines[i + 2 * k] == Heading(y, Tag(TC, names[k])) && lines[i + 2 * k + 1] == Reference(p, NormalTag(names[k]))
  {
    hide StandsAt, Heading, Reference, NormalTag;
    CaseLineAt(y, p, names, k);
    StandsFits(lines, i, CaseLines(y, p, names));
    StandingLine(lines, i, CaseLines(y, p, names), 2 * k);
    StandingLine(lines, i, CaseLines(y, p, names), 2 * k + 1);
  }

  lemma ItemStands(y: Sheet, p: Protocol, lines: seq<string>, i: nat, item: Item)
    requires StandsAt(lines, i, ItemLines(y, p, item))
    ensures StandsAt(lines, i, Scopes(y, item)) && StandsAt(lines, i + 4, CaseLines(y, p, item.names))
    ensures StandsAt(lines, i + 4 + 2 * |item.names|, item.text)
    ensures |ItemLines(y, p, item)| == 4 + 2 * |item.names| + |item.text|
  {
    hide StandsAt, Scopes, CaseLines, ItemLines, Heading, Reference, NormalTag;
    PartsOfItem(y, p, item);
    StandsInParts(lines, i, Scopes(y, item) + CaseLines(y, p, item.names), item.text);
    StandsInParts(lines, i, Scopes(y, item), CaseLines(y, p, item.names));
    FourScopes(y, item);
    CountCases(y, p, item.names);
  }

  lemma PartsOfItem(y: Sheet, p: Protocol, item: Item)
    ensures ItemLines(y, p, item) == Scopes(y, item) + CaseLines(y, p, item.names) + item.text
  {
  }

  lemma CountCases(y: Sheet, p: Protocol, names: seq<string>)
    ensures |CaseLines(y, p, names)| == 2 * |names|
  {
    CaseLineAt(y, p, names, 0);
  }

  /** A listed test stands before the end marker, with its reference in the next line. */
  ghost predicate Referenced(y: Sheet, c: Contract, p: Protocol, lines: seq<string>, end: nat, t: Test)
  {
    && 1 <= t.line && t.line + 1 < end <= |lines| && lines[t.line + 1] == Reference(p, NormalTag(t.name))
    && Cased(y, c, p, t.name) && t.title == y.title(Tag(TC, t.name))
  }

  lemma {:induction false} TestsAreReferenced(y: Sheet, c: Contract, p: Protocol, lines: seq<string>, items: seq<Item>,
                                              r: BugRecord, t: Test)
    requires forall k :: 0 <= k < |items| ==> Itemized(y, c, p, items[k])
    requires StandsAt(lines, 1, Body(y, p, items))
    requires r in RecordsOf(y, p, items) && t in r.tests
    ensures Referenced(y, c, p, lines, 1 + |Body(y, p, items)|, t)
    decreases |items|
  {
    hide StandsAt, ItemLines, Itemized, RecordOf, CaseLines, Heading, Reference, NormalTag, Cased, Scopes;
    var rest, last := items[..|items| - 1], items[|items| - 1];
    BodySnoc(y, p, items);
    StandsInParts(lines, 1, Body(y, p, rest), ItemLines(y, p, last));
    var i := 1 + |Body(y, p, rest)|;
    StandsFits(lines, 1, Body(y, p, items));
    if r in RecordsOf(y, p, rest) {
      TestsAreReferenced(y, c, p, lines, rest, r, t);
    } else {
      ItemTest(y, c, p, lines, i, last, t);
    }
  }

  lemma ItemTest(y: Sheet, c: Contract, p: Protocol, lines: seq<string>, i: nat, item: Item, t: Test)
    requires i >= 1 && Itemized(y, c, p, item) && StandsAt(lines, i, ItemLines(y, p, item))
    requires t in RecordOf(y, item, i).tests
    ensures Referenced(y, c, p, lines, i + |ItemLines(y, p, item)|, t)
  {
    hide StandsAt, ItemLines, CaseLines, Heading, Reference, NormalTag, Cased, Scopes, Headed, TextLine, NonZero;
    var tests := TestsOf(y, item.names, i + 4);
    var k :| 0 <= k < |tests| && tests[k] == t;
    ItemStands(y, p, lines, i, item);
    StandsFits(lines, i, ItemLines(y, p, item));
    CaseInPlace(y, p, lines, i + 4, item.names, k);
  }

  /** The line behind some listed test. */
  ghost predicate IsReferred(records: seq<BugRecord>, k: nat)
  {
    exists r, t :: r in records && t in r.tests && t.line + 1 == k
  }

  /** A line of an item that mentions a reference is the one behind a test. */
  lemma ItemMentions(y: Sheet, c: Contract, p: Protocol, lines: seq<string>, i: nat, item: Item, k: nat)
    requires Itemized(y, c, p, item) && StandsAt(lines, i, ItemLines(y, p, item))
    requires i <= k < i + |ItemLines(y, p, item)|
    ensures k < |lines| && !Misplaced(Strip(lines[k]))
    ensures Mentions(Strip(lines[k])) ==> IsReferred([RecordOf(y, item, i)], k)
  {
    hide StandsAt, ItemLines, CaseLines, Heading, Reference, NormalTag, Cased, Scopes, Headed, TextLine, NonZero, Mentions,
      Misplaced, Strip, IsReferred, RecordOf;
    ItemStands(y, p, lines, i, item);
    StandsFits(lines, i, ItemLines(y, p, item));
    var n := i + 4 + 2 * |item.names|;
    if k < i + 4 {
      FourScopes(y, item);
      StandingLine(lines, i, Scopes(y, item), k - i);
      ScopesAreQuiet(y, c, p, item);
    } else if k < n {
      CaseMentions(y, c, p, lines, i, item, (k - i - 4) / 2, k);
    } else {
      StandingLine(lines, n, item.text, k - n);
      TextIsOrdinary(item.text[k - n]);
    }
  }

  lemma TextIsOrdinary(text: string)
    requires TextLine(text)
    ensures Ordinary(Strip(text))
  {
  }

  lemma CaseMentions(y: Sheet, c: Contract, p: Protocol, lines: seq<string>, i: nat, item: Item, m: nat, k: nat)
    requires m < |item.names| && Cased(y, c, p, item.names[m]) && StandsAt(lines, i + 4, CaseLines(y, p, item.names))
    requires k == i + 4 + 2 * m || k == i + 4 + 2 * m + 1
    ensures k < |lines| && !Misplaced(Strip(lines[k]))
    ensures Mentions(Strip(lines[k])) ==> IsReferred([RecordOf(y, item, i)], k)
  {
    hide StandsAt, CaseLines, Heading, Reference, NormalTag, Headed, Mentions, Misplaced, Strip, TagsOf, IsFence, Marker, IsClean;
    CaseInPlace(y, p, lines, i + 4, item.names, m);
    if k == i + 4 + 2 * m {
      HeadingIsQuiet(y, c, Tag(TC, item.names[m]));
    } else {
      ReferenceFacts(p, NormalTag(item.names[m]));
      var r := RecordOf(y, item, i);
      var t := TestsOf(y, item.names, i + 4)[m];
      assert r in [r] && t in r.tests && t.line + 1 == k;
    }
  }

  lemma ReferredInMore(some: seq<BugRecord>, all: seq<BugRecord>, k: nat)
    requires IsReferred(some, k) && forall r :: r in some ==> r in all
    ensures IsReferred(all, k)
  {
  }

  lemma {:induction false} BodyMentions(y: Sheet, c: Contract, p: Protocol, lines: seq<string>, items: seq<Item>, k: nat)
    requires forall j :: 0 <= j < |items| ==> Itemized(y, c, p, items[j])
    requires StandsAt(lines, 1, Body(y, p, items)) && 1 <= k < 1 + |Body(y, p, items)|
    ensures k < |lines| && !Misplaced(Strip(lines[k]))
    ensures Mentions(Strip(lines[k])) ==> IsReferred(RecordsOf(y, p, items), k)
    decreases |items|
  {
    hide StandsAt, ItemLines, Itemized, RecordOf, Mentions, Misplaced, Strip, IsReferred;
    var rest, last := items[..|items| - 1], items[|items| - 1];
    BodySnoc(y, p, items);
    StandsInParts(lines, 1, Body(y, p, rest), ItemLines(y, p, last));
    StandsFits(lines, 1, Body(y, p, items));
    var i := 1 + |Body(y, p, rest)|;
    var all := RecordsOf(y, p, items);
    if k < i {
      BodyMentions(y, c, p, lines, rest, k);
      if Mentions(Strip(lines[k])) { ReferredInMore(RecordsOf(y, p, rest), all, k); }
    } else {
      ItemMentions(y, c, p, lines, i, last, k);
      if Mentions(Strip(lines[k])) { ReferredInMore([RecordOf(y, last, i)], all, k); }
    }
  }

  lemma TextIsNext(lines: seq<string>, i: nat, end: nat)
    requires i < end <= |lines| && Strip(lines[i]) != ""
    ensures NextText(lines, i, end) == i
  {
    hide Strip;
  }

  lemma ReferenceIsText(p: Protocol, test: string)
    ensures Reference(p, test) != ""
  {
  }

  lemma PairIsAssociated(y: Sheet, c: Contract, p: Protocol, lines: seq<string>, end: nat, pair: (string, Test))
    requires Referenced(y, c, p, lines, end, pair.1)
    ensures AssociationOf(lines, end, pair, p) == Some(AssociationFor(pair))
  {
    hide Reference, Strip, TagsOf, Marker, IsFence, Misplaced, NormalizeTestCaseTag, Headed, NextText, IsClean;
    var t := pair.1;
    ReferenceFacts(p, NormalTag(t.name));
    ReferenceIsText(p, NormalTag(t.name));
    TextIsNext(lines, t.line + 1, end);
  }

  lemma PairIsReferenced(y: Sheet, c: Contract, p: Protocol, pair: (string, Test))
    requires Readable(y, c, p) && pair in Pairs(RecordsOf(y, p, y.items))
    ensures Referenced(y, c, p, Document(y, p), End(y, p), pair.1)
  {
    Shape(y, p);
    hide Document, Body, RenderedAll, StandsAt, RecordsOf, Pairs, Itemized, Recorded, Referenced;
    FromPairs(RecordsOf(y, p, y.items), pair);
    var r :| r in RecordsOf(y, p, y.items) && pair.1 in r.tests && r.bug == pair.0;
    TestsAreReferenced(y, c, p, Document(y, p), y.items, r, pair.1);
  }

  lemma DocumentAssociations(y: Sheet, c: Contract, p: Protocol)
    requires Readable(y, c, p) && NoDup(Map(AssociationList(y, p), BugAndTest))
    ensures End(y, p) < |Document(y, p)|
    ensures AssociationsIn(Document(y, p), End(y, p), Pairs(RecordsOf(y, p, y.items)), p) == Some(AssociationList(y, p))
  {
    Shape(y, p);
    hide Document, End, Readable, AssociationOf, AssociationsIn, Pairs, RecordsOf, AssociationFor, Referenced, BugAndTest;
    var lines, pairs, a := Document(y, p), Pairs(RecordsOf(y, p, y.items)), AssociationList(y, p);
    forall k | 0 <= k < |pairs| ensures AssociationOf(lines, End(y, p), pairs[k], p) == Some(a[k]) {
      PairIsReferenced(y, c, p, pairs[k]);
      PairIsAssociated(y, c, p, lines, End(y, p), pairs[k]);
    }
    AssociationsUnique(lines, End(y, p), pairs, p, a);
  }

  lemma ReferredIsReference(records: seq<BugRecord>, k: nat)
    requires IsReferred(records, k)
    ensures IsReference(Map(Pairs(records), AssociationFor), k)
  {
    hide Pairs;
    var r, t :| r in records && t in r.tests && t.line + 1 == k;
    InPairs(records, r, t);
    var j :| 0 <= j < |Pairs(records)| && Pairs(records)[j] == (r.bug, t);
    assert Map(Pairs(records), AssociationFor)[j].ref == k;
  }

  lemma DocumentIsPlaced(y: Sheet, c: Contract, p: Protocol)
    requires Readable(y, c, p)
    ensures End(y, p) <= |Document(y, p)| && Placed(Document(y, p), 0, End(y, p), AssociationList(y, p))
  {
    Shape(y, p);
    hide Document, Body, RenderedAll, StandsAt, RecordsOf, Pairs, Itemized, Recorded, Mentions, Misplaced, Strip, IsReferred,
      IsReference;
    forall k: nat | 0 < k < End(y, p)
      ensures (Mentions(Strip(Document(y, p)[k])) ==> IsReference(AssociationList(y, p), k))
              && !Misplaced(Strip(Document(y, p)[k])) {
      BodyMentions(y, c, p, Document(y, p), y.items, k);
      if IsReferred(RecordsOf(y, p, y.items), k) { ReferredIsReference(RecordsOf(y, p, y.items), k); }
    }
  }

  // ---------------------------------------------------------------- the whole document

  lemma DocumentEntries(y: Sheet, c: Contract, p: Protocol)
    requires Readable(y, c, p)
    ensures Last(y, p) < |Document(y, p)|
    ensures EntriesFrom(Document(y, p), End(y, p) + 2, Last(y, p), p) == Some(EntriesOf(y.centrals, End(y, p) + 2))
  {
    Shape(y, p);
    hide Body, RenderedAll, EntriesFrom, Writable, StandsAt, EntriesOf, Itemized, Quiet;
    WrittenRecordsAreRead(Front(y, p), y.centrals, [EVIDENCE_END], p);
  }

  /** The central records of the document as they are to be read. */
  function Entries(y: Sheet, p: Protocol): seq<Entry>
  {
    EntriesOf(y.centrals, End(y, p) + 2)
  }

  lemma NoOtherAssociations(y: Sheet, c: Contract, p: Protocol, a: seq<Association>)
    requires Readable(y, c, p) && End(y, p) <= |Document(y, p)|
    requires AssociationsOf(Document(y, p), End(y, p), Pairs(RecordsOf(y, p, y.items)), p, a)
    ensures a == AssociationList(y, p)
  {
    hide Document, End, Readable, AssociationOf, Pairs, RecordsOf, AssociationFor, Referenced, BugAndTest, NoDup;
    var pairs := Pairs(RecordsOf(y, p, y.items));
    forall k | 0 <= k < |pairs| ensures a[k] == AssociationFor(pairs[k]) {
      PairIsReferenced(y, c, p, pairs[k]);
      PairIsAssociated(y, c, p, Document(y, p), End(y, p), pairs[k]);
    }
  }

  /** When a Bug lists a test twice there are no associations. */
  lemma RepeatedAssociations(y: Sheet, c: Contract, p: Protocol)
    requires Readable(y, c, p) && !NoDup(Map(AssociationList(y, p), BugAndTest))
    ensures End(y, p) < |Document(y, p)|
    ensures AssociationsIn(Document(y, p), End(y, p), Pairs(RecordsOf(y, p, y.items)), p).None?
  {
    Shape(y, p);
    hide Document, End, Readable, AssociationOf, Pairs, RecordsOf, AssociationFor, BugAndTest, NoDup, AssociationList;
    forall a ensures !AssociationsOf(Document(y, p), End(y, p), Pairs(RecordsOf(y, p, y.items)), p, a) {
      if AssociationsOf(Document(y, p), End(y, p), Pairs(RecordsOf(y, p, y.items)), p, a) {
        NoOtherAssociations(y, c, p, a);
      }
    }
  }

  /** Reading back a whole document. Whatever contract and protocol read the single lines as they are meant, the parsers
      return the records of the items, and the central records if and only if no Bug lists a test twice, no test has two
      records, and each record repeats the title of its test and lists exactly the Bugs that reference it. */
  lemma DocumentIsRead(y: Sheet, c: Contract, p: Protocol)
    requires Readable(y, c, p)
    ensures var records, a := RecordsOf(y, p, y.items), AssociationList(y, p);
            && DynamicRecords(Some(Document(y, p)), c) == Some(records)
            && Blocks(Some(Document(y, p)), c, p) ==
               if NoDup(Map(a, BugAndTest)) && EntriesOk(Entries(y, p), a, Pairs(records))
               then Some(BlocksOf(Entries(y, p), a)) else None
  {
    hide DynamicRecords, Only, AssociationsIn, Placed, EntriesFrom, EntriesOk, BlocksOf, Readable, Document, EntriesOf, Body,
      RenderedAll, RecordsOf, AssociationList, OnlyAt, Pairs, BugAndTest, NoDup;
    DocumentMarkers(y, c, p);
    DocumentRecords(y, c, p);
    DocumentIsPlaced(y, c, p);
    DocumentEntries(y, c, p);
    if NoDup(Map(AssociationList(y, p), BugAndTest)) {
      DocumentAssociations(y, c, p);
    } else {
      RepeatedAssociations(y, c, p);
    }
  }
}
