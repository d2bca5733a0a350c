/** Two documents in the layout the tools write, and what the gates of ucagent/checkers/toffee_report.py make of them. */
module SheetExamples {
  import opened Text
  import opened Lists
  import opened Locations
  import opened ReportGate
  import opened DynamicBugs
  import opened DynamicBugLines
  import opened TestTags
  import opened Waveform
  import opened WaveformWriter
  import opened WaveformGate
  import opened DocumentedTests
  import opened DocumentWriter
  import opened TwoTests
  import opened RawTags

  // ---------------------------------------------------------------- headings, anchors and YAML blocks

  const TITLE := "x"

  /** What stands between marks and tag: the title, for a Bug with the confidence of its label. */
  function Visible(tag: Tag): string
  {
    if tag.kind == BG then TITLE + "\U{FF08}" + LastOf(tag.value, '-') + "%\U{FF09}" else TITLE
  }

  /** A contract that reads these headings, and takes any of the given lines for the start of an analysis field. */
  function ContractOf(fields: seq<string>): Contract
  {
    Contract((tag: Tag, text: string) => if text == Visible(tag) then Some(TITLE) else None, line => line in fields)
  }

  const RECORD_HEAD := "### x\U{6CE2}\U{5F62} <WAVEFORM-"

  /** The heading of a record with this title; the tag is read in its normal form. */
  function RecordHeading(line: string): Option<(string, string)>
  {
    if !(RECORD_HEAD <= line) || |line| <= |RECORD_HEAD| || line[|line| - 1] != '>' then None
    else
      match NormalizeTestCaseTag(line[|RECORD_HEAD|..|line| - 1])
      case None => None
      case Some(tag) => Some((tag, TITLE))
  }

  const TEST_KEY := "  test_case: "
  const BUG_KEY := "  bug: "
  const RECEIPT_KEY := "  receipt_id: "

  function Yaml(tag: string, bug: string, receipt: string): seq<string>
  {
    ["waveform_analysis:", TEST_KEY + tag, BUG_KEY + bug, RECEIPT_KEY + receipt]
  }

  /** The reading of such a block. */
  function YamlPayload(yaml: seq<string>): Option<Payload>
  {
    if |yaml| != 4 || !(TEST_KEY <= yaml[1]) || !(BUG_KEY <= yaml[2]) || !(RECEIPT_KEY <= yaml[3]) then None
    else
      var bug := yaml[2][|BUG_KEY|..];
      Some(Payload(Some(yaml[1][|TEST_KEY|..]), Some([bug]), Some({bug}), "confirmed", Some(yaml[3][|RECEIPT_KEY|..])))
  }

  const PROTOCOL := Protocol(tag => "waveform-" + NatText(|tag|), RecordHeading, YamlPayload, line => line == "viewer")

  /** Every receipt exists and analysed the test it is named after. */
  const TOOL := Some(Tool(id => Some(Receipt(id)), true))

  const EVERYTHING_AGREES := WaveformGate.Evidence(true, (block: Block, receipt: Receipt) => true)

  // ---------------------------------------------------------------- the documents

  /** A Bug of confidence 50 with one test. */
  function ItemOf(checkpoint: string, bug: string, name: string, text: seq<string>): Item
  {
    Item("F", "C", checkpoint, bug + "-" + NatText(50), [name], text)
  }

  function BugOf(bug: string): string
  {
    Label(Tag(BG, bug + "-" + NatText(50)))
  }

  /** The record of the test `name`, under a heading with the tag `written`. */
  function RecordFor(name: string, written: string, bug: string): Central
  {
    var tag := "TC-" + name;
    Central(tag, TITLE, RECORD_HEAD + written + ">", Yaml(tag, BugOf(bug), name),
            Payload(Some(tag), Some([BugOf(bug)]), Some({BugOf(bug)}), "confirmed", Some(name)), "viewer")
  }

  function SheetOf(items: seq<Item>, centrals: seq<Central>): Sheet
  {
    Sheet(items, Visible, tag => TITLE, centrals)
  }

  const LONG := "a.py::test_ab"
  const SHORT := "a.py::test_a"

  /** Two tests under two checkpoints; the name of the first extends that of the second. */
  function LongerFirst(text: seq<string>): Sheet
  {
    SheetOf([ItemOf("A", "X", LONG, text), ItemOf("B", "Y", SHORT, text)],
            [RecordFor(LONG, "TC-" + LONG, "X"), RecordFor(SHORT, "TC-" + SHORT, "Y")])
  }

  const NAME := "a.py::t[b :::c]"
  const RAW_NAME := "a.py::t[b : ::c]"

  /** Two tests under one checkpoint. The tag of the second is read as the tag of the first is written; the one record
      stands under the tag of the second. */
  function OneRecordOnly(text: seq<string>): Sheet
  {
    SheetOf([ItemOf("A", "X", NAME, text), ItemOf("A", "Y", RAW_NAME, text)], [RecordFor(NAME, "TC-" + RAW_NAME, "Y")])
  }

  // ---------------------------------------------------------------- their lines are read

  /** No character that means something in a tag or a link. */
  predicate Plain(s: string)
  {
    IsClean(s) && forall k :: 0 <= k < |s| ==> !IsAngle(s[k]) && s[k] != '?'
  }

  lemma SomeAreIn(s: string, part: string)
    requires Plain(s) && forall c :: c in part ==> c in s
    ensures '<' !in part && '>' !in part && '?' !in part
  {
  }

  lemma VisibleIsPlain(tag: Tag)
    requires Plain(tag.value)
    ensures '<' !in Visible(tag) && '>' !in Visible(tag) && '?' !in Visible(tag)
  {
    SomeAreIn(tag.value, LastOf(tag.value, '-'));
  }

  lemma PlainIsHeaded(y: Sheet, fields: seq<string>, tag: Tag)
    requires y.visible == Visible && y.title(tag) == TITLE && Plain(tag.value) && !StaticTag(tag)
    ensures Headed(y, ContractOf(fields), tag)
  {
    hide Visible, IsSpace;
    VisibleIsPlain(tag);
  }

  lemma BugIsNamed(bug: string)
    requires bug == "X" || bug == "Y"
    ensures Plain(bug + "-" + NatText(50)) && !StaticTag(Tag(BG, bug + "-" + NatText(50))) && NonZero(BugOf(bug))
    ensures Plain(BugOf(bug))
  {
    hide NonZero, Plain;
    BugValueIsPlain(bug);
    BugIsNonZero(bug);
  }

  lemma BugValueIsPlain(bug: string)
    requires bug == "X" || bug == "Y"
    ensures Plain(bug + "-" + NatText(50)) && !StaticTag(Tag(BG, bug + "-" + NatText(50))) && Plain(BugOf(bug))
  {
    NatTextShape(50);
    hide NatText;
    var value := bug + "-" + NatText(50);
    var digits := NatText(50);
    assert forall k :: 2 <= k < |value| ==> value[k] == digits[k - 2];
    assert value[0] != 'S';
    var all := BugOf(bug);
    assert all == "BG-" + value;
    assert forall k :: 3 <= k < |all| ==> all[k] == value[k - 3];
    DigitIsNoSpace(value[|value| - 1]);
  }

  lemma DigitIsNoSpace(c: char)
    ensures IsDigit(c) ==> !IsSpace(c)
  {
  }

  lemma BugIsNonZero(bug: string)
    requires bug == "X" || bug == "Y"
    ensures NonZero(BugOf(bug))
  {
    hide NatText, ParseBugLabel, IsSpace, NonZero, BugLabel;
    assert BugOf(bug) == BugLabel(bug, 50) by { LabelOfBug(bug); }
    LabelRoundTripIff(bug, 50);
    LetterIsNotBlank(bug);
    NonZeroLabel(bug);
  }

  lemma LabelOfBug(bug: string)
    ensures BugOf(bug) == BugLabel(bug, 50)
  {
    hide NatText;
  }

  lemma LetterIsNotBlank(name: string)
    requires name == "X" || name == "Y"
    ensures !IsBlank(name) && '\n' !in name
  {
    CleanIsStripped(name);
  }

  lemma NonZeroLabel(name: string)
    requires ParseBugLabel(BugLabel(name, 50)) == Some((name, 50 as real / 100.0))
    ensures NonZero(BugLabel(name, 50))
  {
    hide ParseBugLabel, BugLabel;
  }

  ghost predicate TextLines(text: seq<string>)
  {
    forall k :: 0 <= k < |text| ==> TextLine(text[k])
  }

  lemma HeadingIsNoText(y: Sheet, c: Contract, tag: Tag)
    requires Headed(y, c, tag)
    ensures !TextLine(Heading(y, tag))
  {
    HeadingStands(y, c, tag);
    HeadingHasItsTag(y, c, tag);
    hide Heading, Headed, Strip, TagsOf, Quiet, Ordinary, Marker, IsFence;
  }

  lemma ReferenceIsNoText(p: Protocol, test: string)
    requires '<' !in p.anchor(test) && '?' !in p.anchor(test)
    ensures !TextLine(Reference(p, test))
  {
    hide Reference, Strip, TagsOf, Quiet, Marker, IsFence, Mentions, Misplaced;
    ReferenceFacts(p, test);
    ReferenceMentions(p, test);
  }

  lemma AnchorIsPlain(tag: string)
    ensures '<' !in PROTOCOL.anchor(tag) && '?' !in PROTOCOL.anchor(tag) && '"' !in PROTOCOL.anchor(tag)
    ensures PROTOCOL.anchor(tag) != ""
  {
    NatTextShape(|tag|);
    hide NatText;
    var id, digits := PROTOCOL.anchor(tag), NatText(|tag|);
    assert id == "waveform-" + digits;
    assert forall k :: 9 <= k < |id| ==> id[k] == digits[k - 9];
  }

  /** A test whose tag has a normal form. */
  predicate Normalizes(name: string)
  {
    Plain(name) && NormalizeTestCaseTag("TC-" + name).Some? && NormalizeTestCaseTag(NormalTag(name)).Some?
  }

  lemma TestIsCased(y: Sheet, fields: seq<string>, name: string)
    requires y.visible == Visible && y.title(Tag(TC, name)) == TITLE && TextLines(fields) && Normalizes(name)
    ensures Cased(y, ContractOf(fields), PROTOCOL, name)
  {
    hide Visible, Headed, TextLine, Heading, Reference, NormalizeTestCaseTag, NormalTag, IsSpace;
    var c, tag := ContractOf(fields), Tag(TC, name);
    PlainIsHeaded(y, fields, tag);
    HeadingIsNoText(y, c, tag);
    AnchorIsPlain(NormalTag(name));
    ReferenceIsNoText(PROTOCOL, NormalTag(name));
  }

  lemma ItemIsRead(y: Sheet, checkpoint: string, bug: string, name: string, text: seq<string>)
    requires y.visible == Visible && (forall tag :: y.title(tag) == TITLE) && TextLines(text) && Normalizes(name)
    requires (checkpoint == "A" || checkpoint == "B") && (bug == "X" || bug == "Y")
    ensures Itemized(y, ContractOf(text), PROTOCOL, ItemOf(checkpoint, bug, name, text))
  {
    hide Visible, Headed, TextLine, Plain, Cased, NonZero, Normalizes, NatText, ContractOf;
    LettersArePlain();
    BugIsNamed(bug);
    PlainIsHeaded(y, text, Tag(FG, "F"));
    PlainIsHeaded(y, text, Tag(FC, "C"));
    PlainIsHeaded(y, text, Tag(CK, checkpoint));
    PlainIsHeaded(y, text, Tag(BG, bug + "-" + NatText(50)));
    TestIsCased(y, text, name);
  }

  lemma LettersArePlain()
    ensures Plain("F") && Plain("C") && Plain("A") && Plain("B")
  {
  }

  /** Without angle brackets, and beginning with neither of the characters that mean something. */
  lemma LineIsQuiet(front: string, rest: string)
    requires IsClean(rest) && '<' !in rest && (front == "" || (front == "  " && rest[0] != '`'))
    ensures Strip(front + rest) == rest && Quiet(front + rest) && (rest[0] != '`' ==> !IsFence(rest))
  {
    StripOfFront(front, rest);
    FrontIsBlank();
    NoTagsFrom(front + rest, 0);
    hide Strip, LStrip, IsSpace, TagsOf, TagsFrom;
    assert LStrip(front) == "";
    assert !Marker(rest) by { MarkersEndIn(); }
  }

  lemma FrontIsBlank()
    ensures LStrip("") == "" && LStrip("  ") == ""
  {
    assert "  "[1..] == " " && " "[1..] == "";
  }

  lemma YamlIsQuiet(tag: string, bug: string, receipt: string)
    requires Plain(tag) && Plain(bug) && Plain(receipt)
    ensures forall k :: 0 <= k < 4 ==> Quiet(Yaml(tag, bug, receipt)[k]) && !IsFence(Strip(Yaml(tag, bug, receipt)[k]))
  {
    KeysAreClean();
    hide IsSpace, Strip, Quiet, IsClean, IsFence, Plain;
    LineIsQuiet("", "waveform_analysis:");
    assert "" + "waveform_analysis:" == "waveform_analysis:";
    KeyWithBlank("test_case:", tag, TEST_KEY);
    KeyWithBlank("bug:", bug, BUG_KEY);
    KeyWithBlank("receipt_id:", receipt, RECEIPT_KEY);
  }

  lemma KeyWithBlank(key: string, value: string, front: string)
    requires Plain(value) && IsClean(key) && '<' !in key && key[0] != '`' && front == "  " + key + " "
    ensures Quiet(front + value) && !IsFence(Strip(front + value))
  {
    var rest := " " + value;
    assert front + value == "  " + (key + rest);
    assert IsClean(key + rest) by { assert (key + rest)[|key + rest| - 1] == value[|value| - 1]; }
    hide IsSpace, Strip, Quiet, IsClean, IsFence;
    assert (key + rest)[0] == key[0];
    LineIsQuiet("  ", key + rest);
  }

  lemma KeysAreClean()
    ensures IsClean("waveform_analysis:") && IsClean("test_case:") && IsClean("bug:") && IsClean("receipt_id:")
  {
  }

  lemma YamlReads(tag: string, bug: string, receipt: string)
    ensures YamlPayload(Yaml(tag, bug, receipt)) ==
            Some(Payload(Some(tag), Some([bug]), Some({bug}), "confirmed", Some(receipt)))
  {
    assert (TEST_KEY + tag)[..|TEST_KEY|] == TEST_KEY && (TEST_KEY + tag)[|TEST_KEY|..] == tag;
    assert (BUG_KEY + bug)[..|BUG_KEY|] == BUG_KEY && (BUG_KEY + bug)[|BUG_KEY|..] == bug;
    assert (RECEIPT_KEY + receipt)[..|RECEIPT_KEY|] == RECEIPT_KEY && (RECEIPT_KEY + receipt)[|RECEIPT_KEY|..] == receipt;
  }

  lemma RecordHeadingReads(written: string, tag: string)
    requires Plain(written) && NormalizeTestCaseTag(written) == Some(tag)
    ensures var line := RECORD_HEAD + written + ">";
            && Strip(line) == line && line != "" && RecordHeading(line) == Some((tag, TITLE))
  {
    hide NormalizeTestCaseTag, IsSpace;
    var line := RECORD_HEAD + written + ">";
    assert line[..|RECORD_HEAD|] == RECORD_HEAD && line[|RECORD_HEAD|..|line| - 1] == written;
    assert IsClean(line) by { MarksAreNoSpace(); }
    CleanIsStripped(line);
  }

  lemma MarksAreNoSpace()
    ensures !IsSpace('#') && !IsSpace('>') && RECORD_HEAD[0] == '#'
  {
  }

  lemma RecordHeadingIsQuiet(written: string)
    requires Plain(written)
    ensures Quiet(RECORD_HEAD + written + ">")
  {
    hide IsSpace;
    var line := RECORD_HEAD + written + ">";
    var n := |RECORD_HEAD|;
    assert RECORD_HEAD[n - 10] == '<' && RECORD_HEAD[n - 7] == 'V' && RECORD_HEAD[0] == '#';
    assert forall k :: 0 <= k < n && RECORD_HEAD[k] == '<' ==> k == n - 10;
    forall i | 0 <= i < |line| - 3 && line[i] == '<' ensures i == n - 10 {
      assert i < n ==> line[i] == RECORD_HEAD[i];
    }
    assert line[n - 7] == RECORD_HEAD[n - 7];
    NoTagsFrom(line, 0);
    HeadIsNoMarker(line);
  }

  lemma HeadIsNoMarker(line: string)
    requires line != "" && line[0] == '#' && line[|line| - 1] == '>' && TagsOf(line) == []
    ensures Quiet(line)
  {
    MarkedLine(line);
    hide Strip, TagsOf, Marker;
  }

  lemma ViewerIsQuiet()
    ensures Strip("viewer") == "viewer" && Quiet("viewer")
  {
    LineIsQuiet("", "viewer");
    hide Strip, Quiet;
    assert "" + "viewer" == "viewer";
  }

  lemma RecordIsRead(name: string, written: string, bug: string)
    requires Plain(name) && Plain(written) && NormalizeTestCaseTag(written) == Some("TC-" + name)
    requires NormalizeTestCaseTag("TC-" + name).Some? && (bug == "X" || bug == "Y")
    ensures Recorded(RecordFor(name, written, bug), PROTOCOL)
  {
    hide NormalizeTestCaseTag, IsSpace, Strip, Quiet, IsFence, Plain, RecordHeading, YamlPayload, BugOf, NonZero, Yaml;
    var tag := "TC-" + name;
    AnchorIsPlain(tag);
    RecordHeadingReads(written, tag);
    RecordHeadingIsQuiet(written);
    BugIsNamed(bug);
    TagIsPlain(name);
    YamlIsQuiet(tag, BugOf(bug), name);
    YamlHasFour(tag, BugOf(bug), name);
    YamlReads(tag, BugOf(bug), name);
    ViewerIsQuiet();
  }

  lemma YamlHasFour(tag: string, bug: string, receipt: string)
    ensures |Yaml(tag, bug, receipt)| == 4
  {
  }

  lemma TagIsPlain(name: string)
    requires Plain(name)
    ensures Plain("TC-" + name)
  {
    var tag := "TC-" + name;
    assert forall k :: 3 <= k < |tag| ==> tag[k] == name[k - 3];
    assert !IsSpace('T');
  }

  lemma RecordConfirms(y: Sheet, name: string, written: string, bug: string)
    requires y.title(Tag(TC, name)) == TITLE && Plain(name)
    ensures Confirms(RecordFor(name, written, bug), y, BugOf(bug), name, TOOL, EVERYTHING_AGREES)
  {
    CleanIsStripped(name);
    hide Strip, IsSpace, BugOf, LastPiece, Yaml;
  }

  // ---------------------------------------------------------------- a longer name in front of a shorter one

  lemma TwoTags()
    ensures IsNormal("TC-" + LONG) && IsNormal("TC-" + SHORT) && Normalizes(LONG) && Normalizes(SHORT)
  {
    hide NormalizeTestCaseTag, IsSpace;
    ClearNames();
    TwoParts("test_ab");
    TwoParts("test_a");
    assert "TC-" + LONG == "TC-a.py::" + "test_ab" && "TC-" + SHORT == "TC-a.py::" + "test_a";
  }

  lemma ClearNames()
    ensures Plain(LONG) && Plain(SHORT) && IsClean("test_ab") && IsClean("test_a")
  {
  }

  lemma LongerFirstIsRead(text: seq<string>)
    requires TextLines(text)
    ensures Readable(LongerFirst(text), ContractOf(text), PROTOCOL)
  {
    hide ContractOf, Itemized, Recorded, Normalizes, TextLines, NormalizeTestCaseTag, Plain, ItemOf, RecordFor;
    var y := LongerFirst(text);
    TwoTags();
    ClearNames();
    ItemIsRead(y, "A", "X", LONG, text);
    ItemIsRead(y, "B", "Y", SHORT, text);
    NormalIsSome(LONG);
    NormalIsSome(SHORT);
    RecordIsRead(LONG, "TC-" + LONG, "X");
    RecordIsRead(SHORT, "TC-" + SHORT, "Y");
  }

  lemma NormalIsSome(name: string)
    requires IsNormal("TC-" + name) && Plain(name)
    ensures NormalizeTestCaseTag("TC-" + name) == Some("TC-" + name) && Plain("TC-" + name)
  {
    hide NormalizeTestCaseTag, Plain;
    TagIsPlain(name);
  }

  lemma LongerFirstIsConfirmed(text: seq<string>)
    ensures BothConfirmed(LongerFirst(text), LONG, SHORT, TOOL, EVERYTHING_AGREES)
  {
    hide NormalizeTestCaseTag, Plain, Confirms, Normalizes, IsNormal, RecordFor, NatText;
    var y := LongerFirst(text);
    TwoTags();
    ClearNames();
    NormalTags(LONG);
    NormalTags(SHORT);
    assert |LONG| == 13 && |SHORT| == 12;
    RecordConfirms(y, LONG, "TC-" + LONG, "X");
    RecordConfirms(y, SHORT, "TC-" + SHORT, "Y");
  }

  lemma CheckpointChars(item: Item)
    requires |item.fg| == 1 && |item.fc| == 1 && |item.ck| == 1
    ensures |Checkpoint(item)| == 14 && Checkpoint(item)[13] == item.ck[0]
  {
    hide Label;
    var a, b, d := Some(Label(Tag(FG, item.fg))), Some(Label(Tag(FC, item.fc))), Some(Label(Tag(CK, item.ck)));
    var none: seq<Option<string>> := [];
    assert [d][1..] == none;
    assert Joined([d]) == d.value;
    assert [b, d][1..] == [d];
    assert Joined([b, d]) == b.value + "/" + d.value;
    assert [a, b, d][1..] == [b, d];
    LabelLength(Tag(FG, item.fg));
    LabelLength(Tag(FC, item.fc));
    LabelLength(Tag(CK, item.ck));
  }

  lemma LabelLength(tag: Tag)
    requires |tag.value| == 1
    ensures |Label(tag)| == 4 && Label(tag)[3] == tag.value[0]
  {
  }

  /** A complete document that the final gate refuses, for any analysis text. */
  lemma CompleteDocumentRefused(text: seq<string>)
    requires TextLines(text)
    ensures var document, c := Some(Document(LongerFirst(text), PROTOCOL)), ContractOf(text);
            && Complete(document, c, PROTOCOL, TOOL, EVERYTHING_AGREES)
            && !FinalOk(document, c, PROTOCOL, TOOL, EVERYTHING_AGREES)
  {
    hide Document, FinalOk, Complete, Matches, Pieces, Readable, BothConfirmed, ContractOf, Checkpoint, RecordFor, NatText;
    var y := LongerFirst(text);
    LongerFirstIsRead(text);
    LongerFirstIsConfirmed(text);
    LongerNameMatches(SHORT, "b");
    assert SHORT + "b" == LONG;
    CheckpointChars(y.items[0]);
    CheckpointChars(y.items[1]);
    TwoTestsPassIff(y, ContractOf(text), PROTOCOL, LONG, SHORT, TOOL, EVERYTHING_AGREES);
  }

  // ---------------------------------------------------------------- a Bug without a record

  lemma RawTagsAreRead()
    ensures Normalizes(NAME) && Normalizes(RAW_NAME) && Plain("TC-" + RAW_NAME)
    ensures NormalizeTestCaseTag("TC-" + RAW_NAME) == Some("TC-" + NAME) && NormalTag(NAME) != "TC-" + NAME
    ensures NormalTag(RAW_NAME) == "TC-" + NAME
  {
    hide NormalizeTestCaseTag, IsSpace;
    NotIdempotent();
    assert "TC-" + NAME == ONCE && "TC-" + RAW_NAME == RAW;
    RawNames();
    TagIsPlain(RAW_NAME);
  }

  lemma RawNames()
    ensures Plain(NAME) && Plain(RAW_NAME)
  {
  }

  lemma OneRecordOnlyIsRead(text: seq<string>)
    requires TextLines(text)
    ensures Readable(OneRecordOnly(text), ContractOf(text), PROTOCOL)
  {
    hide ContractOf, Itemized, Recorded, Normalizes, TextLines, NormalizeTestCaseTag, Plain, ItemOf, RecordFor;
    var y := OneRecordOnly(text);
    RawTagsAreRead();
    RawNames();
    ItemIsRead(y, "A", "X", NAME, text);
    ItemIsRead(y, "A", "Y", RAW_NAME, text);
    TagIsSome(NAME);
    RecordIsRead(NAME, "TC-" + RAW_NAME, "Y");
  }

  lemma TagIsSome(name: string)
    requires Normalizes(name)
    ensures NormalizeTestCaseTag("TC-" + name).Some?
  {
  }

  lemma OneRecordOnlyConfirms(text: seq<string>)
    ensures OneRecord(OneRecordOnly(text), NAME, RAW_NAME, TOOL, EVERYTHING_AGREES)
  {
    hide NormalizeTestCaseTag, NormalTag, Plain, Confirms, Normalizes, RecordFor, NatText, BugLabelOf;
    var y := OneRecordOnly(text);
    RawTagsAreRead();
    RawNames();
    BugsDiffer(y);
    RecordConfirms(y, NAME, "TC-" + RAW_NAME, "Y");
  }

  lemma BugsDiffer(y: Sheet)
    requires |y.items| == 2 && y.items[0].bug == "X-" + NatText(50) && y.items[1].bug == "Y-" + NatText(50)
    ensures BugLabelOf(y, 0) != BugLabelOf(y, 1) && BugLabelOf(y, 1) == BugOf("Y")
  {
    hide NatText;
    assert BugLabelOf(y, 0)[3] == 'X' && BugLabelOf(y, 1)[3] == 'Y';
    assert "Y" + "-" + NatText(50) == "Y-" + NatText(50);
  }

  /** The second test is not matched to the first one, even under the same checkpoint. */
  lemma RawIsNotMatched()
    ensures !Matches(Pieces(RAW_NAME, "::"), NAME)
  {
    hide Pieces, Find;
    assert RAW_NAME == "a.py" + "::" + ("t[b : " + "::" + "c]");
    FirstPiece("a.py", "t[b : " + "::" + "c]");
    FirstPiece("t[b : ", "c]");
    assert Pieces(RAW_NAME, "::")[1] == "t[b : ";
    Absent(NAME, "t[b : ", 5);
  }

  /** The test under this checkpoint is what failed. */
  function OnlyFailure(checkpoint: string): FailedCases
  {
    FailedCases([NAME], map[NAME := [checkpoint]])
  }

  lemma FailureIsMapped(checkpoint: string)
    ensures Mapped(checkpoint, NAME, OnlyFailure(checkpoint)) && !Mapped(checkpoint, RAW_NAME, OnlyFailure(checkpoint))
    ensures OnlyFailure(checkpoint).Valid()
  {
    hide Matches, Pieces;
    MatchesItself(NAME);
    RawIsNotMatched();
    FirstMatchIs(Pieces(NAME, "::"), [NAME], 0);
  }

  /** The failed test is listed under the Bug and the waveform gate of the report passes, but no record lists the Bug. */
  ghost predicate PassesUnproved(lines: seq<string>, c: Contract, p: Protocol, r: BugRecord, t: Test, failed: FailedCases)
  {
    && DynamicRecords(Some(lines), c).Some? && Blocks(Some(lines), c, p).Some?
    && r in DynamicRecords(Some(lines), c).value && t in r.tests && failed.Valid() && Mapped(r.checkpoint, t.name, failed)
    && WaveformOk(Some(lines), c, p, failed, false, TOOL, EVERYTHING_AGREES)
    && forall name :: !PairIsProved(r.bug, name, Blocks(Some(lines), c, p).value, TOOL, EVERYTHING_AGREES)
  }

  /** Bug X is listed with the failed test, and the waveform gate of the report passes without a record for Bug X: the only
      record belongs to the test of Bug Y, whose tag is read as the tag of the failed test is written. */
  lemma BugWithoutRecordPasses(text: seq<string>) returns (r: BugRecord, t: Test)
    requires TextLines(text)
    ensures t.name == NAME && r.bug == BugOf("X")
    ensures PassesUnproved(Document(OneRecordOnly(text), PROTOCOL), ContractOf(text), PROTOCOL, r, t,
                           OnlyFailure(r.checkpoint))
  {
    hide Document, Readable, OneRecord, ContractOf, Checkpoint, NatText, DynamicRecords, Blocks, WaveformOk, PairIsProved,
      Mapped, RecordsOf, OnlyFailure, BlocksOf, EntriesOk, Second, OneRecordOnly, RecordOf, NoDup, Pairs, AssociationList;
    var y, c := OneRecordOnly(text), ContractOf(text);
    OneRecordOnlyIsRead(text);
    OneRecordOnlyConfirms(text);
    OneRecordOnlyItems(text);
    r, t := RecordOf(y, y.items[0], 1), TestAt(y, NAME, 5);
    FailureIsMapped(r.checkpoint);
    PassesWithoutRecord(y, c, PROTOCOL, NAME, RAW_NAME, OnlyFailure(r.checkpoint), TOOL, EVERYTHING_AGREES);
    DocumentIsRead(y, c, PROTOCOL);
    RecordsOfTwo(y, PROTOCOL);
    OneTest(y, y.items[0], 1, NAME);
  }

  lemma OneRecordOnlyItems(text: seq<string>)
    ensures var y := OneRecordOnly(text);
            && |y.items| == 2 && y.items[0].names == [NAME] && BugLabelOf(y, 0) == BugOf("X")
            && RecordOf(y, y.items[0], 1).checkpoint == Checkpoint(y.items[0]) == Checkpoint(y.items[1])
  {
    SameCheckpoint(text);
    hide NatText, Checkpoint, TestsOf;
  }

  lemma SameCheckpoint(text: seq<string>)
    ensures var items := OneRecordOnly(text).items; Checkpoint(items[0]) == Checkpoint(items[1])
  {
    hide Label, NatText, Joined;
  }
}
