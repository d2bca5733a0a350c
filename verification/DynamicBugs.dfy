/** The Bug records of the dynamic Bug document: the line scanner `_parse_documented_dynamic_bug_records` of
    ucagent/checkers/toffee_report.py. Line numbers start at zero here. */
module DynamicBugs {
  import opened Text
  import opened Locations

  datatype Kind = FG | FC | CK | BG | TC

  datatype Tag = Tag(kind: Kind, value: string)

  /** What the localised document contract decides: the visible title of a heading, given its tag and the text
      between the heading marks and the tag; and which lines open a field of the Bug analysis. */
  datatype Contract = Contract(title: (Tag, string) -> Option<string>, analysisField: string -> bool)

  datatype Test = Test(name: string, title: string, line: nat)

  datatype BugRecord = BugRecord(bug: string, checkpoint: string, line: nat, tests: seq<Test>)

  const DYNAMIC_BUGS := "<DYNAMIC-BUGS>"
  const DYNAMIC_BUGS_END := "</DYNAMIC-BUGS>"

  // ---------------------------------------------------------------- tags of a line

  function KindText(k: Kind): string
  {
    match k
    case FG => "FG"
    case FC => "FC"
    case CK => "CK"
    case BG => "BG"
    case TC => "TC"
  }

  function Label(t: Tag): string
  {
    KindText(t.kind) + "-" + t.value
  }

  function KindOf(s: string): Option<Kind>
  {
    if s == "FG" then Some(FG)
    else if s == "FC" then Some(FC)
    else if s == "CK" then Some(CK)
    else if s == "BG" then Some(BG)
    else if s == "TC" then Some(TC)
    else None
  }

  /** The end of the run of characters other than angle brackets that starts at `i`. */
  function RunEnd(text: string, i: nat): (e: nat)
    requires i <= |text|
    ensures i <= e <= |text|
    ensures forall k :: i <= k < e ==> !IsAngle(text[k])
    ensures e < |text| ==> IsAngle(text[e])
    decreases |text| - i
  {
    if i == |text| || IsAngle(text[i]) then i else RunEnd(text, i + 1)
  }

  /** A tag `<KIND-value>` starting at `i`, and the position after it. */
  function TagAt(text: string, i: nat): (r: Option<(Tag, nat)>)
    requires i < |text|
    ensures r.Some? ==> i < r.value.1 <= |text|
    ensures r.Some? ==> text[i] == '<'
  {
    if text[i] != '<' || i + 4 > |text| || text[i + 3] != '-' then None
    else
      var kind, e := KindOf(text[i + 1..i + 3]), RunEnd(text, i + 4);
      if kind.None? || e == i + 4 || e == |text| || text[e] != '>' then None
      else Some((Tag(kind.value, text[i + 4..e]), e + 1))
  }

  function TagsFrom(text: string, i: nat): seq<Tag>
    requires i <= |text|
    decreases |text| - i
  {
    if i == |text| then []
    else
      match TagAt(text, i)
      case Some(found) => [found.0] + TagsFrom(text, found.1)
      case None => TagsFrom(text, i + 1)
  }

  /** All tags of a line, from left to right. */
  function TagsOf(text: string): seq<Tag>
  {
    TagsFrom(text, 0)
  }

  function Marks(k: Kind): string
  {
    match k
    case FG => "### "
    case FC => "#### "
    case CK => "##### "
    case BG => "###### "
    case TC => "- "
  }

  predicate EndsWith(s: string, suffix: string)
  {
    |suffix| <= |s| && s[|s| - |suffix|..] == suffix
  }

  /** The visible title of the semantic heading of `tag`: heading marks, a title without angle brackets, and
      the tag at the end of the line. None stands for the ValueError. */
  function HeadingTitle(text: string, tag: Tag, c: Contract): Option<string>
  {
    var marks, suffix := Marks(tag.kind), " <" + Label(tag) + ">";
    if !(marks <= text) || !EndsWith(text, suffix) || |marks| + |suffix| > |text| then None
    else
      var middle := text[|marks|..|text| - |suffix|];
      if '<' in middle || '>' in middle then None else c.title(tag, middle)
  }

  predicate ProperValue(value: string)
  {
    value != "" && forall k :: 0 <= k < |value| ==> !IsAngle(value[k])
  }

  lemma {:induction false} TagsAreProper(text: string, i: nat, tag: Tag)
    requires i <= |text| && tag in TagsFrom(text, i)
    ensures ProperValue(tag.value)
    decreases |text| - i
  {
    if i < |text| {
      match TagAt(text, i)
      case Some(found) =>
        if tag != found.0 { TagsAreProper(text, found.1, tag); }
      case None => TagsAreProper(text, i + 1, tag);
    }
  }

  lemma {:induction false} NoTagsUntil(text: string, i: nat, p: nat)
    requires i <= p <= |text| && forall k :: i <= k < p ==> text[k] != '<'
    ensures TagsFrom(text, i) == TagsFrom(text, p)
    decreases p - i
  {
    if i < p {
      NoTagsUntil(text, i + 1, p);
    }
  }

  lemma {:induction false} RunEndIs(text: string, i: nat, e: nat)
    requires i <= e < |text| && IsAngle(text[e]) && forall k :: i <= k < e ==> !IsAngle(text[k])
    ensures RunEnd(text, i) == e
  {
    assert !(RunEnd(text, i) < e);
  }

  lemma KindReads(k: Kind)
    ensures |KindText(k)| == 2 && KindOf(KindText(k)) == Some(k)
  {
  }

  lemma TagPieces(front: string, kind: string, value: string)
    requires |kind| == 2
    ensures var text, p := front + "<" + kind + "-" + value + ">", |front|;
            && |text| == p + 5 + |value| && text[p] == '<' && text[p + 1..p + 3] == kind && text[p + 3] == '-'
            && text[p + 4..p + 4 + |value|] == value && text[p + 4 + |value|] == '>'
  {
  }

  lemma TagAtEnd(front: string, tag: Tag)
    requires ProperValue(tag.value)
    ensures var text := front + "<" + Label(tag) + ">";
            TagAt(text, |front|) == Some((tag, |text|))
  {
    hide KindOf, KindText, RunEnd;
    var text := front + "<" + Label(tag) + ">";
    assert text == front + "<" + KindText(tag.kind) + "-" + tag.value + ">";
    KindReads(tag.kind);
    TagPieces(front, KindText(tag.kind), tag.value);
    NoAngleInSlice(text, |front| + 4, tag.value);
    RunEndIs(text, |front| + 4, |front| + 4 + |tag.value|);
  }

  lemma NoAngleInSlice(text: string, i: nat, value: string)
    requires ProperValue(value) && i + |value| <= |text| && text[i..i + |value|] == value
    ensures forall k :: i <= k < i + |value| ==> !IsAngle(text[k])
  {
    forall k | i <= k < i + |value| ensures !IsAngle(text[k]) {
      assert text[k] == value[k - i];
    }
  }

  /** What stands between a given start and a given end. */
  lemma BetweenEnds(text: string, front: string, back: string)
    requires front <= text && EndsWith(text, back) && |front| + |back| <= |text|
    ensures text == front + text[|front|..|text| - |back|] + back
  {
  }

  lemma HeadingShape(text: string, tag: Tag, c: Contract) returns (front: string)
    requires HeadingTitle(text, tag, c).Some?
    ensures text == front + "<" + Label(tag) + ">" && '<' !in front
  {
    hide Label, EndsWith, Marks;
    var marks, suffix := Marks(tag.kind), " <" + Label(tag) + ">";
    var middle := text[|marks|..|text| - |suffix|];
    BetweenEnds(text, marks, suffix);
    assert suffix == " " + ("<" + Label(tag) + ">");
    front := marks + middle + " ";
    assert text == front + "<" + Label(tag) + ">";
    NoAngleInMarks(tag.kind);
  }

  lemma NoAngleInMarks(k: Kind)
    ensures '<' !in Marks(k)
  {
  }

  /** A semantic heading carries exactly one tag. */
  lemma HeadingHasOneTag(text: string, tag: Tag, c: Contract)
    requires tag in TagsOf(text) && HeadingTitle(text, tag, c).Some?
    ensures TagsOf(text) == [tag]
  {
    hide TagAt, HeadingTitle, Label;
    TagsAreProper(text, 0, tag);
    var front := HeadingShape(text, tag, c);
    assert forall k :: 0 <= k < |front| ==> text[k] == front[k] && front[k] in front;
    NoTagsUntil(text, 0, |front|);
    TagAtEnd(front, tag);
    OneTagLeft(text, |front|, tag);
  }

  lemma OneTagLeft(text: string, p: nat, tag: Tag)
    requires p < |text| && TagAt(text, p) == Some((tag, |text|)) && TagsFrom(text, 0) == TagsFrom(text, p)
    ensures TagsOf(text) == [tag]
  {
    hide TagAt;
    assert TagsFrom(text, |text|) == [];
  }

  // ---------------------------------------------------------------- the scanner

  /** The scanner's variables after some lines. */
  datatype Scan = Scan(fence: bool, inside: bool, containers: seq<nat>, firstBug: Option<nat>,
                       fg: Option<string>, fc: Option<string>, ck: Option<string>,
                       closed: seq<BugRecord>, current: Option<BugRecord>, analysis: bool)

  const START := Scan(false, false, [], None, None, None, None, [], None, false)

  function Close(s: Scan): Scan
  {
    if s.current.None? then s else s.(closed := s.closed + [s.current.value], current := None, analysis := false)
  }

  function Joined(parts: seq<Option<string>>): string
  {
    if parts == [] then ""
    else
      var rest := Joined(parts[1..]);
      if parts[0].None? then rest
      else if forall p :: p in parts[1..] ==> p.None? then parts[0].value
      else parts[0].value + "/" + rest
  }

  /** A BG label of non-zero confidence. */
  predicate NonZero(bug: string)
  {
    ParseBugLabel(bug).Some? && ParseBugLabel(bug).value.1 != 0.0
  }

  /** The effect of one tag with a proper heading. */
  function Apply(s: Scan, index: nat, tag: Tag, title: string): Option<Scan>
  {
    match tag.kind
    case FG => Some(s.(fg := Some(Label(tag)), fc := None, ck := None))
    case FC => Some(s.(fc := Some(Label(tag)), ck := None))
    case CK => Some(s.(ck := Some(Label(tag))))
    case BG =>
      if ParseBugLabel(Label(tag)).None? then None
      else if !NonZero(Label(tag)) then Some(s)
      else Some(s.(current := Some(BugRecord(Label(tag), Joined([s.fg, s.fc, s.ck]), index, [])), analysis := false))
    case TC =>
      if s.current.None? then Some(s)
      else if s.analysis || Strip(tag.value) == "" then None
      else
        var r := s.current.value;
        Some(s.(current := Some(r.(tests := r.tests + [Test(Strip(tag.value), title, index)]))))
  }

  predicate IsFence(text: string)
  {
    "```" <= text
  }

  predicate HasBug(tags: seq<Tag>)
  {
    exists i :: 0 <= i < |tags| && tags[i].kind == BG
  }

  /** A tag of any kind but TC, which ends the entry of the current Bug. */
  predicate HasScope(tags: seq<Tag>)
  {
    exists i :: 0 <= i < |tags| && tags[i].kind != TC
  }

  /** One line that is outside fenced text and no container marker, inside the container. */
  function ScanEntry(s: Scan, index: nat, text: string, c: Contract): Option<Scan>
  {
    var tags := TagsOf(text);
    var t := if s.current.Some? && c.analysisField(text) then s.(analysis := true) else s;
    if tags == [] then Some(t)
    else
      match HeadingTitle(text, tags[0], c)
      case None => None
      case Some(title) => Apply(if HasScope(tags) then Close(t) else t, index, tags[0], title)
  }

  function ScanLine(s: Scan, index: nat, text: string, c: Contract): Option<Scan>
  {
    if IsFence(text) then Some(s.(fence := !s.fence))
    else if s.fence then Some(s)
    else
      var t := if s.firstBug.None? && HasBug(TagsOf(text)) then s.(firstBug := Some(index)) else s;
      if text == DYNAMIC_BUGS then Some(t.(containers := t.containers + [index], inside := true))
      else if text == DYNAMIC_BUGS_END then Some(Close(t).(inside := false))
      else if !t.inside then Some(t)
      else ScanEntry(t, index, text, c)
  }

  /** The state after the first `n` lines. */
  function After(lines: seq<string>, n: nat, c: Contract): Option<Scan>
    requires n <= |lines|
  {
    if n == 0 then Some(START)
    else
      match After(lines, n - 1, c)
      case None => None
      case Some(s) => ScanLine(s, n - 1, Strip(lines[n - 1]), c)
  }

  predicate StaticTag(t: Tag)
  {
    t.kind == BG && "STATIC-" <= t.value && |t.value| > 7
  }

  ghost predicate HasStaticTag(lines: seq<string>)
  {
    exists i, k :: 0 <= i < |lines| && 0 <= k < |TagsOf(lines[i])| && StaticTag(TagsOf(lines[i])[k])
  }

  /** The records of an accepted document; None stands for every reported error. */
  ghost function DynamicRecords(document: Option<seq<string>>, c: Contract): Option<seq<BugRecord>>
  {
    match document
    case None => Some([])
    case Some(lines) =>
      if HasStaticTag(lines) then None
      else
        match After(lines, |lines|, c)
        case None => None
        case Some(s) =>
          if |s.containers| != 1 || (s.firstBug.Some? && s.containers[0] > s.firstBug.value) then None
          else Some(Close(s).closed)
  }

  // ---------------------------------------------------------------- the loops

  /** `_validate_dynamic_bug_document_labels`. */
  method FindStaticTag(lines: seq<string>) returns (found: bool)
    ensures found == HasStaticTag(lines)
  {
    hide TagsOf, StaticTag;
    for i := 0 to |lines|
      invariant forall j, k :: 0 <= j < i && 0 <= k < |TagsOf(lines[j])| ==> !StaticTag(TagsOf(lines[j])[k])
    {
      var tags := TagsOf(lines[i]);
      for k := 0 to |tags|
        invariant forall m :: 0 <= m < k ==> !StaticTag(tags[m])
      {
        if StaticTag(tags[k]) {
          return true;
        }
      }
    }
    found := false;
  }

  /** The inner loop over the tags of one line. */
  method ApplyTags(s: Scan, index: nat, text: string, c: Contract) returns (r: Option<Scan>)
    requires TagsOf(text) != []
    ensures r == match HeadingTitle(text, TagsOf(text)[0], c)
                 case None => None
                 case Some(title) => Apply(s, index, TagsOf(text)[0], title)
  {
    hide TagsOf, HeadingTitle, Apply;
    var tags := TagsOf(text);
    r := Some(s);
    for k := 0 to |tags|
      invariant k == 0 ==> r == Some(s)
      invariant k > 0 ==> HeadingTitle(text, tags[0], c).Some?
                          && r == Apply(s, index, tags[0], HeadingTitle(text, tags[0], c).value) && r.Some?
    {
      if k > 0 {
        HeadingHasOneTag(text, tags[0], c);
        assert false;
      }
      var title := HeadingTitle(text, tags[k], c);
      if title.None? {
        return None;
      }
      r := Apply(r.value, index, tags[k], title.value);
      if r.None? {
        return;
      }
    }
  }

  method ParseDynamicBugRecords(document: Option<seq<string>>, c: Contract) returns (records: Option<seq<BugRecord>>)
    ensures records == DynamicRecords(document, c)
  {
    hide TagsOf, HeadingTitle, Apply, HasStaticTag, IsFence, HasBug, HasScope, Strip;
    if document.None? {
      return Some([]);
    }
    var lines := document.value;
    var mixed := FindStaticTag(lines);
    if mixed {
      return None;
    }
    var s := START;
    for index := 0 to |lines|
      invariant After(lines, index, c) == Some(s)
      invariant index < |lines| ==> After(lines, index + 1, c) == ScanLine(s, index, Strip(lines[index]), c)
    {
      var text := Strip(lines[index]);
      var next := ScanOne(s, index, text, c);
      if next.None? {
        NoneForever(lines, index + 1, |lines|, c);
        return None;
      }
      s := next.value;
    }
    s := Close(s);
    if |s.containers| != 1 {
      return None;
    }
    if s.firstBug.Some? && s.containers[0] > s.firstBug.value {
      return None;
    }
    records := Some(s.closed);
  }

  lemma {:induction false} NoneForever(lines: seq<string>, n: nat, m: nat, c: Contract)
    requires n <= m <= |lines| && After(lines, n, c).None?
    ensures After(lines, m, c).None?
    decreases m
  {
    if n < m {
      NoneForever(lines, n, m - 1, c);
    }
  }

  /** The body of the scanner's loop. */
  method ScanOne(s: Scan, index: nat, text: string, c: Contract) returns (r: Option<Scan>)
    ensures r == ScanLine(s, index, text, c)
  {
    hide TagsOf, HeadingTitle, Apply, IsFence, HasBug, HasScope;
    if IsFence(text) {
      return Some(s.(fence := !s.fence));
    }
    if s.fence {
      return Some(s);
    }
    var t := s;
    var tags := TagsOf(text);
    if t.firstBug.None? && HasBug(tags) {
      t := t.(firstBug := Some(index));
    }
    if text == DYNAMIC_BUGS {
      return Some(t.(containers := t.containers + [index], inside := true));
    }
    if text == DYNAMIC_BUGS_END {
      return Some(Close(t).(inside := false));
    }
    if !t.inside {
      return Some(t);
    }
    if t.current.Some? && c.analysisField(text) {
      t := t.(analysis := true);
    }
    if tags == [] {
      return Some(t);
    }
    if HasScope(tags) {
      t := Close(t);
    }
    r := ApplyTags(t, index, text, c);
  }
}
