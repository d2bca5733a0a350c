/** Printed locations and Bug labels: `path:ranges` references (ucagent/checkers/static_bug.py and
    ucagent/checkers/recorder.py) and `BG-NAME-XX` labels (ucagent/checkers/toffee_report.py). */
module Locations {
  import opened Text
  import opened Lists
  import opened LineRanges
  import opened LineMapFile

  datatype Location = Location(text: string, path: string, ranges: seq<Span>)

  // ---------------------------------------------------------------- parsing a location

  /** `N` or `N-M`, with 1 <= N <= M. */
  function ParseItem(item: string): (r: Option<Span>)
    ensures r.Some? ==> r.value.0 >= 1
  {
    var dash := IndexOf(item, '-');
    var start, end := if dash == -1 then item else item[..dash], if dash == -1 then item else item[dash + 1..];
    if start == "" || end == "" || !AllDigits(start) || !AllDigits(end) then None
    else
      var s, e := DigitsValue(start), DigitsValue(end);
      if s < 1 || e < s then None else Some((s, e))
  }

  function ParseItems(items: seq<string>): (r: Option<seq<Span>>)
    ensures r.Some? ==> |r.value| == |items| && forall i :: 0 <= i < |items| ==> ParseItem(items[i]) == Some(r.value[i])
    ensures r.None? ==> exists i :: 0 <= i < |items| && ParseItem(items[i]).None?
  {
    hide ParseItem;
    if items == [] then Some([])
    else
      var head, tail := ParseItem(items[0]), ParseItems(items[1..]);
      if head.None? || tail.None? then None else Some([head.value] + tail.value)
  }

  /** `parse_source_location`: the ranges follow the last colon; None stands for the ValueError. */
  function ParseLocation(location: string): Option<Location>
  {
    var raw := Strip(location);
    var colon := LastIndexOf(raw, ':');
    if colon < 1 || '\n' in raw[..colon] then None
    else
      match ParseItems(SplitOn(raw[colon + 1..], ','))
      case None => None
      case Some(ranges) => Some(Location(raw, raw[..colon], ranges))
  }

  method ParseSourceLocation(location: string) returns (r: Option<Location>)
    ensures r == ParseLocation(location)
  {
    hide ParseItem, SplitOn, Strip, LastIndexOf;
    var raw := Strip(location);
    var colon := LastIndexOf(raw, ':');
    if colon < 1 || '\n' in raw[..colon] {
      return None;
    }
    var items := SplitOn(raw[colon + 1..], ',');
    var ranges: seq<Span> := [];
    for i := 0 to |items|
      invariant |ranges| == i
      invariant forall k :: 0 <= k < i ==> ParseItem(items[k]) == Some(ranges[k])
    {
      var item := ParseItem(items[i]);
      if item.None? {
        return None;
      }
      ranges := ranges + [item.value];
    }
    assert ParseItems(items).Some? && ParseItems(items).value == ranges;
    return Some(Location(raw, raw[..colon], ranges));
  }

  // ---------------------------------------------------------------- printing a reference

  function ItemText(s: Span): string
  {
    if s.0 == s.1 then NatText(s.0) else NatText(s.0) + "-" + NatText(s.1)
  }

  function ItemTexts(spans: seq<Span>): (r: seq<string>)
    ensures |r| == |spans| && forall i :: 0 <= i < |r| ==> r[i] == ItemText(spans[i])
  {
    if spans == [] then [] else [ItemText(spans[0])] + ItemTexts(spans[1..])
  }

  function Printed(document: string, ranges: seq<Span>): string
  {
    document + ":" + JoinWith(ItemTexts(Unique(ranges)), ',')
  }

  /** `_format_document_ref`. */
  method FormatDocumentRef(document: string, ranges: seq<Span>) returns (text: string)
    ensures text == Printed(document, ranges)
  {
    var uniqueRanges: seq<Span> := [];
    for i := 0 to |ranges|
      invariant uniqueRanges == Unique(ranges[..i])
    {
      assert ranges[..i + 1][..i] == ranges[..i];
      if ranges[i] !in uniqueRanges {
        uniqueRanges := uniqueRanges + [ranges[i]];
      }
    }
    assert ranges[..|ranges|] == ranges;
    text := document + ":" + JoinWith(ItemTexts(uniqueRanges), ',');
  }

  lemma ParseItemOfText(s: Span)
    ensures ParseItem(ItemText(s)) == if s.0 >= 1 then Some(s) else None
  {
    var a, b := NatText(s.0), NatText(s.1);
    NatTextRoundTrip(s.0);
    NatTextRoundTrip(s.1);
    hide NatText, DigitsValue;
    if s.0 == s.1 {
      assert forall k :: 0 <= k < |a| ==> a[k] != '-';
      assert IndexOf(a, '-') == -1;
    } else {
      var text := a + "-" + b;
      assert text[|a|] == '-';
      assert forall k :: 0 <= k < |a| ==> text[k] == a[k];
      assert IndexOf(text, '-') == |a|;
      assert text[..|a|] == a && text[|a| + 1..] == b;
    }
  }

  lemma ItemTextShape(s: Span)
    ensures IsClean(ItemText(s)) && ',' !in ItemText(s) && ':' !in ItemText(s)
  {
    NatTextShape(s.0);
    NatTextShape(s.1);
    hide NatText;
    var t := ItemText(s);
    assert forall k :: 0 <= k < |t| ==> IsDigit(t[k]) || t[k] == '-';
    assert t[0] == NatText(s.0)[0] && t[|t| - 1] == NatText(s.1)[|NatText(s.1)| - 1];
  }

  lemma PrintedRanges(spans: seq<Span>)
    requires spans != []
    ensures var text := JoinWith(ItemTexts(spans), ',');
            && IsClean(text) && ':' !in text && SplitOn(text, ',') == ItemTexts(spans)
    ensures ParseItems(ItemTexts(spans)) ==
            if forall s :: s in spans ==> s.0 >= 1 then Some(spans) else None
  {
    hide ItemText, ParseItem, IsClean, JoinWith, SplitOn, ParseItems;
    var texts := ItemTexts(spans);
    forall i | 0 <= i < |texts| ensures IsClean(texts[i]) && ',' !in texts[i] && ':' !in texts[i] {
      ItemTextShape(spans[i]);
    }
    JoinEnds(texts, ',');
    JoinChars(texts, ',', ':');
    SplitOfJoin(texts, ',');
    ParseItemsOfTexts(spans);
  }

  lemma ParseItemsOfTexts(spans: seq<Span>)
    ensures ParseItems(ItemTexts(spans)) ==
            if forall s :: s in spans ==> s.0 >= 1 then Some(spans) else None
  {
    hide ItemText, ParseItem;
    var texts := ItemTexts(spans);
    forall i | 0 <= i < |texts| ensures ParseItem(texts[i]) == if spans[i].0 >= 1 then Some(spans[i]) else None {
      ParseItemOfText(spans[i]);
    }
    hide ParseItems;
    var parsed := ParseItems(texts);
    if forall s :: s in spans ==> s.0 >= 1 {
      assert forall i :: 0 <= i < |spans| ==> spans[i] in spans;
      assert parsed.Some?;
      assert parsed.value == spans;
    } else {
      var s :| s in spans && s.0 < 1;
      var i :| 0 <= i < |spans| && spans[i] == s;
      assert ParseItem(texts[i]).None?;
    }
  }

  /** Where a printed reference falls apart, and what its document reads as. */
  lemma PrintedParts(document: string, text: string)
    requires IsClean(text) && ':' !in text
    ensures var raw := Strip(document + ":" + text);
            && raw == LStrip(document) + ":" + text
            && LastIndexOf(raw, ':') == |LStrip(document)|
            && raw[..|LStrip(document)|] == LStrip(document) && raw[|LStrip(document)| + 1..] == text
  {
    hide Strip, LStrip;
    var rest := ":" + text;
    assert document + ":" + text == document + rest;
    assert rest[|rest| - 1] == text[|text| - 1];
    StripOfFront(document, rest);
    var d := LStrip(document);
    var raw := d + ":" + text;
    assert raw == d + rest;
    assert raw[|d|] == ':';
    forall k | |d| < k < |raw| ensures raw[k] != ':' { assert raw[k] == text[k - |d| - 1]; }
  }

  /** The documents and ranges a reference can carry. */
  ghost predicate Referable(document: string, ranges: seq<Span>)
  {
    && document != "" && !IsSpace(document[0]) && '\n' !in document
    && ranges != [] && forall s :: s in ranges ==> s.0 >= 1
  }

  /** Reading a printed reference returns its document and its ranges without repetitions, in order, even
      when the document contains colons, exactly when the document is not empty, has no leading white
      space and no newline, and there are ranges, all from line one on. */
  lemma ReferenceRoundTripIff(document: string, ranges: seq<Span>)
    ensures ParseLocation(Printed(document, ranges)) ==
              Some(Location(Printed(document, ranges), document, Unique(ranges)))
            <==> Referable(document, ranges)
  {
    hide ItemTexts, JoinWith, Strip, LStrip, SplitOn, LastIndexOf, ParseItems, IsSpace, Unique;
    var spans := Unique(ranges);
    LStripFacts(document);
    LStripUnchanged(document);
    if ranges == [] {
      NoRanges(document);
    } else {
      PrintedRanges(spans);
      var text := JoinWith(ItemTexts(spans), ',');
      PrintedParts(document, text);
    }
  }

  lemma LStripUnchanged(s: string)
    ensures LStrip(s) == s <==> s == "" || !IsSpace(s[0])
  {
    if s != "" {
      LStripFacts(s[1..]);
    }
  }

  lemma NoRanges(document: string)
    ensures ParseLocation(Printed(document, [])).None?
  {
    hide LStrip, RStrip, ParseItem;
    var raw := document + ":";
    assert Printed(document, []) == document + ":" by {
      assert ItemTexts([]) == [] && JoinWith([], ',') == "";
    }
    StripOfFront(document, ":");
    var s := Strip(raw);
    assert s == LStrip(document) + ":";
    assert s[|s| - 1] == ':';
    assert LastIndexOf(s, ':') == |s| - 1;
    assert s[|s|..] == "";
    assert SplitOn("", ',') == [""];
    assert ParseItem("").None? by { EmptyItem(); }
    assert ParseItems([""]).None? by { OnlyItem(""); }
  }

  lemma EmptyItem()
    ensures ParseItem("").None?
  {
  }

  lemma OnlyItem(item: string)
    requires ParseItem(item).None?
    ensures ParseItems([item]).None?
  {
    hide ParseItem;
  }

  // ---------------------------------------------------------------- Bug labels

  predicate IsAngle(c: char)
  {
    c == '<' || c == '>'
  }

  /** `strip("<>")`. */
  function StripAngles(s: string): string
    decreases |s|
  {
    if s != "" && IsAngle(s[0]) then StripAngles(s[1..])
    else if s != "" && IsAngle(s[|s| - 1]) then StripAngles(s[..|s| - 1])
    else s
  }

  /** `parse_bug_label`: the name and the confidence between 0 and 1; None stands for the ValueError. */
  function ParseBugLabel(bug: string): Option<(string, real)>
  {
    var raw := StripAngles(Strip(bug));
    var dash := LastIndexOf(raw, '-');
    if !("BG-" <= raw) || dash < 4 then None
    else
      var name, digits := raw[3..dash], raw[dash + 1..];
      if '\n' in name || IsBlank(name) || !(1 <= |digits| <= 3) || !AllDigits(digits) then None
      else if DigitsValue(digits) > 100 then None
      else Some((name, DigitsValue(digits) as real / 100.0))
  }

  function BugLabel(name: string, percent: nat): string
  {
    "BG-" + name + "-" + NatText(percent)
  }

  lemma LabelParts(name: string, percent: nat)
    ensures var bug := BugLabel(name, percent);
            && IsClean(bug) && StripAngles(bug) == bug
            && LastIndexOf(bug, '-') == 3 + |name|
            && bug[3..3 + |name|] == name && bug[4 + |name|..] == NatText(percent)
  {
    NatTextShape(percent);
    hide NatText;
    var digits := NatText(percent);
    var bug := BugLabel(name, percent);
    assert bug == "BG-" + name + "-" + digits;
    assert bug[0] == 'B' && bug[|bug| - 1] == digits[|digits| - 1];
    assert bug[3 + |name|] == '-';
    forall k | 3 + |name| < k < |bug| ensures bug[k] != '-' {
      assert bug[k] == digits[k - 4 - |name|];
    }
    assert bug[3..3 + |name|] == name && bug[4 + |name|..] == digits;
  }

  lemma {:induction false} ThreeDigits(n: nat)
    ensures |NatText(n)| <= 3 <==> n <= 999
  {
    if n >= 10 {
      assert |NatText(n)| == |NatText(n / 10)| + 1;
      if n / 10 >= 10 {
        assert |NatText(n / 10)| == |NatText(n / 10 / 10)| + 1;
        if n / 10 / 10 >= 10 {
          NatTextShape(n / 10 / 10 / 10);
          assert |NatText(n / 10 / 10)| == |NatText(n / 10 / 10 / 10)| + 1;
        }
      }
    }
  }

  /** Parsing `BG-name-cc` returns the name and cc / 100, exactly when cc is at most 100 and the name is not
      blank and has no newline. */
  lemma LabelRoundTripIff(name: string, percent: nat)
    ensures ParseBugLabel(BugLabel(name, percent)) == Some((name, percent as real / 100.0)) <==>
              percent <= 100 && !IsBlank(name) && '\n' !in name
  {
    LabelParts(name, percent);
    NatTextRoundTrip(percent);
    ThreeDigits(percent);
    var bug := BugLabel(name, percent);
    CleanIsStripped(bug);
    hide NatText, BugLabel, IsBlank, StripAngles, LastIndexOf, DigitsValue, Strip;
    assert IsBlank("") by { EmptyIsBlank(); }
    assert "BG-" <= bug by { LabelPrefix(name, percent); }
  }

  lemma EmptyIsBlank()
    ensures IsBlank("")
  {
  }

  lemma LabelPrefix(name: string, percent: nat)
    ensures "BG-" <= BugLabel(name, percent)
  {
    hide NatText;
    assert BugLabel(name, percent) == "BG-" + (name + "-" + NatText(percent));
  }

  /** A complete tag reads like the label inside it. */
  lemma TagReadsAsLabel(name: string, percent: nat)
    ensures ParseBugLabel("<" + BugLabel(name, percent) + ">") == ParseBugLabel(BugLabel(name, percent))
  {
    LabelParts(name, percent);
    hide BugLabel, LastIndexOf, DigitsValue, IsBlank;
    var bug := BugLabel(name, percent);
    var marked := "<" + bug + ">";
    CleanIsStripped(bug);
    CleanIsStripped(marked);
    assert marked[1..] == bug + ">";
    assert (bug + ">")[..|bug|] == bug;
    assert bug[0] == (bug + ">")[0];
    AnglesOff(bug);
  }

  lemma AnglesOff(bug: string)
    requires IsClean(bug) && StripAngles(bug) == bug
    ensures StripAngles("<" + bug + ">") == bug
  {
    assert ("<" + bug + ">")[1..] == bug + ">";
    NoAngleInFront(bug);
    var t := bug + ">";
    assert t[..|t| - 1] == bug && t[0] == bug[0];
  }

  lemma {:induction false} NoAngleInFront(s: string)
    requires s != "" && StripAngles(s) == s
    ensures !IsAngle(s[0])
  {
    if IsAngle(s[0]) {
      AnglesShorten(s[1..]);
    }
  }

  lemma {:induction false} AnglesShorten(s: string)
    ensures |StripAngles(s)| <= |s|
    decreases |s|
  {
    if s != "" && IsAngle(s[0]) {
      AnglesShorten(s[1..]);
    } else if s != "" && IsAngle(s[|s| - 1]) {
      AnglesShorten(s[..|s| - 1]);
    }
  }
}
