/** The fields of a Bug analysis: `_parse_bug_analysis_sections` of ucagent/checkers/toffee_report.py,
    on the lines of the analysis text. */
module Sections {
  import opened Text
  import opened Lists

  /** The title line and the marker line that open a field. */
  datatype Field = Field(title: string, marker: string)

  predicate IsTab(c: char)
  {
    c == ' ' || c == '\t'
  }

  /** The line without the spaces and tabs around it. */
  function Trim(s: string): string
    decreases |s|
  {
    if s != "" && IsTab(s[0]) then Trim(s[1..])
    else if s != "" && IsTab(s[|s| - 1]) then Trim(s[..|s| - 1])
    else s
  }

  /** Line `i`, and no other, consists of `text`. */
  ghost predicate OnlyLine(lines: seq<string>, text: string, i: nat)
  {
    i < |lines| && forall k: nat :: k < |lines| ==> (Trim(lines[k]) == text <==> k == i)
  }

  ghost predicate BlankBetween(lines: seq<string>, i: nat, j: nat)
    requires j <= |lines|
  {
    forall k: nat :: i < k < j ==> IsBlank(lines[k])
  }

  /** Title and marker lines of the fields: each occurs exactly once, the marker follows its title with only blank
      lines between, and the titles are in canonical order. */
  ghost predicate Layout(lines: seq<string>, fields: seq<Field>, titles: seq<nat>, markers: seq<nat>)
  {
    && |titles| == |markers| == |fields|
    && (forall k :: 0 <= k < |fields| ==>
          && OnlyLine(lines, fields[k].title, titles[k]) && OnlyLine(lines, fields[k].marker, markers[k])
          && titles[k] < markers[k] && BlankBetween(lines, titles[k], markers[k]))
    && (forall j, k :: 0 <= j < k < |fields| ==> titles[j] < titles[k])
  }

  /** The trimmed text of field `k`: from its marker to the next title. */
  function Body(lines: seq<string>, titles: seq<nat>, markers: seq<nat>, k: nat): string
    requires k < |titles| == |markers|
  {
    var end := if k + 1 < |titles| then titles[k + 1] else |lines|;
    if markers[k] < end <= |lines| then Strip(JoinWith(lines[markers[k] + 1..end], '\n')) else ""
  }

  function Bodies(lines: seq<string>, titles: seq<nat>, markers: seq<nat>): (r: seq<string>)
    requires |titles| == |markers|
    ensures |r| == |titles| && forall k :: 0 <= k < |r| ==> r[k] == Body(lines, titles, markers, k)
  {
    seq(|titles|, k requires 0 <= k < |titles| => Body(lines, titles, markers, k))
  }

  /** What the parser returns; None when some field is not in place or the order is not canonical. */
  ghost function SectionsOf(lines: seq<string>, fields: seq<Field>): Option<seq<string>>
  {
    if exists t, m :: Layout(lines, fields, t, m)
    then (var t, m :| Layout(lines, fields, t, m); Some(Bodies(lines, t, m)))
    else None
  }

  /** Titles and markers are different non-blank texts without white space around them. */
  ghost predicate ProperFields(fields: seq<Field>)
  {
    && (forall k :: 0 <= k < |fields| ==> IsClean(fields[k].title) && IsClean(fields[k].marker))
    && (forall j, k :: 0 <= j < |fields| && 0 <= k < |fields| ==> fields[j].title != fields[k].marker)
    && (forall j, k :: 0 <= j < k < |fields| ==> fields[j].title != fields[k].title && fields[j].marker != fields[k].marker)
  }

  // ---------------------------------------------------------------- a marker comes before the next title

  lemma {:induction false} TrimOfBlank(s: string)
    requires forall i :: 0 <= i < |s| ==> IsSpace(s[i])
    ensures forall i :: 0 <= i < |Trim(s)| ==> IsSpace(Trim(s)[i])
    decreases |s|
  {
    if s != "" && IsTab(s[0]) {
      TrimOfBlank(s[1..]);
    } else if s != "" && IsTab(s[|s| - 1]) {
      TrimOfBlank(s[..|s| - 1]);
    }
  }

  lemma {:induction false} BlankIsSpaces(s: string)
    requires LStrip(s) == ""
    ensures forall i :: 0 <= i < |s| ==> IsSpace(s[i])
    decreases |s|
  {
    if s != "" {
      BlankIsSpaces(s[1..]);
      assert forall i :: 1 <= i < |s| ==> s[i] == s[1..][i - 1];
    }
  }

  lemma {:induction false} RStripOfClean(s: string)
    requires s != "" && !IsSpace(s[0])
    ensures RStrip(s) != ""
    decreases |s|
  {
    if IsSpace(s[|s| - 1]) {
      RStripOfClean(s[..|s| - 1]);
    }
  }

  lemma BlankLineIsNoText(line: string, text: string)
    requires IsBlank(line) && IsClean(text)
    ensures Trim(line) != text
  {
    LStripFacts(line);
    if LStrip(line) != "" {
      RStripOfClean(LStrip(line));
    }
    BlankIsSpaces(line);
    TrimOfBlank(line);
  }

  lemma MarkerBeforeNextTitle(lines: seq<string>, fields: seq<Field>, titles: seq<nat>, markers: seq<nat>, j: nat, k: nat)
    requires ProperFields(fields) && Layout(lines, fields, titles, markers) && j < k < |fields|
    ensures markers[j] < titles[k] < |lines|
  {
    hide Trim, IsBlank, IsClean;
    var x := titles[k];
    assert Trim(lines[x]) == fields[k].title;
    assert OnlyLine(lines, fields[j].marker, markers[j]) && fields[k].title != fields[j].marker;
    if x < markers[j] {
      BlankLineIsNoText(lines[x], fields[k].title);
    }
  }

  /** The layout of a text is unique. */
  lemma LayoutUnique(lines: seq<string>, fields: seq<Field>, t1: seq<nat>, m1: seq<nat>, t2: seq<nat>, m2: seq<nat>)
    requires Layout(lines, fields, t1, m1) && Layout(lines, fields, t2, m2)
    ensures t1 == t2 && m1 == m2
  {
    hide Trim, IsBlank;
    forall k | 0 <= k < |fields| ensures t1[k] == t2[k] && m1[k] == m2[k] {
      assert OnlyLine(lines, fields[k].title, t1[k]) && OnlyLine(lines, fields[k].title, t2[k]);
      assert OnlyLine(lines, fields[k].marker, m1[k]) && OnlyLine(lines, fields[k].marker, m2[k]);
      assert Trim(lines[t1[k]]) == fields[k].title && Trim(lines[m1[k]]) == fields[k].marker;
    }
  }

  // ---------------------------------------------------------------- the parser

  method FindLines(lines: seq<string>, text: string) returns (found: seq<nat>)
    ensures forall k: nat :: k in found <==> k < |lines| && Trim(lines[k]) == text
    ensures NoDup(found)
  {
    hide Trim;
    found := [];
    for i := 0 to |lines|
      invariant forall k: nat :: k in found <==> k < i && Trim(lines[k]) == text
      invariant NoDup(found)
    {
      if Trim(lines[i]) == text {
        found := found + [i];
      }
    }
  }

  lemma FoundOnly(lines: seq<string>, text: string, found: seq<nat>)
    requires forall k: nat :: k in found <==> k < |lines| && Trim(lines[k]) == text
    requires NoDup(found)
    ensures |found| == 1 ==> OnlyLine(lines, text, found[0])
    ensures |found| != 1 ==> forall i: nat :: !OnlyLine(lines, text, i)
  {
    hide Trim;
    if |found| == 1 {
      assert found[0] in found && forall k: nat :: k in found <==> k == found[0];
    } else {
      assert |found| >= 2 ==> found[0] in found && found[1] in found && found[0] != found[1];
      forall i: nat ensures !OnlyLine(lines, text, i) {
        assert i in found <==> i < |lines| && Trim(lines[i]) == text;
      }
    }
  }

  /** The title and marker of one field; None when they are missing, repeated or not adjacent. */
  method FindPair(lines: seq<string>, field: Field) returns (r: Option<(nat, nat)>)
    ensures r.Some? ==> OnlyLine(lines, field.title, r.value.0) && OnlyLine(lines, field.marker, r.value.1)
                        && r.value.0 < r.value.1 && BlankBetween(lines, r.value.0, r.value.1)
    ensures r.None? ==> forall t: nat, m: nat ::
                          OnlyLine(lines, field.title, t) && OnlyLine(lines, field.marker, m) ==>
                            t >= m || !BlankBetween(lines, t, m)
  {
    hide Trim, IsBlank;
    var markers := FindLines(lines, field.marker);
    FoundOnly(lines, field.marker, markers);
    if |markers| != 1 {
      return None;
    }
    var titles := FindLines(lines, field.title);
    FoundOnly(lines, field.title, titles);
    if |titles| != 1 {
      return None;
    }
    var t, m := titles[0], markers[0];
    OnlyOne(lines, field.title, t);
    OnlyOne(lines, field.marker, m);
    if m <= t {
      return None;
    }
    for k := t + 1 to m
      invariant forall i: nat :: t < i < k ==> IsBlank(lines[i])
    {
      if !IsBlank(lines[k]) {
        return None;
      }
    }
    r := Some((t, m));
  }

  lemma OnlyOne(lines: seq<string>, text: string, i: nat)
    requires OnlyLine(lines, text, i)
    ensures forall j: nat :: OnlyLine(lines, text, j) ==> j == i
  {
    hide Trim;
    assert Trim(lines[i]) == text;
  }

  ghost predicate Placed(lines: seq<string>, field: Field, t: nat, m: nat)
  {
    OnlyLine(lines, field.title, t) && OnlyLine(lines, field.marker, m) && t < m && BlankBetween(lines, t, m)
  }

  method ParseBugAnalysisSections(lines: seq<string>, fields: seq<Field>) returns (bodies: Option<seq<string>>)
    ensures bodies == SectionsOf(lines, fields)
  {
    hide OnlyLine, BlankBetween, IsBlank, Body, IsClean, Layout, Placed;
    var titles: seq<nat>, markers: seq<nat> := [], [];
    for k := 0 to |fields|
      invariant |titles| == |markers| == k
      invariant forall j :: 0 <= j < k ==> Placed(lines, fields[j], titles[j], markers[j])
    {
      var pair := FindPair(lines, fields[k]);
      if pair.None? {
        Misplaced(lines, fields, k);
        return None;
      }
      IsPlaced(lines, fields[k], pair.value.0, pair.value.1);
      titles, markers := titles + [pair.value.0], markers + [pair.value.1];
    }
    var i := 1;
    while i < |fields|
      invariant 1 <= i && forall j, k :: 0 <= j < k < i && k < |fields| ==> titles[j] < titles[k]
    {
      if titles[i] <= titles[i - 1] {
        OutOfOrder(lines, fields, titles, markers, i);
        return None;
      }
      i := i + 1;
    }
    InPlace(lines, fields, titles, markers);
    bodies := Some(Bodies(lines, titles, markers));
  }

  lemma IsPlaced(lines: seq<string>, field: Field, t: nat, m: nat)
    requires OnlyLine(lines, field.title, t) && OnlyLine(lines, field.marker, m) && t < m && BlankBetween(lines, t, m)
    ensures Placed(lines, field, t, m)
  {
  }

  lemma InPlace(lines: seq<string>, fields: seq<Field>, titles: seq<nat>, markers: seq<nat>)
    requires |titles| == |markers| == |fields|
    requires forall k :: 0 <= k < |fields| ==> Placed(lines, fields[k], titles[k], markers[k])
    requires forall j, k :: 0 <= j < k < |fields| ==> titles[j] < titles[k]
    ensures Layout(lines, fields, titles, markers) && SectionsOf(lines, fields) == Some(Bodies(lines, titles, markers))
  {
    hide OnlyLine, BlankBetween, Bodies;
    assert forall k :: 0 <= k < |fields| ==> Placed(lines, fields[k], titles[k], markers[k]);
    assert Layout(lines, fields, titles, markers);
    LayoutIsSections(lines, fields, titles, markers);
  }

  lemma LayoutIsSections(lines: seq<string>, fields: seq<Field>, titles: seq<nat>, markers: seq<nat>)
    requires Layout(lines, fields, titles, markers)
    ensures |titles| == |markers| && SectionsOf(lines, fields) == Some(Bodies(lines, titles, markers))
  {
    LayoutLengths(lines, fields, titles, markers);
    hide Layout, Bodies;
    forall t, m | Layout(lines, fields, t, m) ensures t == titles && m == markers {
      LayoutUnique(lines, fields, t, m, titles, markers);
    }
  }

  lemma LayoutLengths(lines: seq<string>, fields: seq<Field>, titles: seq<nat>, markers: seq<nat>)
    requires Layout(lines, fields, titles, markers)
    ensures |titles| == |markers| == |fields|
  {
  }

  lemma Misplaced(lines: seq<string>, fields: seq<Field>, k: nat)
    requires k < |fields|
    requires forall t: nat, m: nat :: OnlyLine(lines, fields[k].title, t) && OnlyLine(lines, fields[k].marker, m) ==>
               t >= m || !BlankBetween(lines, t, m)
    ensures SectionsOf(lines, fields).None?
  {
    hide Trim, BlankBetween, Bodies;
    forall t: seq<nat>, m: seq<nat> ensures !Layout(lines, fields, t, m) {
      if |t| == |m| == |fields| && OnlyLine(lines, fields[k].title, t[k]) && OnlyLine(lines, fields[k].marker, m[k]) {
        assert t[k] >= m[k] || !BlankBetween(lines, t[k], m[k]);
      }
    }
  }

  lemma OutOfOrder(lines: seq<string>, fields: seq<Field>, titles: seq<nat>, markers: seq<nat>, i: nat)
    requires 1 <= i < |fields| && |titles| == |fields| && titles[i] <= titles[i - 1]
    requires |markers| == |fields| && forall j :: 0 <= j < |fields| ==> Placed(lines, fields[j], titles[j], markers[j])
    ensures SectionsOf(lines, fields).None?
  {
    hide Layout, Bodies, Placed;
    OrderForced(lines, fields, titles, markers, i);
  }

  lemma OrderForced(lines: seq<string>, fields: seq<Field>, titles: seq<nat>, markers: seq<nat>, i: nat)
    requires 1 <= i < |fields| && |titles| == |markers| == |fields|
    requires Placed(lines, fields[i], titles[i], markers[i]) && Placed(lines, fields[i - 1], titles[i - 1], markers[i - 1])
    ensures forall t, m :: Layout(lines, fields, t, m) ==> titles[i - 1] < titles[i]
  {
    hide Layout, Placed;
    forall t, m | Layout(lines, fields, t, m) ensures titles[i - 1] < titles[i] {
      SameOrder(lines, fields, titles, markers, i, t, m);
    }
  }

  lemma SameOrder(lines: seq<string>, fields: seq<Field>, titles: seq<nat>, markers: seq<nat>, i: nat, t: seq<nat>,
                  m: seq<nat>)
    requires 1 <= i < |fields| && |titles| == |markers| == |fields| && Layout(lines, fields, t, m)
    requires Placed(lines, fields[i], titles[i], markers[i]) && Placed(lines, fields[i - 1], titles[i - 1], markers[i - 1])
    ensures titles[i - 1] < titles[i]
  {
    hide OnlyLine, BlankBetween;
    OnlyOne(lines, fields[i].title, titles[i]);
    OnlyOne(lines, fields[i - 1].title, titles[i - 1]);
    assert OnlyLine(lines, fields[i].title, t[i]) && OnlyLine(lines, fields[i - 1].title, t[i - 1]);
  }

  // ---------------------------------------------------------------- rendering

  /** Text before the first field, and for each field its title, its marker and its body. */
  function RenderedFrom(fields: seq<Field>, bodies: seq<seq<string>>, k: nat): seq<string>
    requires k <= |fields| == |bodies|
    decreases |fields| - k
  {
    if k == |fields| then []
    else [fields[k].title, fields[k].marker] + bodies[k] + RenderedFrom(fields, bodies, k + 1)
  }

  function Rendered(front: seq<string>, fields: seq<Field>, bodies: seq<seq<string>>): seq<string>
    requires |fields| == |bodies|
  {
    front + RenderedFrom(fields, bodies, 0)
  }

  /** The title line of field `k`. */
  function TitleLine(front: seq<string>, bodies: seq<seq<string>>, k: nat): nat
    requires k <= |bodies|
  {
    if k == 0 then |front| else TitleLine(front, bodies, k - 1) + 2 + |bodies[k - 1]|
  }

  /** The line is no title and no marker of the fields. */
  ghost predicate PlainLine(line: string, fields: seq<Field>)
  {
    forall k :: 0 <= k < |fields| ==> Trim(line) != fields[k].title && Trim(line) != fields[k].marker
  }

  ghost predicate PlainLines(lines: seq<string>, fields: seq<Field>)
  {
    forall i :: 0 <= i < |lines| ==> PlainLine(lines[i], fields)
  }

  lemma TrimOfClean(s: string)
    requires IsClean(s)
    ensures Trim(s) == s
  {
  }

  /** Field `k` and what follows it start at its title line. */
  lemma {:induction false} RenderedAt(front: seq<string>, fields: seq<Field>, bodies: seq<seq<string>>, k: nat)
    requires k <= |fields| == |bodies|
    ensures TitleLine(front, bodies, k) <= |Rendered(front, fields, bodies)|
    ensures Rendered(front, fields, bodies)[TitleLine(front, bodies, k)..] == RenderedFrom(fields, bodies, k)
    decreases k
  {
    var lines := Rendered(front, fields, bodies);
    if k == 0 {
      assert lines[|front|..] == RenderedFrom(fields, bodies, 0);
    } else {
      RenderedAt(front, fields, bodies, k - 1);
      var at := TitleLine(front, bodies, k - 1);
      var head := [fields[k - 1].title, fields[k - 1].marker] + bodies[k - 1];
      assert lines[at..] == head + RenderedFrom(fields, bodies, k);
      assert lines[at..][|head|..] == lines[at + |head|..];
    }
  }

  lemma FieldLines(front: seq<string>, fields: seq<Field>, bodies: seq<seq<string>>, k: nat)
    requires k < |fields| == |bodies|
    ensures var lines, at := Rendered(front, fields, bodies), TitleLine(front, bodies, k);
            && at + 2 + |bodies[k]| == TitleLine(front, bodies, k + 1) <= |lines|
            && lines[at] == fields[k].title && lines[at + 1] == fields[k].marker
            && lines[at + 2..at + 2 + |bodies[k]|] == bodies[k]
  {
    hide Rendered;
    RenderedAt(front, fields, bodies, k);
    RenderedAt(front, fields, bodies, k + 1);
    var lines, at := Rendered(front, fields, bodies), TitleLine(front, bodies, k);
    var head := [fields[k].title, fields[k].marker];
    PieceOfTail(lines, at, head, bodies[k], RenderedFrom(fields, bodies, k + 1));
    assert head[0] == fields[k].title && head[1] == fields[k].marker;
  }

  lemma {:induction false} TitleLinesIncrease(front: seq<string>, bodies: seq<seq<string>>, j: nat, k: nat)
    requires j < k <= |bodies|
    ensures TitleLine(front, bodies, j) + 2 + |bodies[j]| <= TitleLine(front, bodies, k)
    decreases k
  {
    if j < k - 1 {
      TitleLinesIncrease(front, bodies, j, k - 1);
    }
  }

  /** Where a line that is not plain can be. */
  lemma {:induction false} FindField(front: seq<string>, fields: seq<Field>, bodies: seq<seq<string>>, x: nat, n: nat)
    returns (k: nat)
    requires n <= |fields| == |bodies| && x < TitleLine(front, bodies, n) && |front| <= x
    ensures k < n && TitleLine(front, bodies, k) <= x < TitleLine(front, bodies, k + 1)
    decreases n
  {
    if x >= TitleLine(front, bodies, n - 1) {
      k := n - 1;
    } else {
      k := FindField(front, fields, bodies, x, n - 1);
    }
  }

  lemma LineKind(front: seq<string>, fields: seq<Field>, bodies: seq<seq<string>>, x: nat) returns (k: nat)
    requires |fields| == |bodies| && x < |Rendered(front, fields, bodies)|
    requires PlainLines(front, fields) && forall i :: 0 <= i < |bodies| ==> PlainLines(bodies[i], fields)
    ensures var line := Rendered(front, fields, bodies)[x];
            PlainLine(line, fields) ||
            (k < |fields| &&
             ((x == TitleLine(front, bodies, k) && line == fields[k].title) ||
              (x == TitleLine(front, bodies, k) + 1 && line == fields[k].marker)))
  {
    hide PlainLine, RenderedFrom;
    RenderedAt(front, fields, bodies, |fields|);
    EmptyTail(fields, bodies);
    k := 0;
    if x >= |front| {
      k := FindField(front, fields, bodies, x, |fields|);
      FieldLines(front, fields, bodies, k);
      var lines, at := Rendered(front, fields, bodies), TitleLine(front, bodies, k);
      if x >= at + 2 {
        assert lines[at + 2..at + 2 + |bodies[k]|][x - at - 2] == lines[x];
      }
    }
  }

  lemma EmptyTail(fields: seq<Field>, bodies: seq<seq<string>>)
    requires |fields| == |bodies|
    ensures RenderedFrom(fields, bodies, |fields|) == []
  {
  }

  lemma FieldIsOnly(front: seq<string>, fields: seq<Field>, bodies: seq<seq<string>>, k: nat)
    requires ProperFields(fields) && k < |fields| == |bodies|
    requires PlainLines(front, fields) && forall i :: 0 <= i < |bodies| ==> PlainLines(bodies[i], fields)
    ensures var lines, at := Rendered(front, fields, bodies), TitleLine(front, bodies, k);
            OnlyLine(lines, fields[k].title, at) && OnlyLine(lines, fields[k].marker, at + 1)
  {
    hide PlainLines, Rendered, Trim, IsClean, TitleLine;
    FieldLines(front, fields, bodies, k);
    TrimOfClean(fields[k].title);
    TrimOfClean(fields[k].marker);
    var lines, at := Rendered(front, fields, bodies), TitleLine(front, bodies, k);
    forall x: nat | x < |lines|
      ensures (Trim(lines[x]) == fields[k].title <==> x == at) && (Trim(lines[x]) == fields[k].marker <==> x == at + 1) {
      var j := LineKind(front, fields, bodies, x);
      if !PlainLine(lines[x], fields) {
        TrimOfClean(fields[j].title);
        TrimOfClean(fields[j].marker);
      }
    }
  }

  /** Parsing a rendered analysis returns the bodies, up to trimming. */
  lemma RenderedSectionsAreRead(front: seq<string>, fields: seq<Field>, bodies: seq<seq<string>>)
    requires ProperFields(fields) && |fields| == |bodies|
    requires PlainLines(front, fields) && forall i :: 0 <= i < |bodies| ==> PlainLines(bodies[i], fields)
    ensures SectionsOf(Rendered(front, fields, bodies), fields) ==
            Some(Map(bodies, (b: seq<string>) => Strip(JoinWith(b, '\n'))))
  {
    hide OnlyLine, PlainLines, Rendered, Strip, JoinWith, SectionsOf, Trim, ProperFields, TitleLine;
    var lines := Rendered(front, fields, bodies);
    var n := |fields|;
    var titles: seq<nat> := seq(n, k requires 0 <= k < n => TitleLine(front, bodies, k));
    var markers: seq<nat> := seq(n, k requires 0 <= k < n => TitleLine(front, bodies, k) + 1);
    forall k | 0 <= k < n ensures Placed(lines, fields[k], titles[k], markers[k]) {
      FieldIsOnly(front, fields, bodies, k);
    }
    forall j, k | 0 <= j < k < n ensures titles[j] < titles[k] {
      TitleLinesIncrease(front, bodies, j, k);
    }
    InPlace(lines, fields, titles, markers);
    forall k | 0 <= k < n ensures Body(lines, titles, markers, k) == Strip(JoinWith(bodies[k], '\n')) {
      FieldLines(front, fields, bodies, k);
      LastLine(front, fields, bodies);
    }
    assert Bodies(lines, titles, markers) == Map(bodies, (b: seq<string>) => Strip(JoinWith(b, '\n')));
  }

  lemma LastLine(front: seq<string>, fields: seq<Field>, bodies: seq<seq<string>>)
    requires |fields| == |bodies|
    ensures TitleLine(front, bodies, |fields|) == |Rendered(front, fields, bodies)|
  {
    hide Rendered, TitleLine;
    RenderedAt(front, fields, bodies, |fields|);
    EmptyTail(fields, bodies);
  }
}
