/** Central waveform records as the writing tool lays them out, and what the parser of
    ucagent/checkers/toffee_report.py makes of them. */
module WaveformWriter {
  import opened Text
  import opened Lists
  import opened Records
  import opened DynamicBugs
  import opened TestTags
  import opened Waveform

  /** A record to be written: its heading line, YAML lines and viewer link, with what they stand for. */
  datatype Central = Central(test: string, title: string, heading: string, yaml: seq<string>, data: Payload, viewer: string)

  ghost predicate Writable(r: Central, p: Protocol)
  {
    && NormalizeTestCaseTag(r.test).Some? && p.anchor(r.test) != "" && '"' !in p.anchor(r.test)
    && Strip(r.heading) != "" && p.recordHeading(Strip(r.heading)) == Some((r.test, r.title))
    && (forall k :: 0 <= k < |r.yaml| ==> !IsFence(Strip(r.yaml[k]))) && p.payload(r.yaml) == Some(r.data)
    && Strip(r.viewer) != "" && p.viewerLink(Strip(r.viewer))
  }

  function AnchorLine(p: Protocol, test: string): string
  {
    ANCHOR_OPEN + p.anchor(test) + ANCHOR_CLOSE
  }

  function Rendered(r: Central, p: Protocol): seq<string>
  {
    [AnchorLine(p, r.test), r.heading, "```yaml"] + r.yaml + ["```", r.viewer]
  }

  /** All records, one after the other. */
  function RenderedAll(rs: seq<Central>, p: Protocol): seq<string>
  {
    if rs == [] then [] else Rendered(rs[0], p) + RenderedAll(rs[1..], p)
  }

  /** The parser's view of the records when the first one starts at line `i`. */
  function EntriesOf(rs: seq<Central>, i: nat): seq<Entry>
  {
    if rs == [] then []
    else [Entry(rs[0].test, rs[0].title, i + 2, rs[0].data)] + EntriesOf(rs[1..], i + 5 + |rs[0].yaml|)
  }

  lemma AnchorReadsBack(p: Protocol, test: string)
    requires p.anchor(test) != "" && '"' !in p.anchor(test)
    ensures Strip(AnchorLine(p, test)) == AnchorLine(p, test) && AnchorLine(p, test) != ""
    ensures AnchorIn(AnchorLine(p, test)) == Some(p.anchor(test))
  {
    var text, id := AnchorLine(p, test), p.anchor(test);
    assert text[0] == '<' && text[|text| - 1] == '>';
    CleanIsStripped(text);
    assert text[..|ANCHOR_OPEN|] == ANCHOR_OPEN;
    assert text[|text| - |ANCHOR_CLOSE|..] == ANCHOR_CLOSE;
    assert text[|ANCHOR_OPEN|..|text| - |ANCHOR_CLOSE|] == id;
  }

  lemma FenceTexts()
    ensures Strip("```yaml") == "```yaml" && Lower("```yaml") == "```yaml" && Strip("```") == "```"
  {
    CleanIsStripped("```yaml");
    CleanIsStripped("```");
    assert Lower("```yaml") == "```yaml";
  }

  lemma {:induction false} FenceCloses(lines: seq<string>, i: nat, close: nat, end: nat)
    requires i <= close < end <= |lines| && Strip(lines[close]) == "```"
    requires forall k: nat :: i <= k < close ==> !IsFence(Strip(lines[k]))
    ensures FenceClose(lines, i, end) == Some(close)
    decreases close - i
  {
    hide Strip;
    if i < close {
      FenceCloses(lines, i + 1, close, end);
    }
  }

  lemma StartsHere(lines: seq<string>, i: nat, end: nat)
    requires i < end <= |lines| && Strip(lines[i]) != ""
    ensures NextText(lines, i, end) == i
  {
  }

  lemma LinesOfRendered(lines: seq<string>, i: nat, r: Central, p: Protocol)
    requires i + 5 + |r.yaml| <= |lines| && lines[i..i + 5 + |r.yaml|] == Rendered(r, p)
    ensures lines[i] == AnchorLine(p, r.test) && lines[i + 1] == r.heading && lines[i + 2] == "```yaml"
    ensures lines[i + 3..i + 3 + |r.yaml|] == r.yaml
    ensures lines[i + 3 + |r.yaml|] == "```" && lines[i + 4 + |r.yaml|] == r.viewer
  {
    hide AnchorLine;
    var n := |r.yaml|;
    var text := lines[i..i + 5 + n];
    assert text == Rendered(r, p);
    assert text[0] == lines[i] && text[1] == lines[i + 1] && text[2] == lines[i + 2];
    SliceAt(lines, i, i + 5 + n, 3 + n);
    SliceAt(lines, i, i + 5 + n, 4 + n);
    assert Rendered(r, p)[3 + n] == "```" && Rendered(r, p)[4 + n] == r.viewer;
    SliceOfSlice(lines, i, i + 5 + n, 3, 3 + n);
    var head := [AnchorLine(p, r.test), r.heading, "```yaml"];
    Middle(head, r.yaml, ["```", r.viewer]);
    assert (head + r.yaml + ["```", r.viewer])[3..3 + n] == r.yaml by {
      assert |head| == 3;
    }
    assert text[3..3 + n] == r.yaml;
    assert lines[i + 3..i + (3 + n)] == r.yaml;
  }

  lemma FencesInYaml(lines: seq<string>, from: nat, yaml: seq<string>)
    requires from + |yaml| <= |lines| && lines[from..from + |yaml|] == yaml
    requires forall k :: 0 <= k < |yaml| ==> !IsFence(Strip(yaml[k]))
    ensures forall k: nat :: from <= k < from + |yaml| ==> !IsFence(Strip(lines[k]))
  {
    hide Strip, IsFence;
    forall k: nat | from <= k < from + |yaml| ensures !IsFence(Strip(lines[k])) {
      assert lines[from..from + |yaml|][k - from] == lines[k];
    }
  }

  lemma EntryOfRendered(lines: seq<string>, i: nat, end: nat, r: Central, p: Protocol)
    requires Writable(r, p) && i + 5 + |r.yaml| <= end <= |lines|
    requires lines[i..i + 5 + |r.yaml|] == Rendered(r, p)
    ensures NextText(lines, i, end) == i
    ensures EntryAt(lines, i, end, p) == Some((Entry(r.test, r.title, i + 2, r.data), i + 5 + |r.yaml|))
  {
    hide Strip, Lower, AnchorIn, FenceClose, NextText, AnchorLine, Rendered, IsFence, NormalizeTestCaseTag;
    var n := |r.yaml|;
    LinesOfRendered(lines, i, r, p);
    AnchorReadsBack(p, r.test);
    FenceTexts();
    StartsHere(lines, i, end);
    StartsHere(lines, i + 1, end);
    StartsHere(lines, i + 2, end);
    StartsHere(lines, i + 4 + n, end);
    FencesInYaml(lines, i + 3, r.yaml);
    FenceCloses(lines, i + 3, i + 3 + n, end);
  }

  lemma {:induction false} EntriesFromRendered(lines: seq<string>, i: nat, end: nat, rs: seq<Central>, p: Protocol)
    requires forall r :: r in rs ==> Writable(r, p)
    requires i <= end <= |lines| && lines[i..end] == RenderedAll(rs, p)
    ensures EntriesFrom(lines, i, end, p) == Some(EntriesOf(rs, i))
    decreases |rs|
  {
    hide Writable, EntryAt, NextText, Rendered, Strip;
    if rs == [] {
      assert i == end;
      AtEnd(lines, i, end, p);
    } else {
      var r := rs[0];
      var n := 5 + |r.yaml|;
      RenderedLength(r, p);
      assert r in rs;
      assert lines[i..i + n] == Rendered(r, p) by {
        assert lines[i..end][..n] == lines[i..i + n];
      }
      assert lines[i + n..end] == RenderedAll(rs[1..], p) by {
        assert lines[i..end][n..] == lines[i + n..end];
      }
      EntryOfRendered(lines, i, end, r, p);
      EntriesFromRendered(lines, i + n, end, rs[1..], p);
    }
  }

  lemma RenderedLength(r: Central, p: Protocol)
    ensures |Rendered(r, p)| == 5 + |r.yaml|
  {
  }

  /** Reading back what is written: for any text around the evidence container, the parser finds exactly the
      written records, in order. */
  lemma WrittenRecordsAreRead(front: seq<string>, rs: seq<Central>, back: seq<string>, p: Protocol)
    requires forall r :: r in rs ==> Writable(r, p)
    ensures var lines := front + RenderedAll(rs, p) + back;
            EntriesFrom(lines, |front|, |front| + |RenderedAll(rs, p)|, p) == Some(EntriesOf(rs, |front|))
  {
    hide Writable, RenderedAll, EntriesFrom;
    var text := RenderedAll(rs, p);
    var lines := front + text + back;
    assert lines[|front|..|front| + |text|] == text;
    EntriesFromRendered(lines, |front|, |front| + |text|, rs, p);
  }
}
