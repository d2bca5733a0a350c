/** Mapping files: the strict parser, its rendering, and the check of one line block
    (ucagent/checkers/file_linemap.py). */
module LineMapFile {
  import opened Text
  import opened LineRanges
  import opened TaskTokens

  // ---------------------------------------------------------------- the world being checked

  /** A workspace file: its physical lines and the digest of its contents. */
  datatype FileText = Unreadable | Readable(lines: seq<string>, digest: Digest)

  /** Everything one call reads. It is fixed during a call and may change between calls.
      `matched`: all results of the file patterns; `strayMaps`: mapping files with a line-range
      suffix; `cks`: the checkpoints of the function/check document, or None if it cannot be read. */
  datatype World = World(
    matched: seq<string>, files: map<string, FileText>, strayMaps: seq<string>, cks: Option<seq<string>>)

  /** The constructor's options; it rejects a batch or block size below one. */
  datatype Options = Options(
    mapLocation: string, mapSuffix: string, batchSize: int, maxBlockLines: int,
    ignoreBlankLines: bool, mustHaveNoMissMatch: bool)

  type Config = c: Options | c.batchSize >= 1 && c.maxBlockLines >= 1
    witness Options("line_map", "_line_func_map.txt", 1, 100, true, true)

  /** `name.replace("/", "_").replace(".", "_")`. */
  function MapStem(file: string): (r: string)
    ensures |r| == |file|
  {
    if file == "" then ""
    else [if file[0] == '/' || file[0] == '.' then '_' else file[0]] + MapStem(file[1..])
  }

  /** `_mapping_file_for_source`. */
  function MapFile(cfg: Config, file: string): string
  {
    cfg.mapLocation + "/" + MapStem(file) + cfg.mapSuffix
  }

  // ---------------------------------------------------------------- one line of a mapping file

  datatype MapLine = Skipped | Rejected | Mapping(key: string, spans: seq<Span>)

  predicate AllNonEmpty(parts: seq<string>)
  {
    forall i :: 0 <= i < |parts| ==> parts[i] != ""
  }

  function StripEach(parts: seq<string>): (r: seq<string>)
    ensures |r| == |parts| && forall i :: 0 <= i < |r| ==> r[i] == Strip(parts[i])
  {
    if parts == [] then [] else [Strip(parts[0])] + StripEach(parts[1..])
  }

  /** The three accepted shapes of a key; an IGNORE key needs a reason after `#`. */
  predicate KeyShape(parts: seq<string>, reason: string)
  {
    && |parts| == 3 && AllNonEmpty(parts)
    && "FC-" <= parts[1] && "CK-" <= parts[2]
    && ("FG-" <= parts[0] || parts[0] == "MISSMT" || (parts[0] == "IGNORE" && reason != ""))
  }

  /** A range inside a file of `count` lines and at most `limit` lines long. */
  predicate RangeAllowed(s: Span, count: nat, limit: nat)
  {
    1 <= s.0 && s.1 <= count && s.1 - s.0 + 1 <= limit
  }

  function ParseRange(piece: string, count: nat, limit: nat): (r: Option<Span>)
    ensures r.Some? ==> RangeAllowed(r.value, count, limit)
  {
    var text := Strip(piece);
    var dash := IndexOf(text, '-');
    if dash == -1 then None
    else
      var start, end := Strip(text[..dash]), Strip(text[dash + 1..]);
      if start == "" || end == "" || !AllDigits(start) || !AllDigits(end) then None
      else
        var s, e := DigitsValue(start), DigitsValue(end);
        if s < 1 || s > e || e - s + 1 > limit || e > count then None else Some((s, e))
  }

  function ParseRanges(pieces: seq<string>, count: nat, limit: nat): (r: Option<seq<Span>>)
    ensures r.Some? ==> |r.value| == |pieces|
    ensures r.Some? ==> forall i :: 0 <= i < |pieces| ==> ParseRange(pieces[i], count, limit) == Some(r.value[i])
    ensures r.None? ==> exists i :: 0 <= i < |pieces| && ParseRange(pieces[i], count, limit).None?
  {
    hide ParseRange, RangeAllowed;
    if pieces == [] then Some([])
    else
      var head, tail := ParseRange(pieces[0], count, limit), ParseRanges(pieces[1..], count, limit);
      if head.None? || tail.None? then None else Some([head.value] + tail.value)
  }

  /** The text of a line before `#`, and the stripped comment after it. */
  function ValueAndComment(raw: string): (string, string)
  {
    var hash := IndexOf(raw, '#');
    if hash == -1 then (Strip(raw), "") else (Strip(raw[..hash]), Strip(raw[hash + 1..]))
  }

  /** One iteration of `_parse_strict_line_map`; Rejected stands for its ValueError. */
  function ParseLine(raw: string, count: nat, limit: nat): MapLine
  {
    var stripped := Strip(raw);
    if stripped == "" || stripped[0] == '#' then Skipped
    else
      var (value, comment) := ValueAndComment(raw);
      var colon := IndexOf(value, ':');
      if colon == -1 then Rejected
      else
        var key := Strip(value[..colon]);
        if !KeyShape(StripEach(SplitOn(key, '/')), comment) then Rejected
        else
          match ParseRanges(SplitOn(value[colon + 1..], ','), count, limit)
          case None => Rejected
          case Some(spans) => Mapping(key, spans)
  }

  // ---------------------------------------------------------------- rendering a line

  function RangeText(s: Span): string
  {
    NatText(s.0) + "-" + NatText(s.1)
  }

  function RangeTexts(spans: seq<Span>): (r: seq<string>)
    ensures |r| == |spans| && forall i :: 0 <= i < |r| ==> r[i] == RangeText(spans[i])
  {
    if spans == [] then [] else [RangeText(spans[0])] + RangeTexts(spans[1..])
  }

  /** `a/b/c:1-2,5-9 # reason`. */
  function RenderLine(parts: seq<string>, spans: seq<Span>, reason: string): string
  {
    JoinWith(parts, '/') + ":" + JoinWith(RangeTexts(spans), ',') + " #" + reason
  }

  ghost predicate PlainSegments(parts: seq<string>)
  {
    parts != [] && forall i :: 0 <= i < |parts| ==>
      IsClean(parts[i]) && '/' !in parts[i] && ':' !in parts[i] && '#' !in parts[i]
  }

  lemma ParseRangeOfText(s: Span, count: nat, limit: nat)
    ensures ParseRange(RangeText(s), count, limit) == if RangeAllowed(s, count, limit) then Some(s) else None
  {
    var a, b := NatText(s.0), NatText(s.1);
    NatTextShape(s.0);
    NatTextShape(s.1);
    var text := a + "-" + b;
    CleanIsStripped(text);
    assert text[|a|] == '-';
    assert forall k :: 0 <= k < |a| ==> text[k] == a[k];
    assert IndexOf(text, '-') == |a|;
    assert text[..|a|] == a && text[|a| + 1..] == b;
    CleanIsStripped(a);
    CleanIsStripped(b);
    NatTextRoundTrip(s.0);
    NatTextRoundTrip(s.1);
  }

  lemma {:induction false} JoinChars(pieces: seq<string>, c: char, d: char)
    requires c != d && forall i :: 0 <= i < |pieces| ==> d !in pieces[i]
    ensures d !in JoinWith(pieces, c)
    decreases |pieces|
  {
    if |pieces| > 1 {
      JoinChars(pieces[1..], c, d);
    }
  }

  lemma {:induction false} JoinEnds(pieces: seq<string>, c: char)
    requires pieces != [] && forall i :: 0 <= i < |pieces| ==> IsClean(pieces[i])
    ensures IsClean(JoinWith(pieces, c))
    decreases |pieces|
  {
    if |pieces| > 1 {
      JoinEnds(pieces[1..], c);
      var rest := JoinWith(pieces[1..], c);
      assert JoinWith(pieces, c) == pieces[0] + [c] + rest;
    }
  }

  lemma RangeTextChars(s: Span)
    ensures IsClean(RangeText(s)) && ',' !in RangeText(s) && '#' !in RangeText(s)
  {
    var a, b := NatText(s.0), NatText(s.1);
    NatTextShape(s.0);
    NatTextShape(s.1);
    var text := a + "-" + b;
    assert forall k :: 0 <= k < |text| ==> IsDigit(text[k]) || text[k] == '-';
    assert text[0] == a[0] && text[|text| - 1] == b[|b| - 1];
  }

  lemma RangeTextShape(spans: seq<Span>)
    requires spans != []
    ensures IsClean(JoinWith(RangeTexts(spans), ','))
    ensures '#' !in JoinWith(RangeTexts(spans), ',')
    ensures SplitOn(JoinWith(RangeTexts(spans), ','), ',') == RangeTexts(spans)
  {
    var texts := RangeTexts(spans);
    forall i | 0 <= i < |texts| ensures IsClean(texts[i]) && ',' !in texts[i] && '#' !in texts[i] {
      RangeTextChars(spans[i]);
    }
    JoinEnds(texts, ',');
    JoinChars(texts, ',', '#');
    SplitOfJoin(texts, ',');
  }

  /** Exactly which rendered lines are accepted, and then key and ranges are read back: the key has three segments, an FC
      and a CK behind an FG, behind MISSMT, or behind IGNORE with a reason; and every range lies inside the file and the
      block limit. */
  lemma ParseOfRendered(parts: seq<string>, spans: seq<Span>, reason: string, count: nat, limit: nat)
    requires PlainSegments(parts) && spans != []
    ensures ParseLine(RenderLine(parts, spans, reason), count, limit) ==
            if && |parts| == 3 && "FC-" <= parts[1] && "CK-" <= parts[2]
               && ("FG-" <= parts[0] || parts[0] == "MISSMT" || (parts[0] == "IGNORE" && !IsBlank(reason)))
               && forall i :: 0 <= i < |spans| ==> 1 <= spans[i].0 && spans[i].1 <= count && spans[i].1 - spans[i].0 < limit
            then Mapping(JoinWith(parts, '/'), spans) else Rejected
  {
    hide JoinWith, SplitOn, ParseLine, ParseRanges, RangeTexts, IsClean, Strip, StripEach, AllNonEmpty, KeyShape, RangeAllowed;
    var key, ranges := JoinWith(parts, '/'), JoinWith(RangeTexts(spans), ',');
    RangeTextShape(spans);
    JoinEnds(parts, '/');
    JoinChars(parts, '/', ':');
    JoinChars(parts, '/', '#');
    SplitOfJoin(parts, '/');
    StripEachOfClean(parts);
    ParseRangesOfTexts(spans, count, limit);
    ParseOfPieces(key, ranges, reason, count, limit);
    ShapeOfClean(parts, Strip(reason));
    RangesInside(spans, count, limit);
  }

  lemma RangesInside(spans: seq<Span>, count: nat, limit: nat)
    ensures (forall i :: 0 <= i < |spans| ==> RangeAllowed(spans[i], count, limit)) <==>
            forall i :: 0 <= i < |spans| ==> 1 <= spans[i].0 && spans[i].1 <= count && spans[i].1 - spans[i].0 < limit
  {
  }

  /** A line of a clean key, clean ranges and a comment, read piece by piece. */
  lemma ParseOfPieces(key: string, ranges: string, reason: string, count: nat, limit: nat)
    requires IsClean(key) && IsClean(ranges) && ':' !in key && '#' !in key && '#' !in ranges
    ensures var spans := ParseRanges(SplitOn(ranges, ','), count, limit);
            ParseLine(key + ":" + ranges + " #" + reason, count, limit) ==
            if KeyShape(StripEach(SplitOn(key, '/')), Strip(reason)) && spans.Some? then Mapping(key, spans.value)
            else Rejected
  {
    hide Strip, IsClean, ValueAndComment, IndexOf, KeyShape, StripEach, SplitOn, ParseRanges;
    RenderedValue(key, ranges, reason);
  }

  lemma ShapeOfClean(parts: seq<string>, reason: string)
    requires forall i :: 0 <= i < |parts| ==> IsClean(parts[i])
    ensures KeyShape(parts, reason) <==>
            && |parts| == 3 && "FC-" <= parts[1] && "CK-" <= parts[2]
            && ("FG-" <= parts[0] || parts[0] == "MISSMT" || (parts[0] == "IGNORE" && reason != ""))
  {
  }

  lemma ParseRangesOfTexts(spans: seq<Span>, count: nat, limit: nat)
    ensures ParseRanges(RangeTexts(spans), count, limit) ==
            if forall i :: 0 <= i < |spans| ==> RangeAllowed(spans[i], count, limit) then Some(spans) else None
  {
    hide ParseRange, RangeAllowed, RangeText;
    var texts := RangeTexts(spans);
    forall i | 0 <= i < |texts|
      ensures ParseRange(texts[i], count, limit) == if RangeAllowed(spans[i], count, limit) then Some(spans[i]) else None {
      ParseRangeOfText(spans[i], count, limit);
    }
    var parsed := ParseRanges(texts, count, limit);
    if parsed.Some? {
      forall i | 0 <= i < |spans| ensures RangeAllowed(spans[i], count, limit) && parsed.value[i] == spans[i] {
        assert ParseRange(texts[i], count, limit) == Some(parsed.value[i]);
      }
      assert parsed.value == spans;
    }
  }

  lemma StripEachOfClean(parts: seq<string>)
    requires forall i :: 0 <= i < |parts| ==> IsClean(parts[i])
    ensures StripEach(parts) == parts
  {
    forall i | 0 <= i < |parts| ensures StripEach(parts)[i] == parts[i] {
      CleanIsStripped(parts[i]);
    }
  }

  /** A rendered line is not skipped, and falls apart at its colon and its `#`. */
  lemma RenderedValue(key: string, ranges: string, reason: string)
    requires IsClean(key) && IsClean(ranges) && ':' !in key && '#' !in key && '#' !in ranges
    ensures var raw := key + ":" + ranges + " #" + reason;
            var value := key + ":" + ranges;
            && Strip(raw) != "" && Strip(raw)[0] != '#'
            && ValueAndComment(raw) == (value, Strip(reason))
            && IndexOf(value, ':') == |key|
            && Strip(value[..|key|]) == key && value[|key| + 1..] == ranges
  {
    hide IsSpace, Strip, LStrip, RStrip, IndexOf;
    var value := key + ":" + ranges;
    var raw := key + ":" + ranges + " #" + reason;
    ValueBeforeHash(value, reason);
    assert raw == value + " #" + reason;
    assert raw[0] == key[0];
    StripKeepsFirst(raw);
    assert forall k :: 0 <= k < |key| ==> value[k] == key[k];
    assert value[|key|] == ':' && value[..|key|] == key;
    CleanIsStripped(key);
  }

  lemma ValueBeforeHash(value: string, reason: string)
    requires IsClean(value) && '#' !in value
    ensures ValueAndComment(value + " #" + reason) == (value, Strip(reason))
  {
    hide LStrip, RStrip;
    var raw := value + " #" + reason;
    forall k | 0 <= k < |value| ensures raw[k] != '#' {
      assert raw[k] == value[k] && value[k] in value;
    }
    assert raw[|value|] == ' ' && raw[|value| + 1] == '#';
    assert IndexOf(raw, '#') == |value| + 1;
    assert raw[..|value| + 1] == value + " ";
    assert raw[|value| + 2..] == reason;
    StripTrailingBlank(value);
  }

  lemma StripTrailingBlank(value: string)
    requires IsClean(value)
    ensures Strip(value + " ") == value
  {
    var t := value + " ";
    assert t[..|t| - 1] == value && IsSpace(t[|t| - 1]) && t[0] == value[0];
    assert LStrip(t) == t && RStrip(t) == RStrip(value) == value;
  }

  lemma {:induction false} RStripKeepsFirst(s: string)
    requires s != "" && !IsSpace(s[0])
    ensures RStrip(s) != "" && RStrip(s)[0] == s[0]
    decreases |s|
  {
    if IsSpace(s[|s| - 1]) {
      RStripKeepsFirst(s[..|s| - 1]);
    }
  }

  lemma StripKeepsFirst(s: string)
    requires s != "" && !IsSpace(s[0])
    ensures Strip(s) != "" && Strip(s)[0] == s[0]
  {
    hide RStrip, IsSpace;
    RStripKeepsFirst(s);
  }

  // ---------------------------------------------------------------- a whole mapping file

  function ParseLines(mapLines: seq<string>, count: nat, limit: nat): (r: seq<MapLine>)
    ensures |r| == |mapLines|
    ensures forall i :: 0 <= i < |r| ==> r[i] == ParseLine(mapLines[i], count, limit)
  {
    if mapLines == [] then []
    else [ParseLine(mapLines[0], count, limit)] + ParseLines(mapLines[1..], count, limit)
  }

  ghost predicate Accepted(lines: seq<MapLine>)
  {
    forall i :: 0 <= i < |lines| ==> !lines[i].Rejected?
  }

  ghost predicate HasKey(lines: seq<MapLine>, key: string)
  {
    exists i :: 0 <= i < |lines| && lines[i].Mapping? && lines[i].key == key
  }

  /** Some line of the mapping file gives `key` a range that contains line `x`. */
  ghost predicate KeyCovers(lines: seq<MapLine>, key: string, x: int)
  {
    exists i :: 0 <= i < |lines| && lines[i].Mapping? && lines[i].key == key && InSpans(lines[i].spans, x)
  }

  ghost predicate MapCovers(lines: seq<MapLine>, x: int)
  {
    exists key :: KeyCovers(lines, key, x)
  }

  /** A parsed line has at least one range, and every raw range is inside the file and within the
      block limit. */
  lemma AcceptedRanges(raw: string, count: nat, limit: nat)
    requires ParseLine(raw, count, limit).Mapping?
    ensures var spans := ParseLine(raw, count, limit).spans;
            spans != [] && forall r :: 0 <= r < |spans| ==> RangeAllowed(spans[r], count, limit)
  {
    var (value, comment) := ValueAndComment(raw);
    var pieces := SplitOn(value[IndexOf(value, ':') + 1..], ',');
    var spans := ParseRanges(pieces, count, limit).value;
    forall r | 0 <= r < |spans| ensures RangeAllowed(spans[r], count, limit) {
      assert ParseRange(pieces[r], count, limit) == Some(spans[r]);
    }
  }

  /** The key of a parsed line, however it is spaced: three non-empty segments, an FC and a CK behind an FG, behind MISSMT,
      or behind IGNORE on a line with a reason behind its first `#`. */
  lemma AcceptedKey(raw: string, count: nat, limit: nat)
    requires ParseLine(raw, count, limit).Mapping?
    ensures var parts := SplitOn(ParseLine(raw, count, limit).key, '/');
            && |parts| == 3 && !IsBlank(parts[0]) && "FC-" <= Strip(parts[1]) && "CK-" <= Strip(parts[2])
            && ("FG-" <= Strip(parts[0]) || Strip(parts[0]) == "MISSMT"
                || (Strip(parts[0]) == "IGNORE" && '#' in raw && !IsBlank(raw[IndexOf(raw, '#') + 1..])))
  {
    hide SplitOn, Strip, IndexOf, ParseRanges;
    var parts := SplitOn(ParseLine(raw, count, limit).key, '/');
    var stripped := StripEach(parts);
    assert stripped[0] == Strip(parts[0]) && |stripped| == 3;
  }

  lemma OneMoreLine(lines: seq<MapLine>, l: MapLine, key: string, x: int)
    ensures HasKey(lines + [l], key) <==> HasKey(lines, key) || (l.Mapping? && l.key == key)
    ensures KeyCovers(lines + [l], key, x) <==>
              KeyCovers(lines, key, x) || (l.Mapping? && l.key == key && InSpans(l.spans, x))
    ensures KeyCovers(lines, key, x) ==> HasKey(lines, key)
  {
    var all := lines + [l];
    assert all[|lines|] == l;
    assert forall i :: 0 <= i < |lines| ==> all[i] == lines[i];
  }

  lemma AcceptedStep(lines: seq<MapLine>, n: nat)
    requires n < |lines|
    ensures lines[..n + 1] == lines[..n] + [lines[n]]
    ensures Accepted(lines[..n + 1]) <==> Accepted(lines[..n]) && !lines[n].Rejected?
    ensures Accepted(lines) ==> !lines[n].Rejected?
  {
  }

  /** What the dictionary of an accepted prefix holds. */
  ghost predicate Represents(ret: map<string, seq<Span>>, lines: seq<MapLine>)
  {
    && (forall k :: k in ret <==> HasKey(lines, k))
    && (forall k, x :: k in ret ==> (InSpans(ret[k], x) <==> KeyCovers(lines, k, x)))
  }

  lemma RepresentsNothing()
    ensures Represents(map[], []) && Accepted([])
  {
  }

  lemma RepresentsOneMore(ret: map<string, seq<Span>>, lines: seq<MapLine>, l: MapLine, merged: seq<Span>)
    requires Represents(ret, lines) && l.Mapping?
    requires forall x :: InSpans(merged, x) <==>
               InSpans(if l.key in ret then ret[l.key] else [], x) || InSpans(l.spans, x)
    ensures Represents(ret[l.key := merged], lines + [l])
  {
    var ret' := ret[l.key := merged];
    forall k ensures k in ret' <==> HasKey(lines + [l], k) { OneMoreLine(lines, l, k, 0); }
    forall k, x ensures k in ret' ==> (InSpans(ret'[k], x) <==> KeyCovers(lines + [l], k, x)) {
      OneMoreLine(lines, l, k, x);
    }
  }

  lemma RepresentsSkipped(ret: map<string, seq<Span>>, lines: seq<MapLine>, l: MapLine)
    requires Represents(ret, lines) && l.Skipped?
    ensures Represents(ret, lines + [l])
  {
    forall k ensures k in ret <==> HasKey(lines + [l], k) { OneMoreLine(lines, l, k, 0); }
    forall k, x ensures k in ret ==> (InSpans(ret[k], x) <==> KeyCovers(lines + [l], k, x)) {
      OneMoreLine(lines, l, k, x);
    }
  }

  /** `_parse_strict_line_map`: rejected as soon as one line is; otherwise each key gets the merged
      ranges of its lines. */
  method ParseStrictLineMap(mapLines: seq<string>, count: nat, limit: nat)
    returns (r: Option<map<string, seq<Span>>>)
    ensures r.Some? <==> Accepted(ParseLines(mapLines, count, limit))
    ensures r.Some? ==> Represents(r.value, ParseLines(mapLines, count, limit))
  {
    hide Represents, Accepted, ParseLine, ParseLines, InSpans, Canonical;
    var ret: map<string, seq<Span>> := map[];
    ghost var lines := ParseLines(mapLines, count, limit);
    RepresentsNothing();
    assert lines[..0] == [] && lines[..|lines|] == lines;
    for n := 0 to |mapLines|
      invariant Accepted(lines[..n])
      invariant Represents(ret, lines[..n])
    {
      AcceptedStep(lines, n);
      var line := ParseMapLine(mapLines[n], count, limit);
      if line.Rejected? {
        return None;
      }
      if line.Skipped? {
        RepresentsSkipped(ret, lines[..n], line);
        continue;
      }
      var previous := if line.key in ret then ret[line.key] else [];
      var merged := RangeListMerge(previous, line.spans);
      RepresentsOneMore(ret, lines[..n], line, merged);
      ret := ret[line.key := merged];
    }
    return Some(ret);
  }

  /** The body of the loop for one raw line, up to the merge. */
  method ParseMapLine(raw: string, count: nat, limit: nat) returns (line: MapLine)
    ensures line == ParseLine(raw, count, limit)
  {
    hide ParseRanges, SplitOn, StripEach, KeyShape, LStrip, RStrip, Strip, IndexOf;
    var stripped := Strip(raw);
    if stripped == "" || stripped[0] == '#' {
      return Skipped;
    }
    var (value, comment) := ValueAndComment(raw);
    var colon := IndexOf(value, ':');
    if colon == -1 {
      return Rejected;
    }
    var key := Strip(value[..colon]);
    if !KeyShape(StripEach(SplitOn(key, '/')), comment) {
      return Rejected;
    }
    var lineList := ParseLineList(SplitOn(value[colon + 1..], ','), count, limit);
    if lineList.None? {
      return Rejected;
    }
    return Mapping(key, lineList.value);
  }

  /** The inner loop: all ranges of one line, or nothing if one of them is invalid. */
  method ParseLineList(pieces: seq<string>, count: nat, limit: nat) returns (r: Option<seq<Span>>)
    ensures r == ParseRanges(pieces, count, limit)
  {
    hide ParseRange, ParseRanges, RangeAllowed;
    var lineList: seq<Span> := [];
    for i := 0 to |pieces|
      invariant |lineList| == i
      invariant forall m :: 0 <= m < i ==> ParseRange(pieces[m], count, limit) == Some(lineList[m])
    {
      var range := ParseRange(pieces[i], count, limit);
      if range.None? {
        return None;
      }
      lineList := lineList + [range.value];
    }
    assert ParseRanges(pieces, count, limit).Some?;
    assert lineList == ParseRanges(pieces, count, limit).value;
    return Some(lineList);
  }

  // ---------------------------------------------------------------- checking one line block

  /** The outcome of `line_map_check_one_file`; Raises stands for an exception that leaves it. */
  datatype BlockResult = Valid | Invalid | Raises

  /** A key the document knows, an IGNORE key, or a MISSMT key where those are allowed. */
  predicate KeyKnown(cfg: Config, cks: seq<string>, key: string)
  {
    key in cks || "IGNORE/" <= key || ("MISSMT/" <= key && !cfg.mustHaveNoMissMatch)
  }

  /** Line `x` must be covered: it is inside the block and not an ignored blank line. */
  predicate Required(cfg: Config, lines: seq<string>, start: int, end: int, x: int)
    requires end <= |lines| && 1 <= start
  {
    start <= x <= end && !(cfg.ignoreBlankLines && IsBlank(lines[x - 1]))
  }

  predicate IsReadable(w: World, file: string)
  {
    file in w.files && w.files[file].Readable?
  }

  /** The parsed lines of the canonical mapping file of a source file. */
  function MapLines(cfg: Config, w: World, file: string): seq<MapLine>
    requires IsReadable(w, file) && IsReadable(w, MapFile(cfg, file))
  {
    ParseLines(w.files[MapFile(cfg, file)].lines, |w.files[file].lines|, cfg.maxBlockLines)
  }

  /** The mapping file of `file` exists, parses, and uses only known keys. */
  ghost predicate MapInOrder(cfg: Config, w: World, file: string, cks: seq<string>)
  {
    && IsReadable(w, file) && IsReadable(w, MapFile(cfg, file))
    && Accepted(MapLines(cfg, w, file))
    && forall key :: HasKey(MapLines(cfg, w, file), key) ==> KeyKnown(cfg, cks, key)
  }

  /** Every required line of the block is in a range of the mapping file. */
  ghost predicate BlockCovered(cfg: Config, w: World, file: string, start: int, end: int)
    requires IsReadable(w, file) && IsReadable(w, MapFile(cfg, file))
    requires 1 <= start && end <= |w.files[file].lines|
  {
    forall x :: Required(cfg, w.files[file].lines, start, end, x) ==> MapCovers(MapLines(cfg, w, file), x)
  }

  ghost function BlockStatus(cfg: Config, w: World, file: string, start: int, end: int, cks: seq<string>): BlockResult
    requires 1 <= start <= end
  {
    if !MapInOrder(cfg, w, file, cks) then Invalid
    else if end > |w.files[file].lines| then Raises
    else if BlockCovered(cfg, w, file, start, end) then Valid
    else Invalid
  }

  /** `line_map_check_one_file` as the batch checker calls it, with one required range. On an uncovered
      block it also reports the uncovered lines, compacted. */
  method LineMapCheckOneFile(cfg: Config, w: World, file: string, start: int, end: int, cks: seq<string>)
    returns (r: BlockResult, uncovered: seq<Span>)
    requires 1 <= start <= end
    ensures r == BlockStatus(cfg, w, file, start, end, cks)
    ensures Canonical(uncovered)
    ensures r != Invalid ==> uncovered == []
    ensures MapInOrder(cfg, w, file, cks) && end <= |w.files[file].lines| ==>
              forall x :: InSpans(uncovered, x) <==>
                Required(cfg, w.files[file].lines, start, end, x) && !MapCovers(MapLines(cfg, w, file), x)
  {
    var mapFile := MapFile(cfg, file);
    if file !in w.files || mapFile !in w.files {
      return Invalid, [];
    }
    if w.files[file].Unreadable? || w.files[mapFile].Unreadable? {
      return Invalid, [];
    }
    var lines := w.files[file].lines;
    var parsed := ParseStrictLineMap(w.files[mapFile].lines, |lines|, cfg.maxBlockLines);
    if parsed.None? {
      return Invalid, [];
    }
    var lineMap := parsed.value;
    var keysKnown := AllKeysKnown(cfg, lineMap, cks);
    if !keysKnown {
      return Invalid, [];
    }
    var mapped := MappedLines(lineMap);
    CoveredByMap(lineMap, MapLines(cfg, w, file));
    var missing := UnmappedLines(cfg, lines, mapped, start, end);
    if missing.None? {
      return Raises, [];
    }
    if missing.value == [] {
      return Valid, [];
    }
    assert missing.value[0] in missing.value;
    uncovered := LineNumbersToBlocks(missing.value);
    return Invalid, uncovered;
  }

  lemma CoveredByMap(lineMap: map<string, seq<Span>>, lines: seq<MapLine>)
    requires Represents(lineMap, lines)
    ensures forall x :: MapCovers(lines, x) <==> exists k :: k in lineMap && InSpans(lineMap[k], x)
  {
    forall k, x | KeyCovers(lines, k, x) ensures k in lineMap && InSpans(lineMap[k], x) {
      OneMoreLine(lines, Skipped, k, x);
    }
  }

  /** The loop over the dictionary's keys: no unknown key, and no MISSMT key if those are forbidden. */
  method AllKeysKnown(cfg: Config, lineMap: map<string, seq<Span>>, cks: seq<string>) returns (ok: bool)
    ensures ok <==> forall k :: k in lineMap ==> KeyKnown(cfg, cks, k)
  {
    var missMatched, unknown := false, false;
    var keys := lineMap.Keys;
    while keys != {}
      invariant keys <= lineMap.Keys
      invariant !unknown && !(missMatched && cfg.mustHaveNoMissMatch) <==>
                  forall k :: k in lineMap && k !in keys ==> KeyKnown(cfg, cks, k)
    {
      var key :| key in keys;
      keys := keys - {key};
      if key !in cks {
        if "IGNORE/" <= key {
          continue;
        }
        if "MISSMT/" <= key {
          missMatched := true;
          continue;
        }
        unknown := true;
      }
    }
    ok := !unknown && !(cfg.mustHaveNoMissMatch && missMatched);
  }

  /** `_unmapped_lines_for_ranges` for one range; None stands for the IndexError of a range that
      leaves the file. */
  method UnmappedLines(cfg: Config, lines: seq<string>, mapped: set<int>, start: int, end: int)
    returns (missing: Option<seq<nat>>)
    requires 1 <= start <= end
    ensures missing.None? <==> end > |lines|
    ensures missing.Some? ==> forall x: int :: x in missing.value <==>
              Required(cfg, lines, start, end, x) && x !in mapped
  {
    var found: seq<nat> := [];
    var line := start;
    while line <= end
      invariant start <= line <= end + 1
      invariant line - 1 <= |lines| || line == start
      invariant line <= |lines| + 1 ==> forall x: int :: x in found <==>
                  start <= x < line && !(cfg.ignoreBlankLines && IsBlank(lines[x - 1])) && x !in mapped
    {
      if line - 1 >= |lines| {
        return None;
      }
      if !(cfg.ignoreBlankLines && IsBlank(lines[line - 1])) && line !in mapped {
        found := found + [line];
      }
      line := line + 1;
    }
    return Some(found);
  }
}
