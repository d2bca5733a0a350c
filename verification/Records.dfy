/** Bug records: the canonicalising validator and the windowed merge of `BugRecordType`
    (ucagent/checkers/recorder.py). */
module Records {
  import opened Text
  import opened Lists
  import opened Locations

  datatype Json = Null | Flag(b: bool) | Number(value: real) | Str(text: string)
                | List(items: seq<Json>) | Object(fields: map<string, Json>)

  /** Turns a legacy string payload into a value; None stands for undecodable text. */
  type Decoder = string -> Option<Json>

  /** What the Bug documents declare about one Bug of non-zero confidence. */
  datatype Expected = Expected(ck: seq<string>, confidence: real, alias: seq<string>, refs: seq<string>)

  /** The expected Bugs, in document order. */
  datatype Document = Document(names: seq<string>, bugs: map<string, Expected>)
  {
    ghost predicate Valid()
    {
      NoDup(names) && forall n :: n in names <==> n in bugs
    }
  }

  datatype Record = Record(name: string, alias: seq<string>, ck: seq<string>, desc: string,
                           locations: seq<string>, severity: string, confidence: real, refs: seq<string>)

  function Names(records: seq<Record>): (r: seq<string>)
    ensures |r| == |records| && forall i :: 0 <= i < |r| ==> r[i] == records[i].name
  {
    Map(records, (r: Record) => r.name)
  }

  // ---------------------------------------------------------------- reading single fields

  function Get(fields: map<string, Json>, key: string): Json
  {
    if key in fields then fields[key] else Null
  }

  /** A string stands for an array of one. */
  function Items(raw: Json): Option<seq<Json>>
  {
    if raw.Str? then Some([raw]) else if raw.List? then Some(raw.items) else None
  }

  predicate IsText(x: Json)
  {
    x.Str? && !IsBlank(x.text)
  }

  /** The text of a tag written with or without its angle brackets. */
  function TagOf(x: Json): string
  {
    if x.Str? then StripAngles(Strip(x.text)) else ""
  }

  predicate IsLocation(x: Json)
  {
    x.Str? && ParseLocation(x.text).Some?
  }

  function LocationOf(x: Json): string
  {
    if IsLocation(x) then ParseLocation(x.text).value.text else ""
  }

  /** The Bug name, and the confidence when the name is written as a complete label. */
  function ReadName(raw: Json): Option<(string, Option<real>)>
  {
    if !IsText(raw) then None
    else
      var name := Strip(raw.text);
      if "BG-" <= StripAngles(name) then
        match ParseBugLabel(name)
        case None => None
        case Some(tag) => Some((tag.0, Some(tag.1)))
      else if '<' in name || '>' in name then None
      else Some((name, None))
  }

  predicate Close(a: real, b: real)
  {
    -0.000000001 <= a - b <= 0.000000001
  }

  /** A confidence above one is a percentage; it must agree with the label in the name and with the document. */
  function ReadConfidence(raw: Json, stated: Option<real>, expected: real): (r: Option<real>)
    ensures r.Some? ==> Close(r.value, expected)
  {
    var c := match raw
      case Null => stated
      case Number(v) =>
        var scaled := if v > 1.0 then v / 100.0 else v;
        if 0.0 <= scaled <= 1.0 then Some(scaled) else None
      case _ => None;
    if c.None? || (stated.Some? && !Close(c.value, stated.value)) || !Close(c.value, expected) then None else c
  }

  function LastPart(path: string): string
  {
    path[LastIndexOf(path, '/') + 1..]
  }

  function WithLastPart(paths: seq<string>, name: string): (r: seq<string>)
    ensures forall p :: p in r <==> p in paths && LastPart(p) == name
  {
    if paths == [] then []
    else (if LastPart(paths[0]) == name then [paths[0]] else []) + WithLastPart(paths[1..], name)
  }

  /** A checkpoint is given by its path, or by its last part when that is unambiguous. */
  function ResolveCk(x: Json, paths: seq<string>): (r: Option<string>)
    ensures r.Some? ==> r.value in paths
  {
    var ck := TagOf(x);
    if ck in paths then Some(ck)
    else if '/' in ck then None
    else
      var matches := WithLastPart(paths, ck);
      if |matches| == 1 then Some(matches[0]) else None
  }

  /** Exactly what a checkpoint text resolves to: itself when it is declared; otherwise, unless it has a slash, the one
      declared checkpoint whose last part it is. */
  lemma ResolveIff(x: Json, paths: seq<string>, p: string)
    requires NoDup(paths)
    ensures ResolveCk(x, paths) == Some(p) <==>
            && p in paths
            && (p == TagOf(x) || (TagOf(x) !in paths && '/' !in TagOf(x) && LastPart(p) == TagOf(x)
                                  && forall q :: q in paths && LastPart(q) == TagOf(x) ==> q == p))
  {
    hide TagOf, LastPart;
    var matches := WithLastPart(paths, TagOf(x));
    MatchesNoDup(paths, TagOf(x));
    if |matches| == 1 {
      assert matches[0] in matches;
    } else if p in matches && forall q :: q in matches ==> q == p {
      NoDupFits(matches, [p]);
    }
  }

  lemma {:induction false} MatchesNoDup(paths: seq<string>, name: string)
    requires NoDup(paths)
    ensures NoDup(WithLastPart(paths, name))
    decreases |paths|
  {
    hide LastPart;
    if paths != [] {
      MatchesNoDup(paths[1..], name);
      assert paths[0] !in paths[1..];
    }
  }

  /** The last part has no slash and ends the path. */
  lemma LastPartIs(front: string, name: string)
    requires '/' !in name
    ensures LastPart(name) == name && LastPart(front + "/" + name) == name
  {
    var path := front + "/" + name;
    assert path[|front|] == '/' && forall k :: |front| < k < |path| ==> path[k] == name[k - |front| - 1];
    hide LastIndexOf;
    assert LastIndexOf(path, '/') == |front|;
    assert LastIndexOf(name, '/') == -1;
  }

  function LowerChar(c: char): char
  {
    if 'A' <= c <= 'Z' then (c as int + 32) as char else c
  }

  function Lower(s: string): string
  {
    Map(s, LowerChar)
  }

  const SEVERITIES := ["lowest", "low", "medium", "high", "highest"]

  predicate IsSeverity(raw: Json)
  {
    IsText(raw) && Lower(Strip(raw.text)) in SEVERITIES
  }

  function CkField(fields: map<string, Json>): Json
  {
    if "CK" in fields then fields["CK"] else Get(fields, "ck")
  }

  // ---------------------------------------------------------------- when a submitted entry is accepted

  /** Exactly the declared aliases, each once, in any order. */
  ghost predicate AliasesMatch(raw: Json, expected: seq<string>)
  {
    match Items(raw)
    case None => false
    case Some(items) =>
      var tags := Map(items, TagOf);
      && (forall x :: x in items ==> IsText(x))
      && NoDup(tags) && forall t :: t in tags <==> t in expected
  }

  /** Every value is a declared checkpoint and every declared checkpoint is given. */
  ghost predicate CksMatch(raw: Json, expected: seq<string>)
  {
    match Items(raw)
    case None => false
    case Some(items) =>
      var cks := Map(items, (x: Json) => ResolveCk(x, expected));
      && items != [] && (forall x :: x in items ==> IsText(x)) && None !in cks
      && forall e :: e in expected ==> Some(e) in cks
  }

  /** Exactly the declared references, each once, in any order. */
  ghost predicate RefsMatch(raw: Json, expected: seq<string>)
  {
    match Items(raw)
    case None => false
    case Some(items) =>
      var refs := Map(items, LocationOf);
      && items != [] && (forall x :: x in items ==> IsLocation(x))
      && NoDup(refs) && forall r :: r in refs <==> r in expected
  }

  /** The source locations, without repetitions. */
  ghost function LocationsIn(raw: Json): Option<seq<string>>
  {
    match Items(raw)
    case None => None
    case Some(items) =>
      if items != [] && forall x :: x in items ==> IsLocation(x)
      then Some(Unique(Map(items, LocationOf))) else None
  }

  /** The canonical record of one submitted entry. */
  ghost function Entry(raw: Json, doc: Document): Option<Record>
  {
    if !raw.Object? then None
    else
      var f := raw.fields;
      match ReadName(Get(f, "bug_name"))
      case None => None
      case Some((name, stated)) =>
        if name !in doc.bugs then None
        else
          var e := doc.bugs[name];
          var confidence := ReadConfidence(Get(f, "confidence"), stated, e.confidence);
          var locations := LocationsIn(Get(f, "locations"));
          if AliasesMatch(Get(f, "alias"), e.alias) && confidence.Some? && CksMatch(CkField(f), e.ck)
             && IsText(Get(f, "desc")) && locations.Some? && RefsMatch(Get(f, "ref"), e.refs)
             && IsSeverity(Get(f, "severity"))
          then Some(Record(name, e.alias, e.ck, Strip(Get(f, "desc").text), locations.value,
                           Strip(Get(f, "severity").text), confidence.value, e.refs))
          else None
  }

  ghost predicate Each(items: seq<Json>, doc: Document, records: seq<Record>)
  {
    |records| == |items| && forall i :: 0 <= i < |items| ==> Entry(items[i], doc) == Some(records[i])
  }

  ghost predicate EntriesOf(items: seq<Json>, doc: Document, records: seq<Record>)
  {
    Each(items, doc, records) && NoDup(Names(records))
  }

  /** `records` is what the validator makes of `raw`. */
  ghost predicate Accepts(raw: Json, doc: Document, decode: Decoder, records: seq<Record>)
  {
    if raw.Str? then
      var decoded := decode(raw.text);
      decoded.Some? && decoded.value.List? && EntriesOf(decoded.value.items, doc, records)
    else raw.List? && EntriesOf(raw.items, doc, records)
  }

  /** The canonical list, or None for the ValueError. */
  ghost function Normalized(raw: Json, doc: Document, decode: Decoder): (r: Option<seq<Record>>)
    ensures r.Some? ==> Accepts(raw, doc, decode, r.value)
  {
    if exists records :: Accepts(raw, doc, decode, records)
    then (var records :| Accepts(raw, doc, decode, records); Some(records))
    else None
  }

  /** No legacy strings. */
  function NoText(s: string): Option<Json>
  {
    None
  }

  // ---------------------------------------------------------------- the validator's loops

  method ReadAliases(raw: Json, expected: seq<string>) returns (ok: bool)
    ensures ok == AliasesMatch(raw, expected)
  {
    hide IsBlank, StripAngles;
    var items := Items(raw);
    if items.None? {
      return false;
    }
    var all := items.value;
    var aliases: seq<string> := [];
    for i := 0 to |all|
      invariant aliases == Map(all, TagOf)[..i] && NoDup(aliases)
      invariant forall k :: 0 <= k < i ==> IsText(all[k])
    {
      assert Map(all, TagOf)[i] == TagOf(all[i]);
      if !IsText(all[i]) {
        assert all[i] in all;
        return false;
      }
      var alias := TagOf(all[i]);
      if alias in aliases {
        var k :| 0 <= k < i && aliases[k] == alias;
        assert Map(all, TagOf)[k] == alias;
        return false;
      }
      aliases := aliases + [alias];
    }
    assert aliases == Map(all, TagOf);
    ok := (forall e :: e in expected ==> e in aliases) && (forall a :: a in aliases ==> a in expected);
  }

  method ReadCks(raw: Json, expected: seq<string>) returns (ok: bool)
    ensures ok == CksMatch(raw, expected)
  {
    hide ResolveCk, IsText;
    var items := Items(raw);
    if items.None? || items.value == [] {
      return false;
    }
    var all := items.value;
    ghost var cks := Map(all, (x: Json) => ResolveCk(x, expected));
    var resolved: seq<string> := [];
    for i := 0 to |all|
      invariant forall c :: c in resolved <==> Some(c) in cks[..i]
      invariant None !in cks[..i]
      invariant forall k :: 0 <= k < i ==> IsText(all[k])
    {
      assert cks[i] == ResolveCk(all[i], expected) && cks[i] in cks && all[i] in all;
      assert cks[..i + 1] == cks[..i] + [cks[i]];
      if !IsText(all[i]) {
        return false;
      }
      var ck := ResolveCk(all[i], expected);
      if ck.None? {
        return false;
      }
      if ck.value !in resolved {
        resolved := resolved + [ck.value];
      }
    }
    assert cks[..|all|] == cks;
    ok := forall e :: e in expected ==> e in resolved;
  }

  lemma NoneYet<T(!new)>()
    ensures Unique<T>([]) == []
  {
  }

  lemma UniqueStep<T(!new)>(s: seq<T>, i: nat)
    requires i < |s|
    ensures Unique(s[..i + 1]) == if s[i] in Unique(s[..i]) then Unique(s[..i]) else Unique(s[..i]) + [s[i]]
  {
    assert s[..i + 1][..i] == s[..i];
  }

  method ReadLocations(raw: Json) returns (r: Option<seq<string>>)
    ensures r == LocationsIn(raw)
  {
    hide ParseLocation, Unique;
    var items := Items(raw);
    if items.None? || items.value == [] {
      return None;
    }
    var all := items.value;
    ghost var texts := Map(all, LocationOf);
    var locations: seq<string> := [];
    NoneYet<string>();
    for i := 0 to |all|
      invariant locations == Unique(texts[..i])
      invariant forall k :: 0 <= k < i ==> IsLocation(all[k])
    {
      UniqueStep(texts, i);
      assert texts[i] == LocationOf(all[i]) && all[i] in all;
      var parsed := if all[i].Str? then ParseLocation(all[i].text) else None;
      if parsed.None? {
        return None;
      }
      if parsed.value.text !in locations {
        locations := locations + [parsed.value.text];
      }
    }
    assert texts[..|all|] == texts;
    return Some(locations);
  }

  method ReadRefs(raw: Json, expected: seq<string>) returns (ok: bool)
    ensures ok == RefsMatch(raw, expected)
  {
    hide ParseLocation;
    var items := Items(raw);
    if items.None? || items.value == [] {
      return false;
    }
    var all := items.value;
    var refs: seq<string> := [];
    for i := 0 to |all|
      invariant refs == Map(all, LocationOf)[..i] && NoDup(refs)
      invariant forall k :: 0 <= k < i ==> IsLocation(all[k])
    {
      assert Map(all, LocationOf)[i] == LocationOf(all[i]) && all[i] in all;
      var parsed := if all[i].Str? then ParseLocation(all[i].text) else None;
      if parsed.None? {
        return false;
      }
      var ref := parsed.value.text;
      if ref in refs {
        var k :| 0 <= k < i && refs[k] == ref;
        assert Map(all, LocationOf)[k] == ref;
        return false;
      }
      refs := refs + [ref];
    }
    assert refs == Map(all, LocationOf);
    ok := (forall e :: e in expected ==> e in refs) && (forall a :: a in refs ==> a in expected);
  }

  /** One pass of the validator's outer loop, but for the duplicate check. */
  method ReadEntry(raw: Json, doc: Document) returns (r: Option<Record>)
    ensures r == Entry(raw, doc)
  {
    hide AliasesMatch, CksMatch, RefsMatch, LocationsIn, ReadName, ReadConfidence, IsText, IsSeverity;
    if !raw.Object? {
      return None;
    }
    var f := raw.fields;
    var name := ReadName(Get(f, "bug_name"));
    if name.None? || name.value.0 !in doc.bugs {
      return None;
    }
    var e := doc.bugs[name.value.0];
    var ok := ReadAliases(Get(f, "alias"), e.alias);
    if !ok {
      return None;
    }
    var confidence := ReadConfidence(Get(f, "confidence"), name.value.1, e.confidence);
    if confidence.None? {
      return None;
    }
    ok := ReadCks(CkField(f), e.ck);
    if !ok || !IsText(Get(f, "desc")) {
      return None;
    }
    var locations := ReadLocations(Get(f, "locations"));
    if locations.None? {
      return None;
    }
    ok := ReadRefs(Get(f, "ref"), e.refs);
    if !ok || !IsSeverity(Get(f, "severity")) {
      return None;
    }
    assert IsText(Get(f, "desc")) ==> Get(f, "desc").Str? by { TextIsString(Get(f, "desc")); }
    assert IsSeverity(Get(f, "severity")) ==> Get(f, "severity").Str? by { SeverityIsString(Get(f, "severity")); }
    return Some(Record(name.value.0, e.alias, e.ck, Strip(Get(f, "desc").text), locations.value,
                       Strip(Get(f, "severity").text), confidence.value, e.refs));
  }

  lemma TextIsString(x: Json)
    ensures IsText(x) ==> x.Str?
  {
  }

  lemma SeverityIsString(x: Json)
    ensures IsSeverity(x) ==> x.Str?
  {
  }

  /** The validator's result is determined by its input. */
  lemma AcceptedOnce(raw: Json, doc: Document, decode: Decoder, a: seq<Record>, b: seq<Record>)
    requires Accepts(raw, doc, decode, a) && Accepts(raw, doc, decode, b)
    ensures a == b
  {
    var items := if raw.Str? then decode(raw.text).value.items else raw.items;
    assert items[..|items|] == items;
    EachOnce(items, doc, a, b, |items|);
  }

  lemma AcceptedIsNormalized(raw: Json, doc: Document, decode: Decoder, records: seq<Record>)
    requires Accepts(raw, doc, decode, records)
    ensures Normalized(raw, doc, decode) == Some(records)
  {
    hide Accepts;
    AcceptedOnce(raw, doc, decode, records, Normalized(raw, doc, decode).value);
  }

  /** `_normalize_bug_list`. */
  method NormalizeBugList(raw: Json, doc: Document, decode: Decoder) returns (r: Option<seq<Record>>)
    ensures r == Normalized(raw, doc, decode)
  {
    hide Entry;
    var list := raw;
    if list.Str? {
      var decoded := decode(list.text);
      if decoded.None? {
        return None;
      }
      list := decoded.value;
    }
    if !list.List? {
      return None;
    }
    var normalized: seq<Record> := [];
    for i := 0 to |list.items|
      invariant EntriesOf(list.items[..i], doc, normalized)
    {
      assert list.items[..i + 1] == list.items[..i] + [list.items[i]];
      var record := ReadEntry(list.items[i], doc);
      if record.None? {
        return None;
      }
      if record.value.name in Names(normalized) {
        RepeatedName(list.items, doc, i, normalized, record.value);
        return None;
      }
      normalized := normalized + [record.value];
    }
    assert list.items[..|list.items|] == list.items;
    AcceptedIsNormalized(raw, doc, decode, normalized);
    return Some(normalized);
  }

  lemma EachOnce(items: seq<Json>, doc: Document, a: seq<Record>, b: seq<Record>, i: nat)
    requires i <= |items| && Each(items[..i], doc, a) && Each(items, doc, b)
    ensures a == b[..i]
  {
    hide Entry;
    forall k | 0 <= k < i ensures a[k] == b[k] {
      assert items[..i][k] == items[k];
    }
  }

  lemma RepeatedName(items: seq<Json>, doc: Document, i: nat, before: seq<Record>, record: Record)
    requires i < |items| && Each(items[..i], doc, before) && Entry(items[i], doc) == Some(record)
    requires record.name in Names(before)
    ensures forall records :: !EntriesOf(items, doc, records)
  {
    hide Entry;
    var k :| 0 <= k < i && Names(before)[k] == record.name;
    forall records | Each(items, doc, records) ensures !NoDup(Names(records)) {
      EachOnce(items, doc, before, records, i);
      assert Names(records)[k] == Names(records)[i];
    }
  }

  // ---------------------------------------------------------------- the windowed merge

  function ByName(records: seq<Record>): (m: map<string, Record>)
    ensures forall n :: n in m <==> n in Names(records)
    ensures forall n :: n in m ==> m[n].name == n && m[n] in records
  {
    if records == [] then map[]
    else
      var last := records[|records| - 1];
      assert records == records[..|records| - 1] + [last];
      assert Names(records) == Names(records[..|records| - 1]) + [last.name];
      ByName(records[..|records| - 1])[last.name := last]
  }

  /** The records of the named Bugs, in the order of the names. */
  function Pick(names: seq<string>, m: map<string, Record>): seq<Record>
  {
    if names == [] then []
    else (if names[0] in m then [m[names[0]]] else []) + Pick(names[1..], m)
  }

  function Quoted(texts: seq<string>): Json
  {
    List(Map(texts, (t: string) => Str(t)))
  }

  function RecordJson(r: Record): Json
  {
    Object(map["bug_name" := Str(r.name), "alias" := Quoted(r.alias), "CK" := Quoted(r.ck), "desc" := Str(r.desc),
               "locations" := Quoted(r.locations), "severity" := Str(r.severity),
               "confidence" := Number(r.confidence), "ref" := Quoted(r.refs)])
  }

  /** The stored form of a record list. */
  function Stored(records: seq<Record>): Json
  {
    List(Map(records, RecordJson))
  }

  ghost function Recorded(payload: Json, doc: Document, decode: Decoder): Option<seq<Record>>
  {
    if payload.Null? then Some([]) else Normalized(payload, doc, decode)
  }

  /** Whether a submission may be merged: it adds a record if any is missing and it is not empty, and it adds
      only Bugs of the current batch, the first `batchSize` missing ones. */
  ghost predicate InWindow(doc: Document, batchSize: nat, recorded: seq<string>, submitted: seq<string>)
  {
    var remaining := DropIn(doc.names, recorded);
    var newNames := DropIn(submitted, recorded);
    && (submitted != [] && remaining != [] ==> newNames != [])
    && SubsetOf(newNames, Take(remaining, batchSize))
  }

  /** One call of `record`: whether it passes, and the payload it leaves. */
  ghost function Step(doc: Document, batchSize: nat, payload: Json, bugList: Json, decode: Decoder): (bool, Json)
  {
    match Recorded(payload, doc, decode)
    case None => (false, payload)
    case Some(existing) =>
      if bugList.Null? then (DropIn(doc.names, Names(existing)) == [], Stored(existing))
      else
        match Normalized(bugList, doc, NoText)
        case None => (false, payload)
        case Some(submitted) =>
          if !InWindow(doc, batchSize, Names(existing), Names(submitted)) then (false, payload)
          else
            (DropIn(doc.names, Names(existing) + Names(submitted)) == [],
             Stored(Pick(doc.names, ByName(existing + submitted))))
  }

  class BugRecordType {
    /** None until the stage is entered, and when reading the documents failed. */
    var expected: Option<Document>
    const batchSize: nat
    const decode: Decoder

    constructor (batchSize: nat, decode: Decoder)
      requires batchSize >= 1
      ensures this.batchSize == batchSize && this.decode == decode && expected == None
    {
      this.batchSize := batchSize;
      this.decode := decode;
      expected := None;
    }

    method OnInit(loaded: Option<Document>)
      modifies this
      ensures expected == loaded
    {
      expected := loaded;
    }

    method Record(payload: Json, bugList: Json) returns (passed: bool, kept: Json)
      ensures expected.None? ==> !passed && kept == payload
      ensures expected.Some? ==> (passed, kept) == Step(expected.value, batchSize, payload, bugList, decode)
    {
      hide Normalized, DropIn, Pick, RecordJson, ByName, Missing, Stored, Names, Take, SubsetOf;
      if expected.None? {
        return false, payload;
      }
      var doc := expected.value;
      var existing: seq<Record> := [];
      if !payload.Null? {
        var stored := NormalizeBugList(payload, doc, decode);
        if stored.None? {
          return false, payload;
        }
        existing := stored.value;
      }
      var byName := ByName(existing);
      var remaining := DropIn(doc.names, Names(existing));
      var batch := Take(remaining, batchSize);
      if bugList.Null? {
        return remaining == [], Stored(existing);
      }
      var submission := NormalizeBugList(bugList, doc, NoText);
      if submission.None? {
        return false, payload;
      }
      var submitted := submission.value;
      var newNames := DropIn(Names(submitted), Names(existing));
      if submitted != [] && remaining != [] && newNames == [] {
        return false, payload;
      }
      var outOfBatch := DropIn(newNames, batch);
      if outOfBatch != [] {
        NotInWindow(newNames, batch);
        return false, payload;
      }
      AllInWindow(newNames, batch);
      byName := Overwrite(existing, submitted, byName);
      NamesOfBoth(existing, submitted);
      MissingNames(doc.names, byName, Names(existing) + Names(submitted));
      return Missing(doc.names, byName) == [], Stored(Pick(doc.names, byName));
    }
  }

  lemma NamesOfBoth(a: seq<Record>, b: seq<Record>)
    ensures Names(a + b) == Names(a) + Names(b)
  {
  }

  method Overwrite(existing: seq<Record>, submitted: seq<Record>, m: map<string, Record>)
    returns (byName: map<string, Record>)
    requires m == ByName(existing)
    ensures byName == ByName(existing + submitted)
  {
    hide ByName;
    byName := m;
    SeqAssoc(existing, [], []);
    for i := 0 to |submitted|
      invariant byName == ByName(existing + submitted[..i])
    {
      OneMore(submitted, i);
      SeqAssoc(existing, submitted[..i], [submitted[i]]);
      ByNameSnoc(existing + submitted[..i], submitted[i]);
      byName := byName[submitted[i].name := submitted[i]];
    }
    assert submitted[..|submitted|] == submitted;
  }

  lemma ByNameSnoc(records: seq<Record>, r: Record)
    ensures ByName(records + [r]) == ByName(records)[r.name := r]
  {
    assert (records + [r])[..|records|] == records;
  }

  lemma NotInWindow(newNames: seq<string>, batch: seq<string>)
    requires DropIn(newNames, batch) != []
    ensures !SubsetOf(newNames, batch)
  {
    var x := DropIn(newNames, batch)[0];
    assert x in DropIn(newNames, batch);
  }

  lemma AllInWindow(newNames: seq<string>, batch: seq<string>)
    requires DropIn(newNames, batch) == []
    ensures SubsetOf(newNames, batch)
  {
    forall x | x in newNames ensures x in batch {
      assert x in newNames && x !in batch ==> x in DropIn(newNames, batch);
    }
  }

  /** The names without a record. */
  function Missing(names: seq<string>, m: map<string, Record>): seq<string>
  {
    if names == [] then []
    else (if names[0] in m then [] else [names[0]]) + Missing(names[1..], m)
  }

  lemma {:induction false} MissingNames(names: seq<string>, m: map<string, Record>, recorded: seq<string>)
    requires forall n :: n in m <==> n in recorded
    ensures Missing(names, m) == DropIn(names, recorded)
    decreases |names|
  {
    if names != [] {
      MissingNames(names[1..], m, recorded);
    }
  }

  /** The stage checker that owns the stored payload. */
  class Recorder {
    var payload: Json
    const handler: BugRecordType

    constructor (handler: BugRecordType)
      ensures payload == Null && this.handler == handler
    {
      payload := Null;
      this.handler := handler;
    }

    method DoCheck(bugList: Json) returns (passed: bool)
      modifies this`payload
      ensures handler.expected.None? ==> !passed && payload == old(payload)
      ensures handler.expected.Some? ==>
                (passed, payload) ==
                Step(handler.expected.value, handler.batchSize, old(payload), bugList, handler.decode)
    {
      var result, kept := handler.Record(payload, bugList);
      if result || !kept.Null? || !payload.Null? {
        payload := kept;
      }
      passed := result;
    }
  }
}
