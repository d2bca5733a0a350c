/** Exactly which Bug records and which calls of the recorder are accepted (ucagent/checkers/recorder.py). */
module RecordRules {
  import opened Text
  import opened Lists
  import opened Locations
  import opened Records
  import opened RecordWindow

  // ---------------------------------------------------------------- the fields of a record

  function Field(fields: map<string, Json>, key: string): Json
  {
    if key in fields then fields[key] else Null
  }

  /** The texts of an array of strings; a single string is an array of one. */
  function TextsOf(raw: Json): Option<seq<string>>
  {
    match raw
    case Str(text) => Some([text])
    case List(items) =>
      if forall i :: 0 <= i < |items| ==> items[i].Str?
      then Some(Map(items, (x: Json) => if x.Str? then x.text else "")) else None
    case _ => None
  }

  function TagText(text: string): string
  {
    StripAngles(Strip(text))
  }

  /** The name is given as such, or as a complete label that also states a confidence. */
  predicate Named(raw: Json, name: string, stated: Option<real>)
  {
    && raw.Str? && Strip(raw.text) != ""
    && var given := Strip(raw.text);
    if "BG-" <= StripAngles(given)
    then ParseBugLabel(given).Some? && stated.Some? && ParseBugLabel(given).value == (name, stated.value)
    else given == name && '<' !in given && '>' !in given && stated.None?
  }

  /** The confidence is given as a fraction or as a percentage, or taken from the label. */
  predicate Given(raw: Json, stated: Option<real>, confidence: real)
  {
    match raw
    case Null => stated == Some(confidence)
    case Number(v) => 0.0 <= confidence <= 1.0 && confidence == if v > 1.0 then v / 100.0 else v
    case _ => false
  }

  predicate Near(a: real, b: real)
  {
    a - b <= 0.000000001 && b - a <= 0.000000001
  }

  /** Every declared alias is given exactly once, and nothing else. */
  ghost predicate AliasesFit(raw: Json, expected: seq<string>)
  {
    TextsOf(raw).Some? &&
    var texts := TextsOf(raw).value;
    && (forall i :: 0 <= i < |texts| ==> Strip(texts[i]) != "" && TagText(texts[i]) in expected)
    && (forall i, j :: 0 <= i < j < |texts| ==> TagText(texts[i]) != TagText(texts[j]))
    && (forall e :: e in expected ==> exists i :: 0 <= i < |texts| && TagText(texts[i]) == e)
  }

  /** The text means the declared checkpoint: its path, or a last part that no other declared checkpoint has. */
  ghost predicate MeansCk(text: string, expected: seq<string>, ck: string)
  {
    ck in expected &&
    (ck == TagText(text)
     || (TagText(text) !in expected && '/' !in TagText(text) && LastPart(ck) == TagText(text)
         && forall other :: other in expected && LastPart(other) == TagText(text) ==> other == ck))
  }

  ghost predicate MeansSome(text: string, expected: seq<string>)
  {
    exists ck :: MeansCk(text, expected, ck)
  }

  /** Every text means a declared checkpoint, and every declared checkpoint is meant. */
  ghost predicate CksFit(raw: Json, expected: seq<string>)
  {
    TextsOf(raw).Some? && TextsOf(raw).value != [] &&
    var texts := TextsOf(raw).value;
    && (forall i :: 0 <= i < |texts| ==> Strip(texts[i]) != "" && MeansSome(texts[i], expected))
    && (forall e :: e in expected ==> exists i :: 0 <= i < |texts| && MeansCk(texts[i], expected, e))
  }

  /** There is a location, and all of them can be read. */
  predicate LocationsFit(raw: Json)
  {
    TextsOf(raw).Some? && TextsOf(raw).value != [] &&
    forall i :: 0 <= i < |TextsOf(raw).value| ==> ParseLocation(TextsOf(raw).value[i]).Some?
  }

  function LocationTexts(texts: seq<string>): seq<string>
  {
    Map(texts, (t: string) => if ParseLocation(t).Some? then ParseLocation(t).value.text else "")
  }

  /** Every declared reference is given exactly once, and nothing else. */
  ghost predicate RefsFit(raw: Json, expected: seq<string>)
  {
    LocationsFit(raw) &&
    var refs := LocationTexts(TextsOf(raw).value);
    && (forall i, j :: 0 <= i < j < |refs| ==> refs[i] != refs[j])
    && (forall r :: r in refs <==> r in expected)
  }

  predicate TextFits(raw: Json, text: string)
  {
    raw.Str? && Strip(raw.text) != "" && text == Strip(raw.text)
  }

  /** The entry is what the record was made of, with this confidence in its label. */
  ghost predicate RecordFits(raw: Json, doc: Document, r: Record, stated: Option<real>)
  {
    && raw.Object? && Named(Field(raw.fields, "bug_name"), r.name, stated) && r.name in doc.bugs
    && var e := doc.bugs[r.name];
    && r.alias == e.alias && r.ck == e.ck && r.refs == e.refs
    && Given(Field(raw.fields, "confidence"), stated, r.confidence) && Near(r.confidence, e.confidence)
    && (stated.Some? ==> Near(r.confidence, stated.value))
    && AliasesFit(Field(raw.fields, "alias"), e.alias)
    && CksFit(if "CK" in raw.fields then raw.fields["CK"] else Field(raw.fields, "ck"), e.ck)
    && TextFits(Field(raw.fields, "desc"), r.desc)
    && LocationsFit(Field(raw.fields, "locations"))
    && r.locations == Unique(LocationTexts(TextsOf(Field(raw.fields, "locations")).value))
    && RefsFit(Field(raw.fields, "ref"), e.refs)
    && TextFits(Field(raw.fields, "severity"), r.severity)
    && Lower(r.severity) in ["lowest", "low", "medium", "high", "highest"]
  }

  /** The entry is what the record was made of. */
  ghost predicate Fits(raw: Json, doc: Document, r: Record)
  {
    exists stated :: RecordFits(raw, doc, r, stated)
  }

  // ---------------------------------------------------------------- the validator against the rules

  lemma TextsIff(raw: Json)
    ensures TextsOf(raw).Some? <==> Items(raw).Some? && forall x :: x in Items(raw).value ==> x.Str?
    ensures TextsOf(raw).Some? ==>
              && |TextsOf(raw).value| == |Items(raw).value|
              && forall i :: 0 <= i < |Items(raw).value| ==> Items(raw).value[i] == Str(TextsOf(raw).value[i])
  {
    if raw.List? {
      forall i | 0 <= i < |raw.items| ensures raw.items[i] in raw.items {}
    }
  }

  lemma TextTags(raw: Json)
    requires Items(raw).Some? && forall x :: x in Items(raw).value ==> IsText(x)
    ensures TextsOf(raw).Some? && |TextsOf(raw).value| == |Items(raw).value|
    ensures var texts, tags := TextsOf(raw).value, Map(Items(raw).value, TagOf);
            forall i :: 0 <= i < |texts| ==> tags[i] == TagText(texts[i]) && Strip(texts[i]) != ""
  {
    hide Strip, StripAngles;
    TextsIff(raw);
    var items := Items(raw).value;
    forall i | 0 <= i < |items| ensures IsText(items[i]) { assert items[i] in items; }
  }

  lemma AllTexts(raw: Json)
    requires TextsOf(raw).Some? && forall i :: 0 <= i < |TextsOf(raw).value| ==> Strip(TextsOf(raw).value[i]) != ""
    ensures Items(raw).Some? && forall x :: x in Items(raw).value ==> IsText(x)
  {
    hide Strip;
    TextsIff(raw);
    var items := Items(raw).value;
    forall x | x in items ensures IsText(x) {
      var i :| 0 <= i < |items| && items[i] == x;
    }
  }

  lemma AliasesIff(raw: Json, expected: seq<string>)
    ensures AliasesMatch(raw, expected) <==> AliasesFit(raw, expected)
  {
    hide Strip, TagOf, TagText, IsText, Items, TextsOf;
    if AliasesMatch(raw, expected) {
      TextTags(raw);
      AliasesOfTags(Map(Items(raw).value, TagOf), TextsOf(raw).value, expected);
    }
    if AliasesFit(raw, expected) {
      AllTexts(raw);
      TextTags(raw);
      AliasesOfTags(Map(Items(raw).value, TagOf), TextsOf(raw).value, expected);
    }
  }

  lemma AliasesOfTags(tags: seq<string>, texts: seq<string>, expected: seq<string>)
    requires |tags| == |texts| && forall i :: 0 <= i < |texts| ==> tags[i] == TagText(texts[i])
    ensures (NoDup(tags) && forall t :: t in tags <==> t in expected) <==>
            && (forall i :: 0 <= i < |texts| ==> TagText(texts[i]) in expected)
            && (forall i, j :: 0 <= i < j < |texts| ==> TagText(texts[i]) != TagText(texts[j]))
            && (forall e :: e in expected ==> exists i :: 0 <= i < |texts| && TagText(texts[i]) == e)
  {
    hide TagText;
    forall e ensures e in tags <==> exists i :: 0 <= i < |texts| && TagText(texts[i]) == e {
      if exists i :: 0 <= i < |texts| && TagText(texts[i]) == e {
        var i :| 0 <= i < |texts| && TagText(texts[i]) == e;
        assert tags[i] == e;
      }
    }
    if forall t :: t in tags <==> t in expected {
      forall i | 0 <= i < |texts| ensures TagText(texts[i]) in expected { assert tags[i] in tags; }
    }
  }

  lemma MeansIff(text: string, expected: seq<string>, ck: string)
    requires NoDup(expected)
    ensures ResolveCk(Str(text), expected) == Some(ck) <==> MeansCk(text, expected, ck)
  {
    hide Strip, StripAngles, LastPart, ResolveCk;
    ResolveIff(Str(text), expected, ck);
  }

  lemma MeansSomeIff(text: string, expected: seq<string>)
    requires NoDup(expected)
    ensures ResolveCk(Str(text), expected).Some? <==> MeansSome(text, expected)
  {
    hide ResolveCk, MeansCk;
    if MeansSome(text, expected) {
      var ck :| MeansCk(text, expected, ck);
      MeansIff(text, expected, ck);
    }
    if ResolveCk(Str(text), expected).Some? { MeansIff(text, expected, ResolveCk(Str(text), expected).value); }
  }

  lemma CksOfTexts(items: seq<Json>, texts: seq<string>, expected: seq<string>)
    requires |items| == |texts| && (forall i :: 0 <= i < |items| ==> items[i] == Str(texts[i])) && NoDup(expected)
    ensures var cks := Map(items, (x: Json) => ResolveCk(x, expected));
            (None !in cks && forall e :: e in expected ==> Some(e) in cks) <==>
            && (forall i :: 0 <= i < |texts| ==> MeansSome(texts[i], expected))
            && (forall e :: e in expected ==> exists i :: 0 <= i < |texts| && MeansCk(texts[i], expected, e))
  {
    hide ResolveCk, MeansCk, MeansSome;
    var cks := Map(items, (x: Json) => ResolveCk(x, expected));
    forall i | 0 <= i < |texts| ensures cks[i].Some? <==> MeansSome(texts[i], expected) { MeansSomeIff(texts[i], expected); }
    NoneMissing(cks);
    forall e ensures Some(e) in cks <==> exists i :: 0 <= i < |texts| && MeansCk(texts[i], expected, e) {
      forall i | 0 <= i < |texts| ensures cks[i] == Some(e) <==> MeansCk(texts[i], expected, e) {
        MeansIff(texts[i], expected, e);
      }
    }
  }

  lemma NoneMissing(cks: seq<Option<string>>)
    ensures None !in cks <==> forall i :: 0 <= i < |cks| ==> cks[i].Some?
  {
    if None !in cks {
      forall i | 0 <= i < |cks| ensures cks[i].Some? { assert cks[i] in cks; }
    }
  }

  lemma CksIff(raw: Json, expected: seq<string>)
    requires NoDup(expected)
    ensures CksMatch(raw, expected) <==> CksFit(raw, expected)
  {
    hide Strip, TagOf, TagText, IsText, Items, TextsOf, ResolveCk, MeansCk, MeansSome;
    if CksMatch(raw, expected) {
      TextTags(raw);
      TextsIff(raw);
      CksOfTexts(Items(raw).value, TextsOf(raw).value, expected);
    }
    if CksFit(raw, expected) {
      AllTexts(raw);
      TextsIff(raw);
      assert Items(raw).value != [];
      CksOfTexts(Items(raw).value, TextsOf(raw).value, expected);
    }
  }

  lemma LocationsIff(raw: Json)
    ensures LocationsFit(raw) <==> Items(raw).Some? && Items(raw).value != [] && forall x :: x in Items(raw).value ==> IsLocation(x)
    ensures LocationsFit(raw) ==> LocationTexts(TextsOf(raw).value) == Map(Items(raw).value, LocationOf)
  {
    hide ParseLocation, Items, TextsOf;
    TextsIff(raw);
    if LocationsFit(raw) {
      var items := Items(raw).value;
      forall x | x in items ensures IsLocation(x) {
        var i :| 0 <= i < |items| && items[i] == x;
        assert TextsOf(raw).value[i] == x.text;
      }
      forall i | 0 <= i < |items| ensures LocationTexts(TextsOf(raw).value)[i] == LocationOf(items[i]) {
        assert items[i] == Str(TextsOf(raw).value[i]);
      }
    }
    if Items(raw).Some? && forall x :: x in Items(raw).value ==> IsLocation(x) {
      forall i | 0 <= i < |Items(raw).value| ensures ParseLocation(TextsOf(raw).value[i]).Some? {
        assert Items(raw).value[i] in Items(raw).value;
      }
    }
  }

  lemma RefsIff(raw: Json, expected: seq<string>)
    ensures RefsMatch(raw, expected) <==> RefsFit(raw, expected)
  {
    hide LocationsFit, Items, TextsOf, LocationTexts, LocationOf, IsLocation;
    LocationsIff(raw);
  }

  lemma NameIff(raw: Json, name: string, stated: Option<real>)
    ensures ReadName(raw) == Some((name, stated)) <==> Named(raw, name, stated)
  {
    hide Strip, StripAngles, ParseBugLabel;
  }

  lemma ConfidenceIff(raw: Json, stated: Option<real>, expected: real, c: real)
    requires stated.Some? ==> 0.0 <= stated.value <= 1.0
    ensures ReadConfidence(raw, stated, expected) == Some(c) <==>
            Given(raw, stated, c) && Near(c, expected) && (stated.Some? ==> Near(c, stated.value))
  {
  }

  lemma StatedIsFraction(raw: Json, name: string, stated: Option<real>)
    requires Named(raw, name, stated) && stated.Some?
    ensures 0.0 <= stated.value <= 1.0
  {
    LabelIsFraction(Strip(raw.text));
    hide Strip, StripAngles, ParseBugLabel;
  }

  lemma LabelIsFraction(bug: string)
    ensures ParseBugLabel(bug).Some? ==> 0.0 <= ParseBugLabel(bug).value.1 <= 1.0
  {
    hide Strip, StripAngles, LastIndexOf, IsBlank, DigitsValue;
  }

  lemma FieldsOf(raw: Json)
    requires raw.Object?
    ensures forall key :: Get(raw.fields, key) == Field(raw.fields, key)
    ensures CkField(raw.fields) == if "CK" in raw.fields then raw.fields["CK"] else Field(raw.fields, "ck")
  {
  }

  lemma TextIff(raw: Json)
    ensures IsText(raw) <==> raw.Str? && TextFits(raw, Strip(raw.text))
    ensures IsSeverity(raw) <==> IsText(raw) && Lower(Strip(raw.text)) in ["lowest", "low", "medium", "high", "highest"]
  {
    hide Strip, Lower;
  }

  /** Exactly which entries are accepted, and as which record. */
  lemma EntryIff(raw: Json, doc: Document, r: Record)
    requires forall n :: n in doc.bugs ==> NoDup(doc.bugs[n].ck)
    ensures Entry(raw, doc) == Some(r) <==> Fits(raw, doc, r)
  {
    hide ReadName, Named, ReadConfidence, Given, Near, AliasesMatch, AliasesFit, CksMatch, CksFit, LocationsFit, RefsMatch,
      RefsFit, IsText, IsSeverity, TextsOf, LocationTexts, Unique, Strip, Lower, Get, Field, CkField, LocationsIn, TextFits;
    if raw.Object? {
      var f := raw.fields;
      FieldsOf(raw);
      if ReadName(Get(f, "bug_name")).Some? {
        var (name, stated) := ReadName(Get(f, "bug_name")).value;
        NameIff(Get(f, "bug_name"), name, stated);
        if name in doc.bugs { NamedEntryIff(raw, doc, r, name, stated); }
        NamedOnce(raw, doc, r, name, stated);
      } else {
        forall stated ensures !RecordFits(raw, doc, r, stated) { NameIff(Get(f, "bug_name"), r.name, stated); }
      }
    }
  }

  lemma NamedOnce(raw: Json, doc: Document, r: Record, name: string, stated: Option<real>)
    requires raw.Object? && ReadName(Get(raw.fields, "bug_name")) == Some((name, stated))
    ensures forall other :: RecordFits(raw, doc, r, other) ==> other == stated && r.name == name
  {
    hide ReadName, Named, Given, Near, AliasesFit, CksFit, LocationsFit, RefsFit, TextsOf, LocationTexts, Unique, Lower, TextFits;
    forall other | RecordFits(raw, doc, r, other) ensures other == stated && r.name == name {
      NameIff(Get(raw.fields, "bug_name"), r.name, other);
    }
  }

  lemma NamedEntryIff(raw: Json, doc: Document, r: Record, name: string, stated: Option<real>)
    requires raw.Object? && ReadName(Get(raw.fields, "bug_name")) == Some((name, stated)) && name in doc.bugs
    requires NoDup(doc.bugs[name].ck)
    ensures Entry(raw, doc) == Some(r) <==> RecordFits(raw, doc, r, stated)
  {
    hide ReadName, Named, ReadConfidence, Given, Near, AliasesMatch, AliasesFit, CksMatch, CksFit, LocationsFit, RefsMatch,
      RefsFit, IsText, IsSeverity, TextsOf, LocationTexts, Unique, Strip, Lower, Get, Field, CkField, IsLocation, LocationOf, Items,
      TextFits;
    var f, e := raw.fields, doc.bugs[name];
    FieldsOf(raw);
    NameIff(Get(f, "bug_name"), name, stated);
    NameIff(Get(f, "bug_name"), r.name, stated);
    if stated.Some? { StatedIsFraction(Get(f, "bug_name"), name, stated); }
    ConfidenceIff(Get(f, "confidence"), stated, e.confidence, r.confidence);
    if ReadConfidence(Get(f, "confidence"), stated, e.confidence).Some? {
      ConfidenceIff(Get(f, "confidence"), stated, e.confidence, ReadConfidence(Get(f, "confidence"), stated, e.confidence).value);
    }
    AliasesIff(Get(f, "alias"), e.alias);
    CksIff(CkField(f), e.ck);
    LocationsIff(Get(f, "locations"));
    RefsIff(Get(f, "ref"), e.refs);
    TextIff(Get(f, "desc"));
    TextIff(Get(f, "severity"));
    TextOnce(Get(f, "desc"), r.desc);
    TextOnce(Get(f, "severity"), r.severity);
  }

  lemma TextOnce(raw: Json, text: string)
    ensures TextFits(raw, text) <==> raw.Str? && TextFits(raw, Strip(raw.text)) && text == Strip(raw.text)
  {
    hide Strip;
  }

  // ---------------------------------------------------------------- lists of records

  /** Each item is what the record in its place was made of, and no name repeats. */
  ghost predicate ListFits(items: seq<Json>, doc: Document, records: seq<Record>)
  {
    && |records| == |items|
    && (forall i :: 0 <= i < |items| ==> Fits(items[i], doc, records[i]))
    && (forall i, j :: 0 <= i < j < |records| ==> records[i].name != records[j].name)
  }

  lemma EntriesIff(items: seq<Json>, doc: Document, records: seq<Record>)
    requires forall n :: n in doc.bugs ==> NoDup(doc.bugs[n].ck)
    ensures EntriesOf(items, doc, records) <==> ListFits(items, doc, records)
  {
    hide Entry, Fits;
    NamesDiffer(records);
    if |records| == |items| {
      forall i | 0 <= i < |items|
        ensures Entry(items[i], doc) == Some(records[i]) <==> Fits(items[i], doc, records[i]) {
        EntryIff(items[i], doc, records[i]);
      }
    }
  }

  lemma NamesDiffer(records: seq<Record>)
    ensures NoDup(Names(records)) <==> forall i, j :: 0 <= i < j < |records| ==> records[i].name != records[j].name
  {
    if NoDup(Names(records)) {
      forall i, j | 0 <= i < j < |records| ensures records[i].name != records[j].name {
        assert Names(records)[i] != Names(records)[j];
      }
    }
  }

  /** The array a payload stands for: itself, or what a legacy string decodes to. */
  function ArrayOf(raw: Json, decode: Decoder): Option<seq<Json>>
  {
    match raw
    case List(items) => Some(items)
    case Str(text) =>
      (match decode(text)
       case Some(List(items)) => Some(items)
       case _ => None)
    case _ => None
  }

  /** Exactly which arrays are accepted, and as which records. */
  lemma NormalizedIff(raw: Json, doc: Document, decode: Decoder, records: seq<Record>)
    requires forall n :: n in doc.bugs ==> NoDup(doc.bugs[n].ck)
    ensures Normalized(raw, doc, decode) == Some(records) <==>
            ArrayOf(raw, decode).Some? && ListFits(ArrayOf(raw, decode).value, doc, records)
  {
    hide EntriesOf, ListFits;
    if ArrayOf(raw, decode).Some? { EntriesIff(ArrayOf(raw, decode).value, doc, records); }
    if Accepts(raw, doc, decode, records) { AcceptedIsNormalized(raw, doc, decode, records); }
  }

  // ---------------------------------------------------------------- one call

  /** The Bug is one of the first `b` of the document that are not recorded. */
  predicate IsNext(names: seq<string>, b: nat, recorded: seq<string>, n: string)
  {
    exists i :: 0 <= i < |names| && names[i] == n && n !in recorded && |DropIn(names[..i], recorded)| < b
  }

  /** A submission is acted on: unless it is empty or nothing is missing it has a Bug that is not recorded, and every such
      Bug is one of the next. */
  predicate MayRecord(names: seq<string>, b: nat, recorded: seq<string>, submitted: seq<string>)
  {
    && (submitted == [] || (forall n :: n in names ==> n in recorded) || exists n :: n in submitted && n !in recorded)
    && forall n :: n in submitted && n !in recorded ==> IsNext(names, b, recorded, n)
  }

  lemma NextIff(names: seq<string>, b: nat, recorded: seq<string>, n: string)
    requires NoDup(names)
    ensures n in Take(DropIn(names, recorded), b) <==> IsNext(names, b, recorded, n)
  {
    hide DropIn;
    var missing := DropIn(names, recorded);
    var batch := Take(missing, b);
    DropInNoDup(names, recorded);
    if IsNext(names, b, recorded, n) {
      var i :| 0 <= i < |names| && names[i] == n && n !in recorded && |DropIn(names[..i], recorded)| < b;
      PlaceInDropped(names, recorded, i);
      assert batch[|DropIn(names[..i], recorded)|] == n;
    }
    if n in batch {
      var j :| 0 <= j < |batch| && batch[j] == n;
      assert missing[j] == n && n in missing;
      var i :| 0 <= i < |names| && names[i] == n;
      PlaceInDropped(names, recorded, i);
      assert j == |DropIn(names[..i], recorded)|;
    }
  }

  lemma WindowIff(doc: Document, b: nat, recorded: seq<string>, submitted: seq<string>)
    requires NoDup(doc.names)
    ensures InWindow(doc, b, recorded, submitted) <==> MayRecord(doc.names, b, recorded, submitted)
  {
    hide IsNext, Take;
    forall n ensures n in Take(DropIn(doc.names, recorded), b) <==> IsNext(doc.names, b, recorded, n) {
      NextIff(doc.names, b, recorded, n);
    }
    var missing, added := DropIn(doc.names, recorded), DropIn(submitted, recorded);
    assert missing != [] ==> missing[0] in missing;
    assert added != [] ==> added[0] in added;
  }

  /** Exactly what one call does. Nothing is acted on when the payload or the submission cannot be read; without a
      submission the call passes if everything is recorded; a submission outside the next Bugs changes nothing; any other
      one is merged and passes if everything is recorded then. */
  lemma CallIff(doc: Document, b: nat, payload: Json, bugList: Json, decode: Decoder)
    requires NoDup(doc.names)
    ensures var (passed, next) := Step(doc, b, payload, bugList, decode);
            var stored := if payload.Null? then Some([]) else Normalized(payload, doc, decode);
            var submission := Normalized(bugList, doc, NoText);
            && (stored.None? ==> !passed && next == payload)
            && (stored.Some? && bugList.Null? ==>
                  next == Stored(stored.value) && (passed <==> forall n :: n in doc.names ==> n in Names(stored.value)))
            && (stored.Some? && !bugList.Null? && submission.None? ==> !passed && next == payload)
            && (stored.Some? && !bugList.Null? && submission.Some? ==>
                  if MayRecord(doc.names, b, Names(stored.value), Names(submission.value))
                  then next == Stored(Pick(doc.names, ByName(stored.value + submission.value)))
                       && (passed <==> forall n :: n in doc.names ==> n in Names(stored.value) || n in Names(submission.value))
                  else !passed && next == payload)
  {
    hide Normalized, InWindow, MayRecord, Stored, Pick, ByName, Names;
    var stored := if payload.Null? then Some([]) else Normalized(payload, doc, decode);
    var submission := Normalized(bugList, doc, NoText);
    if stored.Some? {
      NothingMissingIff(doc.names, Names(stored.value));
      if submission.Some? {
        WindowIff(doc, b, Names(stored.value), Names(submission.value));
        NothingMissingIff(doc.names, Names(stored.value) + Names(submission.value));
      }
    }
  }

  lemma NothingMissingIff(names: seq<string>, recorded: seq<string>)
    ensures DropIn(names, recorded) == [] <==> forall n :: n in names ==> n in recorded
  {
    assert DropIn(names, recorded) != [] ==> DropIn(names, recorded)[0] in DropIn(names, recorded);
  }
}
