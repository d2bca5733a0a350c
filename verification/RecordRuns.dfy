/** What holds of Bug records over whole runs of the recorder (ucagent/checkers/recorder.py). */
module RecordRuns {
  import opened Text
  import opened Lists
  import opened Locations
  import opened Records

  // ---------------------------------------------------------------- documents and records

  /** Tag names are read with all white space and angle brackets removed. */
  ghost predicate TagText(s: string)
  {
    s != "" && forall i :: 0 <= i < |s| ==> !IsSpace(s[i]) && !IsAngle(s[i])
  }

  ghost predicate CanonicalRef(r: string)
  {
    ParseLocation(r).Some? && ParseLocation(r).value.text == r
  }

  /** A confidence that can be written as a label. */
  ghost predicate Percentage(c: real)
  {
    exists percent: nat :: IsPercent(c, percent)
  }

  predicate IsPercent(c: real, percent: nat)
  {
    percent <= 100 && c == percent as real / 100.0
  }

  ghost predicate LoadedBug(e: Expected)
  {
    && Percentage(e.confidence)
    && (forall a :: a in e.alias ==> TagText(a)) && NoDup(e.alias)
    && (forall c :: c in e.ck ==> TagText(c)) && NoDup(e.ck) && e.ck != []
    && (forall r :: r in e.refs ==> CanonicalRef(r)) && NoDup(e.refs) && e.refs != []
  }

  ghost predicate SameMembers(s: seq<string>, t: seq<string>)
  {
    forall x :: x in s <==> x in t
  }

  /** What reading the Bug documents guarantees. Two Bugs differ in a reference because their tags are on
      different lines. */
  ghost predicate Loaded(doc: Document)
  {
    && doc.Valid()
    && (forall n :: n in doc.bugs ==> TagText(n) && LoadedBug(doc.bugs[n]))
    && (forall m, n :: m in doc.bugs && n in doc.bugs && SameMembers(doc.bugs[m].refs, doc.bugs[n].refs) ==> m == n)
  }

  /** What an accepted entry looks like when it is stored. */
  ghost predicate CanonicalRecord(doc: Document, r: Record)
  {
    && r.name in doc.bugs
    && var e := doc.bugs[r.name];
    && r.alias == e.alias && r.ck == e.ck && r.refs == e.refs
    && r.desc != "" && Strip(r.desc) == r.desc
    && r.locations != [] && NoDup(r.locations) && (forall l :: l in r.locations ==> CanonicalRef(l))
    && r.severity != "" && Strip(r.severity) == r.severity && Lower(r.severity) in SEVERITIES
    && 0.0 <= r.confidence <= 1.0 && Close(r.confidence, e.confidence)
  }

  /** A name that is read back as itself. */
  predicate Stable(name: string)
  {
    !("BG-" <= name)
  }

  // ---------------------------------------------------------------- accepted entries are canonical

  lemma ParseTwice(text: string)
    requires ParseLocation(text).Some?
    ensures CanonicalRef(ParseLocation(text).value.text)
  {
    StripIsClean(text);
    hide Strip, LastIndexOf, SplitOn, ParseItems;
  }

  lemma LabelConfidence(bug: string)
    ensures ParseBugLabel(bug).Some? ==> 0.0 <= ParseBugLabel(bug).value.1 <= 1.0
  {
    hide Strip, StripAngles, LastIndexOf, IsBlank, DigitsValue;
  }

  lemma ReadNameConfidence(raw: Json)
    ensures ReadName(raw).Some? && ReadName(raw).value.1.Some? ==> 0.0 <= ReadName(raw).value.1.value <= 1.0
  {
    if raw.Str? {
      LabelConfidence(Strip(raw.text));
    }
    hide Strip, StripAngles, ParseBugLabel, IsBlank;
  }

  lemma CanonicalLocations(raw: Json)
    ensures LocationsIn(raw).Some? ==>
              var r := LocationsIn(raw).value;
              r != [] && NoDup(r) && forall l :: l in r ==> CanonicalRef(l)
  {
    hide ParseLocation, Unique;
    if LocationsIn(raw).Some? {
      var items := Items(raw).value;
      var texts := Map(items, LocationOf);
      UniqueNoDup(texts);
      forall l | l in texts ensures CanonicalRef(l) {
        var i :| 0 <= i < |items| && texts[i] == l;
        assert items[i] in items;
        ParseTwice(items[i].text);
      }
    }
  }

  lemma StrippedText(raw: Json)
    requires IsText(raw)
    ensures Strip(raw.text) != "" && Strip(Strip(raw.text)) == Strip(raw.text)
  {
    StripIsClean(raw.text);
    hide Strip;
  }

  lemma EntryIsCanonical(raw: Json, doc: Document)
    requires Entry(raw, doc).Some?
    ensures CanonicalRecord(doc, Entry(raw, doc).value)
  {
    var f := raw.fields;
    ReadNameConfidence(Get(f, "bug_name"));
    CanonicalLocations(Get(f, "locations"));
    StrippedText(Get(f, "desc"));
    StrippedText(Get(f, "severity"));
    hide ReadName, LocationsIn, AliasesMatch, CksMatch, RefsMatch, Strip, IsBlank, Lower, CanonicalRef;
  }

  /** Every list the validator produces has one canonical record per entry, without a repeated name. */
  lemma NormalizedIsCanonical(raw: Json, doc: Document, decode: Decoder)
    requires Normalized(raw, doc, decode).Some?
    ensures var records := Normalized(raw, doc, decode).value;
            NoDup(Names(records)) && forall r :: r in records ==> CanonicalRecord(doc, r)
  {
    hide Entry, CanonicalRecord;
    var records := Normalized(raw, doc, decode).value;
    var items := if raw.Str? then decode(raw.text).value.items else raw.items;
    forall r | r in records ensures CanonicalRecord(doc, r) {
      var i :| 0 <= i < |records| && records[i] == r;
      EntryIsCanonical(items[i], doc);
    }
  }

  // ---------------------------------------------------------------- reading stored records

  lemma TagReadsBack(s: string)
    requires TagText(s)
    ensures IsText(Str(s)) && TagOf(Str(s)) == s && Strip(s) == s && StripAngles(s) == s
    ensures '<' !in s && '>' !in s
  {
    CleanIsStripped(s);
  }

  lemma TagsReadBack(tags: seq<string>)
    requires forall t :: t in tags ==> TagText(t)
    ensures Map(Quoted(tags).items, TagOf) == tags
    ensures forall x :: x in Quoted(tags).items ==> IsText(x)
  {
    hide TagText, TagOf, IsText;
    forall i | 0 <= i < |tags| ensures TagOf(Str(tags[i])) == tags[i] && IsText(Str(tags[i])) {
      assert tags[i] in tags;
      TagReadsBack(tags[i]);
    }
  }

  lemma RefsReadBack(refs: seq<string>)
    requires forall r :: r in refs ==> CanonicalRef(r)
    ensures Map(Quoted(refs).items, LocationOf) == refs
    ensures forall x :: x in Quoted(refs).items ==> IsLocation(x)
  {
    hide ParseLocation;
    forall i | 0 <= i < |refs| ensures LocationOf(Str(refs[i])) == refs[i] && IsLocation(Str(refs[i])) {
      assert refs[i] in refs;
    }
  }

  lemma CksReadBack(cks: seq<string>)
    requires cks != [] && forall c :: c in cks ==> TagText(c)
    ensures CksMatch(Quoted(cks), cks)
  {
    TagsReadBack(cks);
    hide TagText, IsText, TagOf;
    var items := Quoted(cks).items;
    var read := Map(items, (x: Json) => ResolveCk(x, cks));
    forall i | 0 <= i < |cks| ensures read[i] == Some(cks[i]) {
      assert Map(items, TagOf)[i] == cks[i];
      assert cks[i] in cks;
    }
    forall e | e in cks ensures Some(e) in read {
      var i :| 0 <= i < |cks| && cks[i] == e;
      assert read[i] == Some(e);
    }
  }

  lemma LocationsReadBack(locations: seq<string>)
    requires locations != [] && NoDup(locations) && forall l :: l in locations ==> CanonicalRef(l)
    ensures LocationsIn(Quoted(locations)) == Some(locations)
  {
    hide ParseLocation, Unique, LocationOf, IsLocation, CanonicalRef;
    RefsReadBack(locations);
    UniqueOfNoDup(locations);
  }

  lemma StrippedIsText(s: string)
    requires s != "" && Strip(s) == s
    ensures IsText(Str(s))
  {
  }

  /** A tag name of the form `BG-...` reads as a strictly shorter name, or not at all. */
  lemma UnstableName(name: string)
    requires TagText(name) && !Stable(name)
    ensures ReadName(Str(name)).Some? ==> ReadName(Str(name)).value.0 != name
  {
    TagReadsBack(name);
    hide Strip, StripAngles, TagText, IsBlank, LastIndexOf, DigitsValue;
  }

  lemma StableName(name: string)
    requires TagText(name) && Stable(name)
    ensures ReadName(Str(name)) == Some((name, None))
  {
    TagReadsBack(name);
    hide Strip, StripAngles, TagText, IsBlank;
  }

  lemma FieldsOf(r: Record)
    ensures var f := RecordJson(r).fields;
            && Get(f, "bug_name") == Str(r.name) && Get(f, "alias") == Quoted(r.alias)
            && CkField(f) == Quoted(r.ck) && Get(f, "desc") == Str(r.desc)
            && Get(f, "locations") == Quoted(r.locations) && Get(f, "severity") == Str(r.severity)
            && Get(f, "confidence") == Number(r.confidence) && Get(f, "ref") == Quoted(r.refs)
  {
    hide Quoted;
  }

  lemma DeclaredReadBack(e: Expected)
    requires LoadedBug(e)
    ensures AliasesMatch(Quoted(e.alias), e.alias) && CksMatch(Quoted(e.ck), e.ck) && RefsMatch(Quoted(e.refs), e.refs)
  {
    TagsReadBack(e.alias);
    CksReadBack(e.ck);
    RefsReadBack(e.refs);
    hide LocationOf, IsLocation, TagOf, IsText, TagText, CanonicalRef, ResolveCk, CksMatch;
  }

  lemma TextsReadBack(doc: Document, r: Record)
    requires CanonicalRecord(doc, r)
    ensures IsText(Str(r.desc)) && Strip(r.desc) == r.desc
    ensures IsSeverity(Str(r.severity)) && Strip(r.severity) == r.severity
    ensures LocationsIn(Quoted(r.locations)) == Some(r.locations)
    ensures ReadConfidence(Number(r.confidence), None, doc.bugs[r.name].confidence) == Some(r.confidence)
  {
    hide IsText, Strip, Lower, CanonicalRef, LocationsIn, IsBlank, Close, Quoted;
    LocationsReadBack(r.locations);
    StrippedIsText(r.desc);
    StrippedIsText(r.severity);
    assert ReadConfidence(Number(r.confidence), None, doc.bugs[r.name].confidence) == Some(r.confidence);
  }

  lemma StableEntry(doc: Document, r: Record)
    requires Loaded(doc) && CanonicalRecord(doc, r) && Stable(r.name)
    ensures Entry(RecordJson(r), doc) == Some(r)
  {
    FieldsOf(r);
    hide ReadName, RecordJson, CksMatch, LocationsIn, AliasesMatch, IsText, IsSeverity, ReadConfidence, Quoted,
      CanonicalRef, TagText, Stable, RefsMatch, Strip, Lower, Close, CkField, Get, LoadedBug;
    StableName(r.name);
    DeclaredReadBack(doc.bugs[r.name]);
    TextsReadBack(doc, r);
    JsonIsObject(r);
  }

  lemma JsonIsObject(r: Record)
    ensures RecordJson(r).Object?
  {
  }

  /** A stored record is read back as itself exactly when its name does not start with `BG-`; otherwise the
      whole stored list becomes unreadable. */
  lemma StoredEntry(doc: Document, r: Record)
    requires Loaded(doc) && CanonicalRecord(doc, r)
    ensures Entry(RecordJson(r), doc) == if Stable(r.name) then Some(r) else None
  {
    if Stable(r.name) {
      StableEntry(doc, r);
    } else {
      FieldsOf(r);
      UnstableName(r.name);
      hide ReadName, RecordJson, CksMatch, LocationsIn, AliasesMatch, IsText, IsSeverity, ReadConfidence, Quoted,
        CanonicalRef, TagText, Stable, RefsMatch;
      var name := ReadName(Str(r.name));
      if name.Some? && name.value.0 in doc.bugs {
        OtherRefs(doc, r, name.value.0);
      }
    }
  }

  lemma OtherRefs(doc: Document, r: Record, other: string)
    requires Loaded(doc) && CanonicalRecord(doc, r) && other in doc.bugs && other != r.name
    ensures !RefsMatch(Quoted(r.refs), doc.bugs[other].refs)
  {
    var refs := doc.bugs[r.name].refs;
    RefsReadBack(refs);
    hide LocationOf, IsLocation, TagText, Strip;
    assert !SameMembers(refs, doc.bugs[other].refs);
  }

  /** A stored canonical list is read back as itself, or not at all. */
  lemma StoredReadsBack(doc: Document, records: seq<Record>, decode: Decoder)
    requires Loaded(doc) && NoDup(Names(records)) && forall r :: r in records ==> CanonicalRecord(doc, r)
    ensures Normalized(Stored(records), doc, decode) ==
            if forall r :: r in records ==> Stable(r.name) then Some(records) else None
  {
    hide Entry, CanonicalRecord, Stable, RecordJson, Loaded;
    var items := Stored(records).items;
    forall i | 0 <= i < |records| ensures Entry(items[i], doc) ==
                                          if Stable(records[i].name) then Some(records[i]) else None {
      assert records[i] in records;
      StoredEntry(doc, records[i]);
    }
    if forall r :: r in records ==> Stable(r.name) {
      assert EntriesOf(items, doc, records);
      AcceptedIsNormalized(Stored(records), doc, decode, records);
    } else {
      var r :| r in records && !Stable(r.name);
      var i :| 0 <= i < |records| && records[i] == r;
      assert Entry(items[i], doc) == None;
    }
  }

  /** Normalising an accepted list again changes nothing exactly when no name starts with `BG-`. */
  lemma NormalizingTwiceIff(raw: Json, doc: Document, decode: Decoder)
    requires Loaded(doc) && Normalized(raw, doc, decode).Some?
    ensures var records := Normalized(raw, doc, decode).value;
            Normalized(Stored(records), doc, decode) == Some(records) <==>
            forall r :: r in records ==> Stable(r.name)
  {
    NormalizedIsCanonical(raw, doc, decode);
    StoredReadsBack(doc, Normalized(raw, doc, decode).value, decode);
    hide Normalized, CanonicalRecord, Stable, Loaded, Stored;
  }

  /** A percentage above one reads as the fraction it stands for, whatever label and document say. */
  lemma PercentReadsAsFraction(percent: real, stated: Option<real>, expected: real)
    requires percent > 1.0
    ensures ReadConfidence(Number(percent), stated, expected) ==
            if percent <= 100.0 then ReadConfidence(Number(percent / 100.0), stated, expected) else None
  {
    assert 0.0 <= percent / 100.0;
    assert percent / 100.0 <= 1.0 <==> percent <= 100.0;
  }

  // ---------------------------------------------------------------- the order of entries

  const UNORDERED := {"alias", "CK", "ck", "ref"}

  ghost predicate Rearranged(a: Json, b: Json)
  {
    a == b || (a.List? && b.List? && multiset(a.items) == multiset(b.items))
  }

  /** The same entry, with the alias, CK and ref arrays in any order. */
  ghost predicate SameButOrder(a: map<string, Json>, b: map<string, Json>)
  {
    a.Keys == b.Keys && forall k :: k in a ==> a[k] == b[k] || (k in UNORDERED && Rearranged(a[k], b[k]))
  }

  lemma MappedMembers<T(!new)>(a: seq<Json>, b: seq<Json>, f: Json -> T)
    requires multiset(a) == multiset(b)
    ensures forall x :: x in a <==> x in b
    ensures a == [] <==> b == []
    ensures forall y :: y in Map(a, f) <==> y in Map(b, f)
    ensures NoDup(Map(a, f)) <==> NoDup(Map(b, f))
  {
    SameItems(a, b);
    MapRearranged(a, b, f);
    SameItems(Map(a, f), Map(b, f));
    NoDupByCount(Map(a, f));
    NoDupByCount(Map(b, f));
  }

  lemma OrderOfAliases(a: Json, b: Json, expected: seq<string>)
    requires Rearranged(a, b)
    ensures AliasesMatch(a, expected) == AliasesMatch(b, expected)
  {
    hide TagOf, IsText, NoDup, Map;
    if a != b { MappedMembers(a.items, b.items, TagOf); }
  }

  lemma OrderOfCks(a: Json, b: Json, expected: seq<string>)
    requires Rearranged(a, b)
    ensures CksMatch(a, expected) == CksMatch(b, expected)
  {
    hide ResolveCk, IsText, NoDup, Map;
    if a != b { MappedMembers(a.items, b.items, (x: Json) => ResolveCk(x, expected)); }
  }

  lemma OrderOfRefs(a: Json, b: Json, expected: seq<string>)
    requires Rearranged(a, b)
    ensures RefsMatch(a, expected) == RefsMatch(b, expected)
  {
    hide LocationOf, IsLocation, NoDup, Map;
    if a != b { MappedMembers(a.items, b.items, LocationOf); }
  }

  lemma SameField(a: map<string, Json>, b: map<string, Json>, key: string)
    requires SameButOrder(a, b)
    ensures if key in UNORDERED then Rearranged(Get(a, key), Get(b, key)) else Get(a, key) == Get(b, key)
    ensures Rearranged(CkField(a), CkField(b))
  {
  }

  /** The order of alias, CK and ref values does not matter. */
  lemma OrderIsIgnored(a: map<string, Json>, b: map<string, Json>, doc: Document)
    requires SameButOrder(a, b)
    ensures Entry(Object(a), doc) == Entry(Object(b), doc)
  {
    hide ReadName, AliasesMatch, CksMatch, RefsMatch, LocationsIn, IsText, IsSeverity, ReadConfidence, Get, CkField,
      SameButOrder, Rearranged, Strip;
    SameField(a, b, "bug_name");
    SameField(a, b, "confidence");
    SameField(a, b, "desc");
    SameField(a, b, "locations");
    SameField(a, b, "severity");
    SameField(a, b, "alias");
    SameField(a, b, "ref");
    var name := ReadName(Get(a, "bug_name"));
    if name.Some? && name.value.0 in doc.bugs {
      var e := doc.bugs[name.value.0];
      OrderOfAliases(Get(a, "alias"), Get(b, "alias"), e.alias);
      OrderOfCks(CkField(a), CkField(b), e.ck);
      OrderOfRefs(Get(a, "ref"), Get(b, "ref"), e.refs);
    }
  }
}
