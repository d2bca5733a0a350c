/** Which documents the Bug recorder can ever finish: Bugs whose name starts with `BG-` make the stored list
    unreadable, so all of them have to be recorded by the very last call (ucagent/checkers/recorder.py). */
module RecordCompletion {
  import opened Text
  import opened Lists
  import opened Locations
  import opened Records
  import opened RecordRuns
  import opened RecordWindow

  // ---------------------------------------------------------------- records for every Bug

  /** The record as it is submitted with the complete label of the Bug in place of its name. */
  function LabelledJson(r: Record, percent: nat): Json
  {
    Object(RecordJson(r).fields["bug_name" := Str("<" + BugLabel(r.name, percent) + ">")])
  }

  lemma LabelledName(name: string, percent: nat)
    requires TagText(name) && percent <= 100
    ensures ReadName(Str("<" + BugLabel(name, percent) + ">")) == Some((name, Some(percent as real / 100.0)))
  {
    TagIsNotBlank(name);
    LabelRoundTripIff(name, percent);
    TagReadsAsLabel(name, percent);
    LabelParts(name, percent);
    LabelPrefix(name, percent);
    var text := "<" + BugLabel(name, percent) + ">";
    AnglesOff(BugLabel(name, percent));
    CleanIsStripped(text);
    hide BugLabel, ParseBugLabel, StripAngles, Strip;
  }

  lemma TagIsNotBlank(name: string)
    requires TagText(name)
    ensures !IsBlank(name) && '\n' !in name
  {
    CleanIsStripped(name);
  }

  lemma LabelledFields(r: Record, percent: nat)
    ensures var f := LabelledJson(r, percent).fields;
            && LabelledJson(r, percent).Object?
            && Get(f, "bug_name") == Str("<" + BugLabel(r.name, percent) + ">")
            && Get(f, "alias") == Quoted(r.alias) && CkField(f) == Quoted(r.ck) && Get(f, "desc") == Str(r.desc)
            && Get(f, "locations") == Quoted(r.locations) && Get(f, "severity") == Str(r.severity)
            && Get(f, "confidence") == Number(r.confidence) && Get(f, "ref") == Quoted(r.refs)
  {
    hide Quoted, BugLabel;
  }

  /** Submitted with its label, every canonical record is accepted, whatever the Bug is called. */
  lemma LabelledEntry(doc: Document, r: Record, percent: nat)
    requires Loaded(doc) && CanonicalRecord(doc, r) && r.name in doc.bugs && IsPercent(doc.bugs[r.name].confidence, percent)
    ensures Entry(LabelledJson(r, percent), doc) == Some(r)
  {
    hide ReadName, RecordJson, LabelledJson, CksMatch, LocationsIn, AliasesMatch, IsText, IsSeverity, Quoted,
      CanonicalRef, TagText, RefsMatch, Strip, Lower, CkField, Get, LoadedBug, BugLabel;
    LabelledFields(r, percent);
    LabelledName(r.name, percent);
    DeclaredReadBack(doc.bugs[r.name]);
    TextsReadBack(doc, r);
    LabelledConfidence(r.confidence, percent, doc.bugs[r.name].confidence);
  }

  lemma LabelledConfidence(c: real, percent: nat, expected: real)
    requires 0.0 <= c <= 1.0 && Close(c, expected) && IsPercent(expected, percent)
    ensures ReadConfidence(Number(c), Some(percent as real / 100.0), expected) == Some(c)
  {
  }

  const PLACE := Printed("f", [(1, 1)])

  /** Some canonical record of the Bug. */
  function SomeRecord(doc: Document, name: string): Record
    requires name in doc.bugs
  {
    var e := doc.bugs[name];
    Record(name, e.alias, e.ck, "d", [PLACE], "low", e.confidence, e.refs)
  }

  lemma SomeRecordIsCanonical(doc: Document, name: string)
    requires Loaded(doc) && name in doc.bugs
    ensures CanonicalRecord(doc, SomeRecord(doc, name))
  {
    hide TagText, CanonicalRef;
    PlaceIsCanonical();
    SomeTexts();
    assert LoadedBug(doc.bugs[name]);
    hide PLACE, Strip, Lower;
  }

  lemma PlaceIsCanonical()
    ensures CanonicalRef(PLACE)
  {
    hide ParseLocation, Printed, Unique, Referable;
    ReferenceRoundTripIff("f", [(1, 1)]);
    PlaceIsReferable();
  }

  lemma PlaceIsReferable()
    ensures Referable("f", [(1, 1)])
  {
  }

  lemma SomeTexts()
    ensures Strip("d") == "d" && Strip("low") == "low" && Lower("low") == "low" && "low" in SEVERITIES
  {
    CleanIsStripped("d");
    CleanIsStripped("low");
    assert Lower("low") == "low";
    assert SEVERITIES[1] == "low";
  }

  ghost function PercentOf(c: real): (percent: nat)
    requires Percentage(c)
    ensures IsPercent(c, percent)
  {
    var percent: nat :| IsPercent(c, percent);
    percent
  }

  lemma LoadedName(doc: Document, n: string)
    requires Loaded(doc) && n in doc.names
    ensures n in doc.bugs && LoadedBug(doc.bugs[n]) && Percentage(doc.bugs[n].confidence)
  {
    hide TagText, CanonicalRef, Percentage;
  }

  /** The submission of some record for each of the given Bugs, each under its label. */
  ghost function Submission(doc: Document, names: seq<string>): (r: Json)
    requires Loaded(doc) && SubsetOf(names, doc.names)
    ensures r.List? && |r.items| == |names|
  {
    if names == [] then List([])
    else
      var n := names[0];
      hide Loaded, LabelledJson, SomeRecord;
      assert n in doc.names && forall x :: x in names[1..] ==> x in names;
      LoadedName(doc, n);
      List([LabelledJson(SomeRecord(doc, n), PercentOf(doc.bugs[n].confidence))] + Submission(doc, names[1..]).items)
  }

  lemma OtherNames(doc: Document, names: seq<string>)
    requires SubsetOf(names, doc.names) && names != []
    ensures names[0] in doc.names && SubsetOf(names[1..], doc.names)
  {
    assert forall x :: x in names[1..] ==> x in names;
  }

  ghost function Submitted(doc: Document, names: seq<string>): (r: seq<Record>)
    requires Loaded(doc) && SubsetOf(names, doc.names)
    ensures Names(r) == names
  {
    if names == [] then []
    else
      hide *;
      OtherNames(doc, names);
      LoadedName(doc, names[0]);
      SomeRecordName(doc, names[0]);
      NamesOfBoth([SomeRecord(doc, names[0])], Submitted(doc, names[1..]));
      [SomeRecord(doc, names[0])] + Submitted(doc, names[1..])
  }

  lemma {:induction false} SubmissionEach(doc: Document, names: seq<string>)
    requires Loaded(doc) && SubsetOf(names, doc.names)
    ensures Each(Submission(doc, names).items, doc, Submitted(doc, names))
    decreases |names|
  {
    hide Entry, CanonicalRecord, Loaded, LabelledJson, SomeRecord;
    if names != [] {
      var n := names[0];
      assert n in doc.names && forall x :: x in names[1..] ==> x in names;
      LoadedName(doc, n);
      SomeRecordIsCanonical(doc, n);
      SomeRecordName(doc, n);
      LabelledEntry(doc, SomeRecord(doc, n), PercentOf(doc.bugs[n].confidence));
      SubmissionEach(doc, names[1..]);
    }
  }

  lemma SomeRecordName(doc: Document, n: string)
    requires n in doc.bugs
    ensures SomeRecord(doc, n).name == n
  {
  }

  /** The submission is accepted as those records. */
  lemma SubmissionIsAccepted(doc: Document, names: seq<string>, decode: Decoder)
    requires Loaded(doc) && SubsetOf(names, doc.names) && NoDup(names)
    ensures Normalized(Submission(doc, names), doc, decode).Some?
    ensures Names(Normalized(Submission(doc, names), doc, decode).value) == names
  {
    hide Each, Submission, Submitted, Loaded;
    SubmissionEach(doc, names);
    AcceptedIsNormalized(Submission(doc, names), doc, decode, Submitted(doc, names));
  }

  // ---------------------------------------------------------------- names that are not read as themselves

  /** The names that start with `BG-`. */
  function Unstable(names: seq<string>): (r: seq<string>)
    ensures forall n :: n in r <==> n in names && !Stable(n)
  {
    if names == [] then []
    else (if Stable(names[0]) then [] else [names[0]]) + Unstable(names[1..])
  }

  lemma {:induction false} UnstableOfBoth(a: seq<string>, c: seq<string>)
    ensures Unstable(a + c) == Unstable(a) + Unstable(c)
    decreases |a|
  {
    hide Stable;
    if a == [] {
      assert a + c == c;
    } else {
      assert (a + c)[1..] == a[1..] + c;
      UnstableOfBoth(a[1..], c);
      SeqAssoc(if Stable(a[0]) then [] else [a[0]], Unstable(a[1..]), Unstable(c));
    }
  }

  /** When exactly the stable names are recorded, the others are missing. */
  lemma {:induction false} MissingAreUnstable(names: seq<string>, recorded: seq<string>)
    requires forall n :: n in names ==> (n in recorded <==> Stable(n))
    ensures DropIn(names, recorded) == Unstable(names)
    decreases |names|
  {
    hide Stable;
    if names != [] {
      assert names[0] in names && forall n :: n in names[1..] ==> n in names;
      MissingAreUnstable(names[1..], recorded);
    }
  }

  lemma {:induction false} UnstableNoDup(names: seq<string>)
    requires NoDup(names)
    ensures NoDup(Unstable(names))
    decreases |names|
  {
    hide Stable;
    if names != [] {
      UnstableNoDup(names[1..]);
    }
  }

  // ---------------------------------------------------------------- recording what can be recorded

  /** One accepted submission. */
  lemma SubmissionStep(doc: Document, b: nat, payload: Json, names: seq<string>, decode: Decoder)
    requires Loaded(doc) && GoodPayload(doc, b, payload) && NoDup(names) && SubsetOf(names, doc.names)
    requires forall n :: n in NamesIn(payload) ==> Stable(n)
    requires SubsetOf(names, Take(DropIn(doc.names, NamesIn(payload)), b))
    requires names == [] ==> DropIn(doc.names, NamesIn(payload)) == []
    ensures var (passed, next) := Step(doc, b, payload, Submission(doc, names), decode);
            && GoodPayload(doc, b, next) && SameMembers(NamesIn(next), NamesIn(payload) + names)
            && (passed <==> NamesIn(next) == doc.names)
  {
    hide Normalized, Stable, NamesIn, Step, GoodPayload, Loaded, Submission, Take, GoodRecords, DropIn;
    SubmissionIsAccepted(doc, names, NoText);
    GoodIsReadable(doc, b, payload, decode);
    TakenAreMissing(doc.names, NamesIn(payload), b);
    WindowForNew(doc, b, NamesIn(payload), names);
    StepIsGood(doc, b, payload, Submission(doc, names), decode);
  }

  lemma TakenAreMissing(names: seq<string>, recorded: seq<string>, b: nat)
    ensures forall n :: n in Take(DropIn(names, recorded), b) ==> n in names && n !in recorded
  {
    hide DropIn;
    assert forall n :: n in Take(DropIn(names, recorded), b) ==> n in DropIn(names, recorded);
  }

  lemma WindowForNew(doc: Document, b: nat, recorded: seq<string>, names: seq<string>)
    requires SubsetOf(names, Take(DropIn(doc.names, recorded), b))
    requires forall n :: n in Take(DropIn(doc.names, recorded), b) ==> n !in recorded
    ensures InWindow(doc, b, recorded, names)
  {
    hide Take;
    if names != [] {
      assert names[0] in DropIn(names, recorded);
    }
  }

  /** Exactly the stable ones of the first `i` Bugs are recorded. */
  ghost predicate StableRecorded(doc: Document, b: nat, payload: Json, i: nat)
    requires i <= |doc.names|
  {
    && GoodPayload(doc, b, payload)
    && forall n :: n in NamesIn(payload) <==> n in doc.names[..i] && Stable(n)
  }

  lemma NextStable(doc: Document, b: nat, payload: Json, i: nat, decode: Decoder)
    requires Loaded(doc) && i < |doc.names| && StableRecorded(doc, b, payload, i)
    requires Stable(doc.names[i]) && |Unstable(doc.names[..i])| < b
    ensures StableRecorded(doc, b, Step(doc, b, payload, Submission(doc, [doc.names[i]]), decode).1, i + 1)
  {
    hide GoodPayload, NamesIn, Stable, Step, Submission, Take, DropIn, Loaded, Unstable;
    var recorded, name := NamesIn(payload), doc.names[i];
    ValidNames(doc);
    OneMore(doc.names, i);
    NotYet(doc.names, i);
    MissingAreUnstable(doc.names[..i], recorded);
    PlaceInDropped(doc.names, recorded, i);
    InTake(DropIn(doc.names, recorded), |Unstable(doc.names[..i])|, b);
    SubmissionStep(doc, b, payload, [name], decode);
  }

  lemma ValidNames(doc: Document)
    requires Loaded(doc)
    ensures NoDup(doc.names)
  {
  }

  lemma NotYet(names: seq<string>, i: nat)
    requires NoDup(names) && i < |names|
    ensures names[i] !in names[..i]
  {
  }

  lemma InTake<T(!new)>(s: seq<T>, k: nat, b: nat)
    requires k < |s| && k < b
    ensures s[k] in Take(s, b)
  {
    assert Take(s, b)[k] == s[k];
  }

  /** As long as fewer than `b` unstable Bugs come before each stable one, the stable ones can be recorded. */
  lemma {:induction false} RecordStable(doc: Document, b: nat, i: nat, decode: Decoder) returns (calls: seq<Json>)
    requires Loaded(doc) && i <= |doc.names|
    requires forall j :: 0 <= j < i && Stable(doc.names[j]) ==> |Unstable(doc.names[..j])| < b
    ensures StableRecorded(doc, b, Run(doc, b, Null, calls, decode), i)
    decreases i
  {
    hide GoodPayload, NamesIn, Stable, Step, Submission, Loaded, Unstable, Run;
    if i == 0 {
      calls := [];
      NothingYet(doc, b, decode);
    } else {
      var before := RecordStable(doc, b, i - 1, decode);
      var payload := Run(doc, b, Null, before, decode);
      OneMore(doc.names, i - 1);
      if Stable(doc.names[i - 1]) {
        LoadedName(doc, doc.names[i - 1]);
        var call := Submission(doc, [doc.names[i - 1]]);
        NextStable(doc, b, payload, i - 1, decode);
        RunSnoc(doc, b, Null, before, call, decode);
        calls := before + [call];
      } else {
        calls := before;
      }
    }
  }

  lemma NothingYet(doc: Document, b: nat, decode: Decoder)
    ensures StableRecorded(doc, b, Run(doc, b, Null, [], decode), 0)
  {
    EmptyIsGood(doc, b);
  }

  // ---------------------------------------------------------------- which documents can be finished

  /** Some run from an empty payload ends with a passing call. */
  ghost predicate CanPass(doc: Document, b: nat, decode: Decoder)
  {
    exists calls, last :: PassesAfter(doc, b, calls, last, decode)
  }

  ghost predicate PassesAfter(doc: Document, b: nat, calls: seq<Json>, last: Json, decode: Decoder)
  {
    Step(doc, b, Run(doc, b, Null, calls, decode), last, decode).0
  }

  /** The Bugs that start with `BG-` fit into one batch together with the last Bug of the document. */
  predicate UnstableFit(names: seq<string>, b: nat)
  {
    var u := |Unstable(names)|;
    u < b || (u == b && names != [] && !Stable(names[|names| - 1]))
  }

  lemma FitBefore(names: seq<string>, b: nat, j: nat)
    requires UnstableFit(names, b) && j < |names| && Stable(names[j])
    ensures |Unstable(names[..j])| < b
  {
    hide Stable;
    assert names == names[..j] + names[j..];
    UnstableOfBoth(names[..j], names[j..]);
    if j < |names| - 1 && !Stable(names[|names| - 1]) {
      assert names[j..][|names| - 1 - j] == names[|names| - 1];
      assert names[|names| - 1] in Unstable(names[j..]);
    }
  }

  lemma FitPasses(doc: Document, b: nat, decode: Decoder)
    requires Loaded(doc) && UnstableFit(doc.names, b)
    ensures CanPass(doc, b, decode)
  {
    hide GoodPayload, NamesIn, Stable, Step, Submission, Loaded, Unstable, Run, DropIn, UnstableFit;
    forall j | 0 <= j < |doc.names| && Stable(doc.names[j]) ensures |Unstable(doc.names[..j])| < b {
      FitBefore(doc.names, b, j);
    }
    var calls := RecordStable(doc, b, |doc.names|, decode);
    var payload := Run(doc, b, Null, calls, decode);
    ValidNames(doc);
    assert doc.names[..|doc.names|] == doc.names;
    var missing := Unstable(doc.names);
    MissingAreUnstable(doc.names, NamesIn(payload));
    UnstableNoDup(doc.names);
    AtMostBatch(doc.names, b);
    SubmissionStep(doc, b, payload, missing, decode);
    var last := Submission(doc, missing);
    AllAreRecorded(doc, b, Step(doc, b, payload, last, decode).1);
    assert PassesAfter(doc, b, calls, last, decode);
  }

  lemma AtMostBatch(names: seq<string>, b: nat)
    requires UnstableFit(names, b)
    ensures Take(Unstable(names), b) == Unstable(names)
  {
    hide Unstable;
  }

  lemma AllAreRecorded(doc: Document, b: nat, payload: Json)
    requires GoodPayload(doc, b, payload) && forall n :: n in doc.names ==> n in NamesIn(payload)
    ensures NamesIn(payload) == doc.names
  {
    hide GoodPayload, NamesIn;
    GoodNames(doc, b, payload);
    KeepSame(doc.names, NamesIn(payload), doc.names);
    KeepItself(doc.names);
  }

  lemma KeepItself(s: seq<string>)
    ensures KeepIn(s, s) == s
  {
    KeepMembers(s, s);
  }

  lemma {:induction false} KeepMembers(s: seq<string>, t: seq<string>)
    requires forall x :: x in s ==> x in t
    ensures KeepIn(s, t) == s
    decreases |s|
  {
    if s != [] {
      assert s[0] in s && forall x :: x in s[1..] ==> x in s;
      KeepMembers(s[1..], t);
    }
  }

  lemma RecordedLast(names: seq<string>, recorded: seq<string>)
    requires names != [] && names[|names| - 1] in recorded
    ensures DropIn(names, recorded) == DropIn(names[..|names| - 1], recorded)
  {
    var some, last := names[..|names| - 1], names[|names| - 1];
    assert names == some + [last];
    DropInAppend(some, last, recorded);
    SeqAssoc(DropIn(some, recorded), [], []);
  }

  lemma LastIsMissing(names: seq<string>, b: nat, recorded: seq<string>)
    requires names != [] && Windowed(names, b, recorded) && |DropIn(names, recorded)| >= b
    ensures names[|names| - 1] !in recorded
  {
    hide DropIn;
    if names[|names| - 1] in recorded { RecordedLast(names, recorded); }
  }

  /** What has to be missing when a call passes that starts from readable records. */
  lemma PassNeedsFit(names: seq<string>, b: nat, recorded: seq<string>, submitted: seq<string>)
    requires NoDup(names) && b >= 1 && Windowed(names, b, recorded) && forall n :: n in recorded ==> Stable(n)
    requires SubsetOf(submitted, recorded + Take(DropIn(names, recorded), b))
    requires forall n :: n in names ==> n in recorded || n in submitted
    ensures UnstableFit(names, b)
  {
    hide DropIn, Take, Unstable, Stable, Windowed, NoDup;
    var missing := DropIn(names, recorded);
    DropInNoDup(names, recorded);
    UnstableNoDup(names);
    NoDupFits(missing, Take(missing, b));
    NoDupFits(Unstable(names), missing);
    if |Unstable(names)| == b {
      SameWhenFull(Unstable(names), missing);
      assert names != [] by { SomeUnstable(names); }
      LastIsMissing(names, b, recorded);
      assert names[|names| - 1] in missing;
    }
  }

  lemma SomeUnstable(names: seq<string>)
    requires Unstable(names) != []
    ensures names != []
  {
  }

  /** A duplicate-free list that fits into one of the same length has all its items. */
  lemma SameWhenFull(s: seq<string>, t: seq<string>)
    requires NoDup(s) && SubsetOf(s, t) && |s| == |t|
    ensures SubsetOf(t, s)
  {
    forall x | x in t ensures x in s {
      if x !in s {
        NoDupFits(s + [x], t);
      }
    }
  }

  /** A document can be finished if and only if the Bugs that start with `BG-` are fewer than a batch, or fill a batch
      that ends with the last Bug of the document. */
  lemma CanPassIff(doc: Document, b: nat, decode: Decoder)
    requires Loaded(doc) && b >= 1
    ensures CanPass(doc, b, decode) <==> UnstableFit(doc.names, b)
  {
    hide GoodPayload, NamesIn, Stable, Step, Loaded, Run, DropIn, UnstableFit, Windowed, Accepted, Take;
    if CanPass(doc, b, decode) {
      var calls, last :| PassesAfter(doc, b, calls, last, decode);
      var payload := Run(doc, b, Null, calls, decode);
      EmptyIsGood(doc, b);
      ValidNames(doc);
      RunNeverForgets(doc, b, Null, calls, decode);
      StepKeepsWindow(doc, b, payload, last, decode);
      StepIsGood(doc, b, payload, last, decode);
      AcceptedIsReadable(doc, b, payload, last, decode);
      GoodIsReadable(doc, b, payload, decode);
      GoodNames(doc, b, payload);
      SubmittedInWindow(doc, b, payload, last, decode);
      PassNeedsFit(doc.names, b, NamesIn(payload), SubmittedNames(doc, last));
    } else if UnstableFit(doc.names, b) {
      FitPasses(doc, b, decode);
    }
  }

  lemma AcceptedIsReadable(doc: Document, b: nat, payload: Json, bugList: Json, decode: Decoder)
    requires Accepted(doc, b, payload, bugList, decode)
    ensures Recorded(payload, doc, decode).Some?
  {
    hide Normalized, InWindow;
  }

  // ---------------------------------------------------------------- stuck states are reached

  /** No call is acted on any more. */
  ghost predicate Stuck(doc: Document, b: nat, payload: Json, decode: Decoder)
  {
    forall bugList :: !Accepted(doc, b, payload, bugList, decode)
  }

  lemma {:induction false} FirstUnstable(names: seq<string>, n: nat) returns (i: nat)
    requires n < |names| && !Stable(names[n])
    ensures i <= n && !Stable(names[i]) && Unstable(names[..i]) == []
    decreases n
  {
    hide Stable;
    if Unstable(names[..n]) == [] {
      i := n;
    } else {
      var x := Unstable(names[..n])[0];
      assert x in Unstable(names[..n]);
      var m :| 0 <= m < n && names[..n][m] == x;
      i := FirstUnstable(names, m);
    }
  }

  /** Some run from an empty payload gets stuck if and only if some expected Bug starts with `BG-`. */
  lemma StuckIsReachedIff(doc: Document, b: nat, decode: Decoder)
    requires Loaded(doc) && b >= 1
    ensures (exists calls :: Stuck(doc, b, Run(doc, b, Null, calls, decode), decode)) <==>
            exists n :: n in doc.names && !Stable(n)
  {
    hide GoodPayload, NamesIn, Stable, Step, Loaded, Run, Accepted;
    EmptyIsGood(doc, b);
    if exists calls :: Stuck(doc, b, Run(doc, b, Null, calls, decode), decode) {
      var calls :| Stuck(doc, b, Run(doc, b, Null, calls, decode), decode);
      var payload := Run(doc, b, Null, calls, decode);
      RunNeverForgets(doc, b, Null, calls, decode);
      StuckIff(doc, b, payload, decode);
      GoodNames(doc, b, payload);
      var n :| n in NamesIn(payload) && !Stable(n);
      assert n in KeepIn(doc.names, NamesIn(payload));
    }
    if exists n :: n in doc.names && !Stable(n) {
      var n :| n in doc.names && !Stable(n);
      var k :| 0 <= k < |doc.names| && doc.names[k] == n;
      var i := FirstUnstable(doc.names, k);
      var calls := StuckRun(doc, b, i, decode);
      assert Stuck(doc, b, Run(doc, b, Null, calls, decode), decode);
    }
  }

  lemma StuckRun(doc: Document, b: nat, i: nat, decode: Decoder) returns (calls: seq<Json>)
    requires Loaded(doc) && b >= 1 && i < |doc.names| && !Stable(doc.names[i]) && Unstable(doc.names[..i]) == []
    ensures Stuck(doc, b, Run(doc, b, Null, calls, decode), decode)
  {
    hide GoodPayload, NamesIn, Stable, Step, Loaded, Run, Accepted, Submission, Unstable, DropIn, Take;
    var name := doc.names[i];
    ValidNames(doc);
    forall j | 0 <= j < i ensures |Unstable(doc.names[..j])| < b {
      assert doc.names[..i] == doc.names[..j] + doc.names[j..i];
      UnstableOfBoth(doc.names[..j], doc.names[j..i]);
    }
    var before := RecordStable(doc, b, i, decode);
    var payload := Run(doc, b, Null, before, decode);
    MissingAreUnstable(doc.names[..i], NamesIn(payload));
    NotYet(doc.names, i);
    PlaceInDropped(doc.names, NamesIn(payload), i);
    InTake(DropIn(doc.names, NamesIn(payload)), 0, b);
    LoadedName(doc, name);
    var call := Submission(doc, [name]);
    SubmissionStep(doc, b, payload, [name], decode);
    RunSnoc(doc, b, Null, before, call, decode);
    calls := before + [call];
    var next := Step(doc, b, payload, call, decode).1;
    assert name in NamesIn(next);
    StuckIff(doc, b, next, decode);
  }

  // ---------------------------------------------------------------- one such document

  const NAME := "BG-x"

  /** A document with the single Bug `BG-x` of confidence 50. */
  const ONE_BUG := Document([NAME], map[NAME := Expected(["FG-a/FC-b/CK-c"], 0.5, [], [PLACE])])

  lemma ShortTags()
    ensures TagText(NAME) && TagText("FG-a/FC-b/CK-c") && IsPercent(0.5, 50)
  {
  }

  lemma OneBugIsLoaded()
    ensures Loaded(ONE_BUG)
  {
    hide PLACE, CanonicalRef, TagText, Percentage;
    PlaceIsCanonical();
    ShortTags();
    assert Percentage(0.5) by { OneHalf(); }
    assert LoadedBug(ONE_BUG.bugs[NAME]);
  }

  lemma OneHalf()
    ensures Percentage(0.5)
  {
    assert IsPercent(0.5, 50);
  }

  /** The submitted name is the label of the Bug in angle brackets. */
  lemma SubmittedLabel()
    ensures "<" + BugLabel(NAME, 50) + ">" == "<BG-BG-x-50>"
  {
    assert NatText(50) == NatText(5) + "0" && NatText(5) == "5";
    hide NatText;
    assert "BG-" + NAME + "-" + "50" == "BG-BG-x-50";
  }

  lemma PickOnly(r: Record)
    ensures Pick([r.name], ByName([] + [r])) == [r]
  {
    assert [] + [r] == [r] && [r][..0] == [] && [r.name][1..] == [];
    assert ByName([r]) == map[r.name := r];
  }

  lemma OnlyName(name: string)
    ensures DropIn([name], []) == [name] && DropIn([name], [] + [name]) == []
  {
    assert [name][1..] == [];
    assert [] + [name] == [name];
  }

  /** One call with `<BG-BG-x-50>` as the name passes and stores `BG-x`; from then on no call is acted on. */
  lemma OneBugGetsStuck(b: nat, decode: Decoder)
    requires b >= 1
    ensures var r := SomeRecord(ONE_BUG, NAME);
            && Get(LabelledJson(r, 50).fields, "bug_name") == Str("<BG-BG-x-50>")
            && Step(ONE_BUG, b, Null, List([LabelledJson(r, 50)]), decode) == (true, Stored([r]))
            && Stuck(ONE_BUG, b, Stored([r]), decode)
  {
    hide LabelledJson, Normalized, CanonicalRecord, Stored, Entry, Accepted, Loaded, BugLabel, DropIn, Pick, ByName, NamesIn;
    var doc, r := ONE_BUG, SomeRecord(ONE_BUG, NAME);
    OneBugIsLoaded();
    SubmittedLabel();
    LabelledFields(r, 50);
    SomeRecordIsCanonical(doc, NAME);
    assert IsPercent(0.5, 50);
    LabelledEntry(doc, r, 50);
    assert Names([r]) == [NAME];
    AcceptedIsNormalized(List([LabelledJson(r, 50)]), doc, NoText, [r]);
    OnlyName(NAME);
    PickOnly(r);
    NamesInStored([r]);
    assert NAME in NamesIn(Stored([r])) && !Stable(NAME);
    OneIsGood(doc, b, r);
    StuckIff(doc, b, Stored([r]), decode);
  }

  lemma OneIsGood(doc: Document, b: nat, r: Record)
    requires b >= 1 && CanonicalRecord(doc, r) && doc.names == [r.name]
    ensures GoodPayload(doc, b, Stored([r]))
  {
    hide CanonicalRecord, Stored;
    assert Names([r]) == [r.name] && [r.name][1..] == [];
    assert KeepIn([r.name], [r.name]) == [r.name];
    assert doc.names[..0] == [];
    assert GoodRecords(doc, b, [r]);
  }
}
