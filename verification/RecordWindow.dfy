/** The sliding window of the Bug recorder: invariants of every run of `record`
    (ucagent/checkers/recorder.py), for fixed Bug documents. */
module RecordWindow {
  import opened Text
  import opened Lists
  import opened Records
  import opened RecordRuns

  /** The Bug names in a stored payload. */
  function NamesIn(payload: Json): seq<string>
  {
    if payload.List? then
      Map(payload.items, (x: Json) =>
            if x.Object? && Get(x.fields, "bug_name").Str? then Get(x.fields, "bug_name").text else "")
    else []
  }

  /** Every recorded Bug has fewer than `b` unrecorded Bugs before it in document order. */
  ghost predicate Windowed(names: seq<string>, b: nat, recorded: seq<string>)
  {
    forall i :: 0 <= i < |names| && names[i] in recorded ==> |DropIn(names[..i], recorded)| < b
  }

  /** The records are canonical, one per recorded Bug, in document order. */
  ghost predicate InDocumentOrder(doc: Document, records: seq<Record>)
  {
    && (forall r :: r in records ==> CanonicalRecord(doc, r))
    && Names(records) == KeepIn(doc.names, Names(records))
  }

  ghost predicate GoodRecords(doc: Document, b: nat, records: seq<Record>)
  {
    InDocumentOrder(doc, records) && Windowed(doc.names, b, Names(records))
  }

  /** The payloads of runs that start empty. */
  ghost predicate GoodPayload(doc: Document, b: nat, payload: Json)
  {
    payload.Null? || exists records :: payload == Stored(records) && GoodRecords(doc, b, records)
  }

  ghost function Run(doc: Document, b: nat, payload: Json, calls: seq<Json>, decode: Decoder): Json
    decreases |calls|
  {
    if calls == [] then payload
    else Run(doc, b, Step(doc, b, payload, calls[0], decode).1, calls[1..], decode)
  }

  // ---------------------------------------------------------------- filtering by membership

  lemma {:induction false} KeepSame<T(!new)>(s: seq<T>, t: seq<T>, u: seq<T>)
    requires forall x :: x in s ==> (x in t <==> x in u)
    ensures KeepIn(s, t) == KeepIn(s, u) && DropIn(s, t) == DropIn(s, u)
    decreases |s|
  {
    if s != [] {
      assert s[0] in s && forall x :: x in s[1..] ==> x in s;
      KeepSame(s[1..], t, u);
    }
  }

  lemma {:induction false} KeepNone<T(!new)>(s: seq<T>)
    ensures KeepIn(s, []) == []
    decreases |s|
  {
    if s != [] {
      KeepNone(s[1..]);
    }
  }

  lemma {:induction false} KeepPrefix<T(!new)>(s: seq<T>, k: nat)
    requires k <= |s| && NoDup(s)
    ensures KeepIn(s, s[..k]) == s[..k]
  {
    var t := s[..k];
    assert s == t + s[k..];
    KeepSplit(t, s[k..], t);
  }

  lemma {:induction false} KeepSplit<T(!new)>(a: seq<T>, c: seq<T>, t: seq<T>)
    requires forall x :: x in a ==> x in t
    requires forall x :: x in c ==> x !in t
    ensures KeepIn(a + c, t) == a
    decreases |a|
  {
    if a != [] {
      assert (a + c)[1..] == a[1..] + c;
      KeepSplit(a[1..], c, t);
    } else {
      assert a + c == c;
      KeepSame(c, t, []);
      KeepNone(c);
    }
  }

  /** With more names recorded, at most as many are missing. */
  lemma {:induction false} DropFewer<T(!new)>(s: seq<T>, t: seq<T>, u: seq<T>)
    requires SubsetOf(t, u)
    ensures |DropIn(s, u)| <= |DropIn(s, t)|
    decreases |s|
  {
    if s != [] {
      DropFewer(s[1..], t, u);
    }
  }

  /** A missing name's place among the missing ones is the number of missing ones before it. */
  lemma DropHead<T(!new)>(s: seq<T>, t: seq<T>)
    requires s != []
    ensures DropIn(s, t) == (if s[0] in t then [] else [s[0]]) + DropIn(s[1..], t)
  {
    assert [] + DropIn(s[1..], t) == DropIn(s[1..], t);
  }

  lemma {:induction false} PlaceInDropped<T(!new)>(s: seq<T>, t: seq<T>, i: nat)
    requires i < |s| && s[i] !in t
    ensures |DropIn(s[..i], t)| < |DropIn(s, t)| && DropIn(s, t)[|DropIn(s[..i], t)|] == s[i]
    decreases |s|
  {
    hide DropIn;
    DropHead(s, t);
    if i == 0 {
      assert s[..0] == [];
      DropsNothing(t);
    } else {
      TailOfPrefix(s, i);
      DropHead(s[..i], t);
      PlaceInDropped(s[1..], t, i - 1);
    }
  }

  lemma DropsNothing<T(!new)>(t: seq<T>)
    ensures DropIn([], t) == []
  {
  }

  lemma TailOfPrefix<T>(s: seq<T>, i: nat)
    requires 0 < i < |s|
    ensures s[..i] != [] && s[..i][0] == s[0] && s[..i][1..] == s[1..][..i - 1] && s[1..][i - 1] == s[i]
  {
  }

  // ---------------------------------------------------------------- one merge

  lemma NewInWindow(names: seq<string>, b: nat, recorded: seq<string>, i: nat)
    requires NoDup(names) && i < |names| && names[i] !in recorded && names[i] in Take(DropIn(names, recorded), b)
    ensures |DropIn(names[..i], recorded)| < b
  {
    hide DropIn, Take;
    var batch := Take(DropIn(names, recorded), b);
    PlaceInDropped(names, recorded, i);
    DropInNoDup(names, recorded);
    var k :| 0 <= k < |batch| && batch[k] == names[i];
    assert k == |DropIn(names[..i], recorded)|;
  }

  /** A merge keeps the window. */
  lemma MergeKeepsWindow(names: seq<string>, b: nat, recorded: seq<string>, submitted: seq<string>)
    requires NoDup(names) && Windowed(names, b, recorded)
    requires SubsetOf(DropIn(submitted, recorded), Take(DropIn(names, recorded), b))
    ensures Windowed(names, b, recorded + submitted)
  {
    hide DropIn, Take;
    var all := recorded + submitted;
    forall i | 0 <= i < |names| && names[i] in all ensures |DropIn(names[..i], all)| < b {
      DropFewer(names[..i], recorded, all);
      if names[i] !in recorded {
        assert names[i] in DropIn(submitted, recorded);
        NewInWindow(names, b, recorded, i);
      }
    }
  }

  lemma {:induction false} PickedNames(names: seq<string>, m: map<string, Record>, recorded: seq<string>)
    requires forall n :: n in m ==> m[n].name == n
    requires forall n :: n in m <==> n in recorded
    ensures Names(Pick(names, m)) == KeepIn(names, recorded)
    decreases |names|
  {
    if names != [] {
      PickedNames(names[1..], m, recorded);
      NamesOfBoth(if names[0] in m then [m[names[0]]] else [], Pick(names[1..], m));
    }
  }

  lemma {:induction false} PickedRecords(names: seq<string>, m: map<string, Record>, r: Record)
    ensures r in Pick(names, m) <==> exists n :: n in names && n in m && m[n] == r
    decreases |names|
  {
    if names != [] {
      PickedRecords(names[1..], m, r);
    }
  }

  lemma {:induction false} ByNameFinds(records: seq<Record>, r: Record)
    requires r in records && NoDup(Names(records))
    ensures r.name in ByName(records) && ByName(records)[r.name] == r
    decreases |records|
  {
    var last := records[|records| - 1];
    var rest := records[..|records| - 1];
    assert records == rest + [last];
    NamesOfBoth(rest, [last]);
    if r != last {
      assert NoDup(Names(rest)) by {
        assert forall i :: 0 <= i < |rest| ==> Names(rest)[i] == Names(records)[i];
      }
      ByNameFinds(rest, r);
      var i :| 0 <= i < |rest| && rest[i] == r;
      assert Names(records)[i] == r.name && Names(records)[|rest|] == last.name;
    }
  }

  lemma {:induction false} ByNameOfBoth(a: seq<Record>, b: seq<Record>)
    ensures ByName(a + b) == ByName(a) + ByName(b)
    decreases |b|
  {
    hide ByName;
    if b == [] {
      assert a + b == a;
      NothingByName();
    } else {
      var last := b[|b| - 1];
      var rest := b[..|b| - 1];
      assert b == rest + [last] && a + b == (a + rest) + [last];
      ByNameOfBoth(a, rest);
      ByNameSnoc(a + rest, last);
      ByNameSnoc(rest, last);
    }
  }

  lemma NothingByName()
    ensures ByName([]) == map[]
  {
  }

  /** The merged list holds, for each Bug, the submitted record or else the one already there. */
  lemma MergedRecords(names: seq<string>, existing: seq<Record>, submitted: seq<Record>, r: Record)
    requires NoDup(Names(existing)) && NoDup(Names(submitted))
    requires SubsetOf(Names(existing), names) && SubsetOf(Names(submitted), names)
    ensures r in Pick(names, ByName(existing + submitted)) <==>
              r in submitted || (r in existing && r.name !in Names(submitted))
  {
    hide ByName, Names, Pick;
    ByNameOfBoth(existing, submitted);
    PickedRecords(names, ByName(existing + submitted), r);
    NameOfMember(existing, r);
    NameOfMember(submitted, r);
    if r in existing { ByNameFinds(existing, r); }
    if r in submitted { ByNameFinds(submitted, r); }
  }

  lemma NameOfMember(records: seq<Record>, r: Record)
    ensures r in records ==> r.name in Names(records)
  {
    if r in records {
      var i :| 0 <= i < |records| && records[i] == r;
      assert Names(records)[i] == r.name;
    }
  }

  lemma MergedIsGood(doc: Document, b: nat, existing: seq<Record>, submitted: seq<Record>)
    requires doc.Valid() && GoodRecords(doc, b, existing)
    requires NoDup(Names(submitted)) && forall r :: r in submitted ==> CanonicalRecord(doc, r)
    requires InWindow(doc, b, Names(existing), Names(submitted))
    ensures var merged := Pick(doc.names, ByName(existing + submitted));
            && GoodRecords(doc, b, merged)
            && Names(merged) == KeepIn(doc.names, Names(existing) + Names(submitted))
            && SameMembers(Names(merged), Names(existing) + Names(submitted))
  {
    hide CanonicalRecord, ByName, Pick;
    var merged := Pick(doc.names, ByName(existing + submitted));
    var all := Names(existing) + Names(submitted);
    NamesOfBoth(existing, submitted);
    PickedNames(doc.names, ByName(existing + submitted), all);
    KnownNames(doc, submitted);
    KeepSame(doc.names, all, Names(merged));
    MergeKeepsWindow(doc.names, b, Names(existing), Names(submitted));
    WindowByMembers(doc.names, b, all, Names(merged));
    forall r | r in merged ensures CanonicalRecord(doc, r) {
      PickedRecords(doc.names, ByName(existing + submitted), r);
      assert r in existing + submitted;
    }
  }

  lemma KnownNames(doc: Document, records: seq<Record>)
    requires doc.Valid() && forall r :: r in records ==> CanonicalRecord(doc, r)
    ensures forall n :: n in Names(records) ==> n in doc.names
  {
    forall n | n in Names(records) ensures n in doc.names {
      var i :| 0 <= i < |records| && Names(records)[i] == n;
      assert records[i] in records;
    }
  }

  lemma WindowByMembers(names: seq<string>, b: nat, t: seq<string>, u: seq<string>)
    requires Windowed(names, b, t) && SameMembers(t, u)
    ensures Windowed(names, b, u)
  {
    forall i | 0 <= i < |names| && names[i] in u ensures |DropIn(names[..i], u)| < b {
      KeepSame(names[..i], t, u);
    }
  }

  // ---------------------------------------------------------------- one call

  lemma NamesInStored(records: seq<Record>)
    ensures NamesIn(Stored(records)) == Names(records)
  {
    hide RecordJson, Get;
    forall i | 0 <= i < |records| ensures NamesIn(Stored(records))[i] == records[i].name {
      FieldsOf(records[i]);
      JsonIsObject(records[i]);
    }
  }

  /** The stored list of a run is readable exactly when no recorded name starts with `BG-`. */
  lemma GoodIsReadable(doc: Document, b: nat, payload: Json, decode: Decoder)
    requires Loaded(doc) && GoodPayload(doc, b, payload)
    ensures Recorded(payload, doc, decode).Some? <==> forall n :: n in NamesIn(payload) ==> Stable(n)
    ensures Recorded(payload, doc, decode).Some? ==>
              var existing := Recorded(payload, doc, decode).value;
              GoodRecords(doc, b, existing) && Names(existing) == NamesIn(payload)
  {
    hide Normalized, CanonicalRecord, Stable, RecordJson, Stored, NamesIn;
    if payload.Null? {
      NothingRecorded(doc, b, payload);
    } else {
      var records :| payload == Stored(records) && GoodRecords(doc, b, records);
      NamesInStored(records);
      KeepNoDup(doc.names, Names(records));
      StoredReadsBack(doc, records, decode);
      StableMembers(records);
    }
  }

  lemma NothingRecorded(doc: Document, b: nat, payload: Json)
    ensures payload.Null? ==> NamesIn(payload) == []
    ensures GoodRecords(doc, b, []) && Names([]) == []
  {
    KeepAll(doc.names, []);
    KeepNone(doc.names);
  }

  lemma StableMembers(records: seq<Record>)
    ensures (forall r :: r in records ==> Stable(r.name)) <==> (forall n :: n in Names(records) ==> Stable(n))
  {
    hide Stable;
    forall r | r in records ensures r.name in Names(records) { NameOfMember(records, r); }
    forall n | n in Names(records) ensures exists r :: r in records && r.name == n {
      var i :| 0 <= i < |records| && Names(records)[i] == n;
      assert records[i] in records;
    }
  }

  /** Whether the call is acted on. */
  ghost predicate Accepted(doc: Document, b: nat, payload: Json, bugList: Json, decode: Decoder)
  {
    var existing := Recorded(payload, doc, decode);
    && existing.Some?
    && (bugList.Null? ||
        var submitted := Normalized(bugList, doc, NoText);
        submitted.Some? && InWindow(doc, b, Names(existing.value), Names(submitted.value)))
  }

  /** The Bug names a call submits. */
  ghost function SubmittedNames(doc: Document, bugList: Json): seq<string>
  {
    var submitted := Normalized(bugList, doc, NoText);
    if bugList.Null? || submitted.None? then [] else Names(submitted.value)
  }

  lemma StepIsGood(doc: Document, b: nat, payload: Json, bugList: Json, decode: Decoder)
    requires Loaded(doc) && GoodPayload(doc, b, payload) && Accepted(doc, b, payload, bugList, decode)
    ensures var next := Step(doc, b, payload, bugList, decode);
            && GoodPayload(doc, b, next.1)
            && NamesIn(next.1) == KeepIn(doc.names, NamesIn(payload) + SubmittedNames(doc, bugList))
            && SameMembers(NamesIn(next.1), NamesIn(payload) + SubmittedNames(doc, bugList))
            && (next.0 <==> NamesIn(next.1) == doc.names)
  {
    hide Normalized, CanonicalRecord, Stable, Stored, NamesIn, Pick, InWindow, Windowed, Names;
    GoodIsReadable(doc, b, payload, decode);
    var existing := Recorded(payload, doc, decode).value;
    KeepAll(doc.names, Names(existing) + SubmittedNames(doc, bugList));
    if bugList.Null? {
      SeqAssoc(Names(existing), [], []);
      NamesInStored(existing);
    } else {
      var submitted := Normalized(bugList, doc, NoText).value;
      NormalizedIsCanonical(bugList, doc, NoText);
      MergedIsGood(doc, b, existing, submitted);
      NamesInStored(Pick(doc.names, ByName(existing + submitted)));
    }
  }

  lemma SubmittedInWindow(doc: Document, b: nat, payload: Json, bugList: Json, decode: Decoder)
    requires Loaded(doc) && GoodPayload(doc, b, payload) && Accepted(doc, b, payload, bugList, decode)
    ensures SubsetOf(SubmittedNames(doc, bugList), NamesIn(payload) + Take(DropIn(doc.names, NamesIn(payload)), b))
  {
    hide Normalized, CanonicalRecord, Stable, Stored, NamesIn, Windowed, GoodPayload, Names, GoodRecords, Take;
    GoodIsReadable(doc, b, payload, decode);
  }

  lemma AtMostABatch(names: seq<string>, b: nat, recorded: seq<string>, submitted: seq<string>)
    requires NoDup(names)
    requires SubsetOf(submitted, recorded + Take(DropIn(names, recorded), b))
    ensures |KeepIn(names, recorded + submitted)| <= |recorded| + b
  {
    hide KeepIn, DropIn, Take;
    KeepNoDup(names, recorded + submitted);
    NoDupFits(KeepIn(names, recorded + submitted), recorded + Take(DropIn(names, recorded), b));
  }

  /** One call keeps the shape and the window, never loses a recorded Bug, adds at most a batch, and passes
      exactly when it is acted on and every expected Bug is recorded afterwards. */
  lemma StepKeepsWindow(doc: Document, b: nat, payload: Json, bugList: Json, decode: Decoder)
    requires Loaded(doc) && GoodPayload(doc, b, payload)
    ensures var (passed, next) := Step(doc, b, payload, bugList, decode);
            && GoodPayload(doc, b, next)
            && SubsetOf(NamesIn(payload), NamesIn(next))
            && |NamesIn(next)| <= |NamesIn(payload)| + b
            && (passed <==> Accepted(doc, b, payload, bugList, decode) && NamesIn(next) == doc.names)
            && (!Accepted(doc, b, payload, bugList, decode) ==> next == payload)
  {
    hide Normalized, CanonicalRecord, Stable, Stored, NamesIn, Pick, InWindow, Windowed, GoodPayload, Names;
    if Accepted(doc, b, payload, bugList, decode) {
      StepIsGood(doc, b, payload, bugList, decode);
      SubmittedInWindow(doc, b, payload, bugList, decode);
      AtMostABatch(doc.names, b, NamesIn(payload), SubmittedNames(doc, bugList));
    }
  }

  // ---------------------------------------------------------------- whole runs

  /** Along every run: no recorded Bug is lost, and every call adds at most a batch. */
  lemma {:induction false} RunNeverForgets(doc: Document, b: nat, payload: Json, calls: seq<Json>, decode: Decoder)
    requires Loaded(doc) && GoodPayload(doc, b, payload)
    ensures var last := Run(doc, b, payload, calls, decode);
            && GoodPayload(doc, b, last)
            && SubsetOf(NamesIn(payload), NamesIn(last))
            && |NamesIn(last)| <= |NamesIn(payload)| + b * |calls|
    decreases |calls|
  {
    hide Step, GoodPayload, NamesIn, Loaded, Accepted;
    if calls != [] {
      StepKeepsWindow(doc, b, payload, calls[0], decode);
      var next := Step(doc, b, payload, calls[0], decode).1;
      RunNeverForgets(doc, b, next, calls[1..], decode);
      assert b * |calls| == b * |calls[1..]| + b;
    }
  }

  lemma GoodNames(doc: Document, b: nat, payload: Json)
    requires GoodPayload(doc, b, payload)
    ensures NamesIn(payload) == KeepIn(doc.names, NamesIn(payload)) && Windowed(doc.names, b, NamesIn(payload))
  {
    hide CanonicalRecord, Stored, NamesIn, Names;
    if payload.Null? {
      NothingRecorded(doc, b, payload);
    } else {
      var records :| payload == Stored(records) && GoodRecords(doc, b, records);
      NamesInStored(records);
    }
  }

  /** The sliding window: after any calls from an empty payload, the recorded Bugs are in document order, each
      once, and each has fewer than `b` unrecorded Bugs before it. */
  lemma SlidingWindow(doc: Document, b: nat, calls: seq<Json>, decode: Decoder)
    requires Loaded(doc)
    ensures var recorded := NamesIn(Run(doc, b, Null, calls, decode));
            recorded == KeepIn(doc.names, recorded) && Windowed(doc.names, b, recorded)
  {
    hide NamesIn, Loaded;
    RunNeverForgets(doc, b, Null, calls, decode);
    GoodNames(doc, b, Run(doc, b, Null, calls, decode));
  }

  /** A call passes only after enough calls to record all Bugs a batch at a time. */
  lemma PassTakesCalls(doc: Document, b: nat, calls: seq<Json>, bugList: Json, decode: Decoder)
    requires Loaded(doc) && Step(doc, b, Run(doc, b, Null, calls, decode), bugList, decode).0
    ensures |doc.names| <= b * (|calls| + 1)
  {
    hide Step, GoodPayload, NamesIn, Loaded, Accepted;
    EmptyIsGood(doc, b);
    RunNeverForgets(doc, b, Null, calls, decode);
    StepKeepsWindow(doc, b, Run(doc, b, Null, calls, decode), bugList, decode);
    assert b * (|calls| + 1) == b * |calls| + b;
  }

  lemma EmptyIsGood(doc: Document, b: nat)
    ensures GoodPayload(doc, b, Null) && NamesIn(Null) == []
  {
  }

  /** A recorded Bug whose name starts with `BG-` makes the stored list unreadable: no later call passes or
      changes anything. Without one, a call without a list is always acted on. */
  lemma StuckIff(doc: Document, b: nat, payload: Json, decode: Decoder)
    requires Loaded(doc) && GoodPayload(doc, b, payload)
    ensures (forall bugList :: !Accepted(doc, b, payload, bugList, decode)) <==>
            exists n :: n in NamesIn(payload) && !Stable(n)
  {
    hide Stable, NamesIn, Normalized, Recorded, InWindow, GoodPayload;
    GoodIsReadable(doc, b, payload, decode);
    if Recorded(payload, doc, decode).Some? {
      assert Accepted(doc, b, payload, Null, decode);
    }
  }

  lemma {:induction false} StuckForever(doc: Document, b: nat, payload: Json, calls: seq<Json>, decode: Decoder)
    requires Loaded(doc) && GoodPayload(doc, b, payload) && exists n :: n in NamesIn(payload) && !Stable(n)
    ensures Run(doc, b, payload, calls, decode) == payload
    ensures forall bugList :: !Step(doc, b, payload, bugList, decode).0
    decreases |calls|
  {
    hide Loaded, GoodPayload, NamesIn, Stable, Normalized, Recorded, InWindow, Pick, Stored, ByName, DropIn;
    StuckIff(doc, b, payload, decode);
    if calls != [] {
      assert !Accepted(doc, b, payload, calls[0], decode);
      StuckForever(doc, b, payload, calls[1..], decode);
    }
    forall bugList ensures !Step(doc, b, payload, bugList, decode).0 {
      assert !Accepted(doc, b, payload, bugList, decode);
    }
  }

  // ---------------------------------------------------------------- how many calls are enough

  /** A complete set of records with names that are read back as themselves. */
  ghost predicate FullSet(doc: Document, records: seq<Record>)
  {
    && Names(records) == doc.names
    && forall r :: r in records ==> CanonicalRecord(doc, r) && Stable(r.name)
  }

  lemma SliceReadsBack(doc: Document, records: seq<Record>, lo: nat, hi: nat, decode: Decoder)
    requires Loaded(doc) && FullSet(doc, records) && lo <= hi <= |records|
    ensures Normalized(Stored(records[lo..hi]), doc, decode) == Some(records[lo..hi])
    ensures Names(records[lo..hi]) == doc.names[lo..hi]
  {
    hide CanonicalRecord, Stable, Stored, Normalized;
    StoredReadsBack(doc, records[lo..hi], decode);
  }

  lemma PickPrefix(doc: Document, records: seq<Record>, hi: nat)
    requires doc.Valid() && FullSet(doc, records) && hi <= |records|
    ensures Pick(doc.names, ByName(records[..hi])) == records[..hi]
  {
    hide CanonicalRecord, Stable, ByName, Pick, KeepIn, Names, NoDup;
    var m, some := ByName(records[..hi]), records[..hi];
    var picked := Pick(doc.names, m);
    NamesOfPrefix(records, hi);
    PickedNames(doc.names, m, doc.names[..hi]);
    KeepPrefix(doc.names, hi);
    NoDupPrefix(doc.names, hi);
    SameNames(picked, some);
    forall i | 0 <= i < hi ensures picked[i] == some[i] {
      PickedRecords(doc.names, m, picked[i]);
      assert picked[i] in picked;
      PickedAt(doc.names, m, some, picked[i], i);
    }
  }

  lemma NoDupPrefix<T(!new)>(s: seq<T>, k: nat)
    requires NoDup(s) && k <= |s|
    ensures NoDup(s[..k])
  {
  }

  lemma SameNames(a: seq<Record>, b: seq<Record>)
    requires Names(a) == Names(b)
    ensures |a| == |b| && forall i :: 0 <= i < |a| ==> a[i].name == b[i].name
  {
    assert forall i :: 0 <= i < |a| ==> Names(a)[i] == a[i].name && Names(b)[i] == b[i].name;
  }

  lemma NamesOfPrefix(records: seq<Record>, hi: nat)
    requires hi <= |records|
    ensures Names(records[..hi]) == Names(records)[..hi]
  {
  }

  lemma PickedAt(names: seq<string>, m: map<string, Record>, records: seq<Record>, r: Record, i: nat)
    requires m == ByName(records) && NoDup(Names(records)) && i < |records|
    requires r.name == records[i].name && r.name in m && m[r.name] == r
    ensures r == records[i]
  {
    hide ByName;
    assert records[i] in records;
    ByNameFinds(records, records[i]);
  }

  lemma SliceMembers<T(!new)>(s: seq<T>, lo: nat, hi: nat)
    requires lo <= hi <= |s|
    ensures forall x :: x in s[lo..hi] <==> exists i :: lo <= i < hi && s[i] == x
  {
    var t := s[lo..hi];
    forall i | lo <= i < hi ensures s[i] in t {
      assert t[i - lo] == s[i];
    }
  }

  lemma WindowCovers<T(!new)>(s: seq<T>, b: nat, n: nat)
    requires n <= b && n <= |s|
    ensures SubsetOf(s[..n], Take(s, b))
  {
    var batch := Take(s, b);
    forall x | x in s[..n] ensures x in batch {
      var i :| 0 <= i < n && s[i] == x;
      assert batch[i] == x;
    }
  }

  lemma SliceIsNew(names: seq<string>, lo: nat, hi: nat)
    requires NoDup(names) && lo <= hi <= |names|
    ensures DropIn(names[lo..hi], names[..lo]) == names[lo..hi]
  {
    hide DropIn;
    SliceMembers(names, lo, hi);
    SliceMembers(names, 0, lo);
    assert names[0..lo] == names[..lo];
    DropSplit([], names[lo..hi], names[..lo]);
    SeqAssoc(names[lo..hi], [], []);
  }

  lemma NextWindow(names: seq<string>, b: nat, lo: nat, hi: nat)
    requires NoDup(names) && lo < hi <= |names| && hi <= lo + b
    ensures DropIn(names[lo..hi], names[..lo]) == names[lo..hi]
    ensures SubsetOf(names[lo..hi], Take(DropIn(names, names[..lo]), b))
    ensures DropIn(names, names[..lo] + names[lo..hi]) == names[hi..]
  {
    hide DropIn, Take, SubsetOf, NoDup;
    DropPrefix(names, lo);
    DropPrefix(names, hi);
    SliceIsNew(names, lo, hi);
    WindowCovers(names[lo..], b, hi - lo);
    assert names[lo..][..hi - lo] == names[lo..hi];
    assert names[..lo] + names[lo..hi] == names[..hi];
  }

  lemma BatchInWindow(doc: Document, b: nat, records: seq<Record>, lo: nat, hi: nat)
    requires Loaded(doc) && FullSet(doc, records) && lo < hi <= |records| && hi <= lo + b
    ensures InWindow(doc, b, Names(records[..lo]), Names(records[lo..hi]))
    ensures DropIn(doc.names, Names(records[..lo]) + Names(records[lo..hi])) == doc.names[hi..]
  {
    hide CanonicalRecord, Stable, DropIn, Take, SubsetOf, Stored, Names, NoDup, LoadedBug, TagText;
    SliceReadsBack(doc, records, 0, lo, NoText);
    SliceReadsBack(doc, records, lo, hi, NoText);
    NextWindow(doc.names, b, lo, hi);
    assert records[..lo] == records[0..lo] && doc.names[..lo] == doc.names[0..lo];
  }

  lemma FullSetIsWhole(doc: Document, records: seq<Record>)
    requires FullSet(doc, records)
    ensures |records| == |doc.names|
  {
  }

  lemma BatchIsTaken(doc: Document, b: nat, records: seq<Record>, payload: Json, lo: nat, hi: nat, decode: Decoder)
    requires Loaded(doc) && FullSet(doc, records) && lo < hi <= |records| && hi <= lo + b
    requires Recorded(payload, doc, decode) == Some(records[..lo])
    ensures Step(doc, b, payload, Stored(records[lo..hi]), decode) == (hi == |records|, Stored(records[..hi]))
  {
    hide LoadedBug, FullSet, InWindow, Normalized, Recorded, Stored, Pick, ByName, DropIn, Names, NoDup, TagText;
    StoredIsList(records[lo..hi]);
    SliceReadsBack(doc, records, lo, hi, NoText);
    BatchInWindow(doc, b, records, lo, hi);
    PickPrefix(doc, records, hi);
    FullSetIsWhole(doc, records);
    assert records[..lo] + records[lo..hi] == records[..hi];
  }

  /** How many records `k` full batches hold. */
  function Handed(b: nat, k: nat): nat
  {
    b * k
  }

  lemma OneBatchMore(b: nat, k: nat)
    requires k > 0
    ensures Handed(b, k) == Handed(b, k - 1) + b
  {
  }

  /** The submissions that hand in `records` a batch at a time, up to the `k`-th. */
  function Batches(records: seq<Record>, b: nat, k: nat): seq<Json>
    requires Handed(b, k) <= |records|
  {
    if k == 0 then []
    else
      OneBatchMore(b, k);
      Batches(records, b, k - 1) + [Stored(records[Handed(b, k - 1)..Handed(b, k)])]
  }

  lemma {:induction false} RunSnoc(doc: Document, b: nat, payload: Json, calls: seq<Json>, last: Json, decode: Decoder)
    ensures Run(doc, b, payload, calls + [last], decode) ==
            Step(doc, b, Run(doc, b, payload, calls, decode), last, decode).1
    decreases |calls|
  {
    hide Step;
    if calls == [] {
      assert calls + [last] == [last] && [last][1..] == [];
    } else {
      assert (calls + [last])[1..] == calls[1..] + [last];
      RunSnoc(doc, b, Step(doc, b, payload, calls[0], decode).1, calls[1..], last, decode);
    }
  }

  lemma {:induction false} AfterBatches(doc: Document, b: nat, records: seq<Record>, k: nat, decode: Decoder)
    requires Loaded(doc) && FullSet(doc, records) && b >= 1 && Handed(b, k) <= |records|
    ensures Recorded(Run(doc, b, Null, Batches(records, b, k), decode), doc, decode) == Some(records[..Handed(b, k)])
    decreases k
  {
    hide Loaded, FullSet, Step, Normalized, Stored, Run, Recorded;
    if k > 0 {
      OneBatchMore(b, k);
      AfterBatches(doc, b, records, k - 1, decode);
      var lo, hi := Handed(b, k - 1), Handed(b, k);
      BatchesSnoc(b, records, k);
      hide *;
      NextBatchRecorded(doc, b, records, Batches(records, b, k - 1), lo, hi, decode);
    } else {
      NothingSubmitted(doc, b, decode);
    }
  }

  lemma BatchesSnoc(b: nat, records: seq<Record>, k: nat)
    requires k > 0 && Handed(b, k) <= |records|
    ensures Handed(b, k - 1) + b == Handed(b, k)
    ensures Batches(records, b, k) ==
            Batches(records, b, k - 1) + [Stored(records[Handed(b, k - 1)..Handed(b, k)])]
  {
    hide Stored;
    OneBatchMore(b, k);
  }

  lemma NothingSubmitted(doc: Document, b: nat, decode: Decoder)
    ensures Recorded(Run(doc, b, Null, [], decode), doc, decode) == Some([])
  {
  }

  /** One more batch, handed in after some calls. */
  lemma NextBatchRecorded(doc: Document, b: nat, records: seq<Record>, calls: seq<Json>, lo: nat, hi: nat, decode: Decoder)
    requires Loaded(doc) && FullSet(doc, records) && lo < hi <= |records| && hi <= lo + b
    requires Recorded(Run(doc, b, Null, calls, decode), doc, decode) == Some(records[..lo])
    ensures Recorded(Run(doc, b, Null, calls + [Stored(records[lo..hi])], decode), doc, decode) == Some(records[..hi])
  {
    hide Loaded, FullSet, Step, Normalized, Stored, Run;
    RunSnoc(doc, b, Null, calls, Stored(records[lo..hi]), decode);
    BatchIsTaken(doc, b, records, Run(doc, b, Null, calls, decode), lo, hi, decode);
    SliceReadsBack(doc, records, 0, hi, decode);
    StoredIsList(records[..hi]);
    assert records[..hi] == records[0..hi];
  }

  lemma StoredIsList(records: seq<Record>)
    ensures Stored(records).List?
  {
  }

  /** Handing in one full batch per call, a document of n > 0 Bugs whose names do not start with `BG-` passes at
      call ceil(n / b) and, by PassTakesCalls, never earlier. */
  lemma EnoughCalls(doc: Document, b: nat, records: seq<Record>, k: nat, decode: Decoder)
    requires Loaded(doc) && FullSet(doc, records) && b >= 1 && Handed(b, k) < |records| <= Handed(b, k) + b
    ensures Step(doc, b, Run(doc, b, Null, Batches(records, b, k), decode), Stored(records[Handed(b, k)..]), decode) ==
            (true, Stored(records))
  {
    hide *;
    AfterBatches(doc, b, records, k, decode);
    LastBatch(doc, b, records, Run(doc, b, Null, Batches(records, b, k), decode), Handed(b, k), decode);
  }

  lemma LastBatch(doc: Document, b: nat, records: seq<Record>, payload: Json, lo: nat, decode: Decoder)
    requires Loaded(doc) && FullSet(doc, records) && lo < |records| <= lo + b
    requires Recorded(payload, doc, decode) == Some(records[..lo])
    ensures Step(doc, b, payload, Stored(records[lo..]), decode) == (true, Stored(records))
  {
    hide *;
    BatchIsTaken(doc, b, records, payload, lo, |records|, decode);
    assert records[lo..] == records[lo..|records|] && records[..|records|] == records;
  }
}
