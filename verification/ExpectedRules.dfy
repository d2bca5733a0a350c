/** Exactly when the Bug documents can be loaded, and the confidence of every expected Bug, said about the marks
    (ucagent/checkers/recorder.py). */
module ExpectedRules {
  import opened Text
  import opened Lists
  import opened Locations
  import opened Records
  import opened ExpectedBugs
  import opened ExpectedLinks

  // ---------------------------------------------------------------- the rules

  /** The confidence a mark states; zero when its last part is no Bug label. */
  function ConfidenceOf(mark: seq<string>): real
  {
    match ParseBugLabel(TagOfMark(mark))
    case None => 0.0
    case Some((name, confidence)) => confidence
  }

  /** Mark `k` is the first one of the Bug. */
  predicate FirstMark(marks: seq<seq<string>>, name: string, k: nat)
  {
    k < |marks| && BugOf(marks[k]) == Some(name) && forall j :: 0 <= j < k ==> BugOf(marks[j]) != Some(name)
  }

  /** Mark `i` contradicts the first mark of its Bug. */
  ghost predicate Contradicts(marks: seq<seq<string>>, i: nat)
  {
    i < |marks| && BugOf(marks[i]).Some? &&
    exists k: nat :: FirstMark(marks, BugOf(marks[i]).value, k) && !Close(ConfidenceOf(marks[k]), ConfidenceOf(marks[i]))
  }

  /** There are fewer tags with the label of mark `i` than marks with it so far. */
  predicate LacksTag(src: Sources, i: nat)
  {
    i < |src.marks| &&
    |RangesOf(src.occurrences, TagOfMark(src.marks[i]))| <= CountTag(src.marks[..i], TagOfMark(src.marks[i]))
  }

  /** Mark `i` is refused: it ends in no Bug label, or it has a confidence other than zero and is not below a checkpoint,
      contradicts the first mark of its Bug, or has no tag of its own. */
  ghost predicate MarkRefused(src: Sources, i: nat)
  {
    i < |src.marks| &&
    (|| ParseBugLabel(TagOfMark(src.marks[i])).None?
     || (BugOf(src.marks[i]).Some? && (|src.marks[i]| < 4 || Contradicts(src.marks, i) || LacksTag(src, i))))
  }

  /** No mark has the label of a link, up to case. */
  predicate LinkRefused(src: Sources, i: nat, j: nat)
  {
    i < |src.links| && j < |src.links[i].tags| &&
    forall k :: 0 <= k < |src.marks| ==> src.upper(TagOfMark(src.marks[k])) != src.upper(src.links[i].tags[j])
  }

  // ---------------------------------------------------------------- the loops against the rules

  /** After `n` marks the expected Bugs are those of the marks, each with the confidence of its first mark. */
  ghost predicate Confidences(src: Sources, n: nat, s: Loading)
    requires n <= |src.marks|
  {
    forall name :: if name in s.bugs then exists k: nat :: k < n && FirstMark(src.marks, name, k)
                                                         && s.bugs[name].confidence == ConfidenceOf(src.marks[k])
                   else forall k: nat :: k < n ==> BugOf(src.marks[k]) != Some(name)
  }

  lemma FirstIsOne(marks: seq<seq<string>>, name: string, j: nat, k: nat)
    requires FirstMark(marks, name, j) && FirstMark(marks, name, k)
    ensures j == k
  {
    hide BugOf;
  }

  /** The first mark of the Bug of mark `n`. */
  lemma FirstSoFar(src: Sources, n: nat, s: Loading) returns (k: nat)
    requires n < |src.marks| && Confidences(src, n, s) && BugOf(src.marks[n]).Some?
    ensures var name := BugOf(src.marks[n]).value;
            && k <= n && FirstMark(src.marks, name, k)
            && (name in s.bugs ==> s.bugs[name].confidence == ConfidenceOf(src.marks[k]))
            && (name !in s.bugs ==> k == n)
  {
    hide BugOf, ConfidenceOf;
    var name := BugOf(src.marks[n]).value;
    if name in s.bugs {
      k :| k < n && FirstMark(src.marks, name, k) && s.bugs[name].confidence == ConfidenceOf(src.marks[k]);
    } else {
      k := n;
    }
  }

  lemma ContradictsIff(src: Sources, n: nat, s: Loading)
    requires n < |src.marks| && Confidences(src, n, s) && BugOf(src.marks[n]).Some?
    ensures var name, stated := BugOf(src.marks[n]).value, ConfidenceOf(src.marks[n]);
            Contradicts(src.marks, n) <==> !Close(if name in s.bugs then s.bugs[name].confidence else stated, stated)
  {
    hide BugOf, ConfidenceOf, Confidences;
    var name := BugOf(src.marks[n]).value;
    var k := FirstSoFar(src, n, s);
    forall j: nat | FirstMark(src.marks, name, j) ensures j == k { FirstIsOne(src.marks, name, j, k); }
  }

  /** What makes one mark acceptable. */
  lemma AddMarkIff(s: Loading, mark: seq<string>, src: Sources)
    requires mark != []
    ensures var tag := TagOfMark(mark);
            AddMark(s, mark, src).Some? <==>
            && ParseBugLabel(tag).Some?
            && (BugOf(mark).Some? ==>
                  && |mark| >= 4
                  && Close(if BugOf(mark).value in s.bugs then s.bugs[BugOf(mark).value].confidence else ConfidenceOf(mark),
                           ConfidenceOf(mark))
                  && Taken(s, tag) < |RangesOf(src.occurrences, tag)|)
  {
    hide ParseBugLabel, RangesOf, CkPath, Close, Taken;
  }

  /** What one mark does to the confidences. */
  lemma AddMarkConfidence(s: Loading, mark: seq<string>, src: Sources, name: string)
    requires mark != [] && AddMark(s, mark, src).Some?
    ensures var t := AddMark(s, mark, src).value;
            && (name in t.bugs <==> name in s.bugs || BugOf(mark) == Some(name))
            && (name in t.bugs ==>
                  t.bugs[name].confidence == if name in s.bugs then s.bugs[name].confidence else ConfidenceOf(mark))
  {
    hide ParseBugLabel, RangesOf, CkPath, Close, Taken;
  }

  lemma ConfidencesStep(src: Sources, n: nat, s: Loading, t: Loading)
    requires n < |src.marks| && src.marks[n] != [] && Confidences(src, n, s) && AddMark(s, src.marks[n], src) == Some(t)
    ensures Confidences(src, n + 1, t)
  {
    hide AddMark, BugOf, ConfidenceOf;
    forall name
      ensures if name in t.bugs then exists k: nat :: k < n + 1 && FirstMark(src.marks, name, k)
                                                    && t.bugs[name].confidence == ConfidenceOf(src.marks[k])
              else forall k: nat :: k < n + 1 ==> BugOf(src.marks[k]) != Some(name) {
      AddMarkConfidence(s, src.marks[n], src, name);
      if name in t.bugs && name !in s.bugs { assert FirstMark(src.marks, name, n); }
    }
  }

  lemma ConfidencesStart(src: Sources)
    ensures Confidences(src, 0, NOTHING)
  {
  }

  lemma MarkIff(src: Sources, n: nat, s: Loading)
    requires n < |src.marks| && (forall m :: m in src.marks ==> m != []) && AddMarks(src, n) == Some(s)
    requires src.marks[n] != [] && Confidences(src, n, s)
    ensures AddMark(s, src.marks[n], src).Some? <==> !MarkRefused(src, n)
  {
    hide AddMark, ConfidenceOf, ParseBugLabel, Contradicts, RangesOf, CountTag, Taken, Confidences, Close;
    var mark := src.marks[n];
    assert mark in src.marks;
    AddMarkIff(s, mark, src);
    if BugOf(mark).Some? {
      ContradictsIff(src, n, s);
      TakenIsCount(src, n, TagOfMark(mark));
      assert TagOfMark([TagOfMark(mark)]) == TagOfMark(mark);
    }
  }

  lemma {:induction false} MarksIff(src: Sources, n: nat)
    requires n <= |src.marks| && forall m :: m in src.marks ==> m != []
    ensures AddMarks(src, n).Some? <==> forall i: nat :: i < n ==> !MarkRefused(src, i)
    ensures AddMarks(src, n).Some? ==> Confidences(src, n, AddMarks(src, n).value)
    decreases n
  {
    hide AddMark, MarkRefused, Confidences;
    if n == 0 {
      ConfidencesStart(src);
    } else {
      assert src.marks[n - 1] in src.marks;
      MarksIff(src, n - 1);
      if AddMarks(src, n - 1).Some? {
        var s := AddMarks(src, n - 1).value;
        MarkIff(src, n - 1, s);
        if AddMarks(src, n).Some? { ConfidencesStep(src, n - 1, s, AddMarks(src, n).value); }
      }
    }
  }

  lemma {:induction false} LastWithLabelIff(marks: seq<seq<string>>, upperLabel: string, upper: string -> string)
    ensures LastWithLabel(marks, upperLabel, upper).Some? <==>
            exists k :: 0 <= k < |marks| && upper(TagOfMark(marks[k])) == upperLabel
    decreases |marks|
  {
    if marks != [] {
      var rest := marks[..|marks| - 1];
      LastWithLabelIff(rest, upperLabel, upper);
      assert forall k :: 0 <= k < |rest| ==> rest[k] == marks[k];
    }
  }

  lemma LinksIff(src: Sources, s: Loading)
    requires (forall m :: m in src.marks ==> m != []) && AddMarks(src, |src.marks|) == Some(s)
    ensures AddLinks(s, src.links, |src.links|, src.upper).Some? <==> forall i: nat, j: nat :: !LinkRefused(src, i, j)
  {
    hide AddMarks, AddLinks, LastWithLabel, TagOfMark, BugMatches;
    LabelsConsistent(src);
    MarksAreExact(src, |src.marks|, "");
    NoAliasYet(src, s, "");
    LinksAreExact(s, src.links, |src.links|, "", src.upper);
    assert src.marks[..|src.marks|] == src.marks;
    forall i: nat, j: nat | i < |src.links| && j < |src.links[i].tags|
      ensures src.upper(src.links[i].tags[j]) in s.byTag <==> !LinkRefused(src, i, j) {
      LabelsAreExact(src, |src.marks|, src.upper(src.links[i].tags[j]));
      LastWithLabelIff(src.marks, src.upper(src.links[i].tags[j]), src.upper);
    }
    ResolvesIff(src, s);
  }

  lemma ResolvesIff(src: Sources, s: Loading)
    requires forall i: nat, j: nat :: i < |src.links| && j < |src.links[i].tags| ==>
               (src.upper(src.links[i].tags[j]) in s.byTag <==> !LinkRefused(src, i, j))
    ensures (forall i :: 0 <= i < |src.links| ==> Resolves(s, src.links[i], |src.links[i].tags|, src.upper)) <==>
            forall i: nat, j: nat :: !LinkRefused(src, i, j)
  {
    hide TagOfMark;
    if forall i :: 0 <= i < |src.links| ==> Resolves(s, src.links[i], |src.links[i].tags|, src.upper) {
      forall i: nat, j: nat ensures !LinkRefused(src, i, j) {
        if i < |src.links| && j < |src.links[i].tags| { assert Resolves(s, src.links[i], |src.links[i].tags|, src.upper); }
      }
    }
  }

  /** Exactly when the documents can be loaded: no mark and no link is refused. */
  lemma LoadsIff(src: Sources)
    requires forall m :: m in src.marks ==> m != []
    ensures Expectation(src).Some? <==>
            (forall i: nat :: !MarkRefused(src, i)) && forall i: nat, j: nat :: !LinkRefused(src, i, j)
  {
    hide AddMarks, AddLinks, LinkRefused, Confidences, Finished;
    MarksIff(src, |src.marks|);
    MarksInside(src);
    hide MarkRefused;
    if AddMarks(src, |src.marks|).Some? { LinksIff(src, AddMarks(src, |src.marks|).value); }
  }

  lemma MarksInside(src: Sources)
    ensures forall i: nat :: MarkRefused(src, i) ==> i < |src.marks|
  {
  }

  /** The expected Bugs are exactly those of the marks of confidence other than zero. Each has the confidence of its first
      mark, and every other mark of the Bug agrees with it. */
  lemma ConfidencesAreExact(src: Sources, name: string)
    requires (forall m :: m in src.marks ==> m != []) && Expectation(src).Some?
    ensures var bugs := Expectation(src).value.bugs;
            && (name in bugs <==> exists i: nat :: i < |src.marks| && BugOf(src.marks[i]) == Some(name))
            && (name in bugs ==>
                  && (exists k: nat :: FirstMark(src.marks, name, k) && bugs[name].confidence == ConfidenceOf(src.marks[k]))
                  && forall i: nat :: i < |src.marks| && BugOf(src.marks[i]) == Some(name) ==>
                       Close(bugs[name].confidence, ConfidenceOf(src.marks[i])))
  {
    hide AddMarks, AddLinks, ConfidenceOf, LinkRefused, RefsOf, BugMatches, BugOf, LacksTag;
    LoadsIff(src);
    MarksIff(src, |src.marks|);
    var s := AddMarks(src, |src.marks|).value;
    LabelsConsistent(src);
    MarksAreExact(src, |src.marks|, name);
    NoAliasYet(src, s, name);
    LinksAreExact(s, src.links, |src.links|, name, src.upper);
    var t := AddLinks(s, src.links, |src.links|, src.upper).value;
    assert t.bugs.Keys == s.bugs.Keys && (name in s.bugs ==> t.bugs[name].confidence == s.bugs[name].confidence);
    assert name in Expectation(src).value.bugs <==> name in s.bugs;
    if name in s.bugs {
      var k: nat :| k < |src.marks| && FirstMark(src.marks, name, k) && s.bugs[name].confidence == ConfidenceOf(src.marks[k]);
      forall i: nat | i < |src.marks| && BugOf(src.marks[i]) == Some(name)
        ensures Close(s.bugs[name].confidence, ConfidenceOf(src.marks[i])) {
        assert !MarkRefused(src, i) && !Contradicts(src.marks, i);
      }
    }
  }

  lemma FinishedBug(src: Sources, t: Loading, name: string)
    requires name in t.bugs
    ensures name in Finished(src, t).bugs
    ensures var e, b := Finished(src, t).bugs[name], t.bugs[name];
            && e.ck == b.ck && e.alias == b.alias
            && e.refs == (if b.staticRanges == [] then [] else [Printed(src.staticDocument, b.staticRanges)])
                         + [Printed(src.document, b.ranges)]
    ensures Finished(src, t).names == t.names
  {
    hide Printed;
  }

  /** Everything else that is expected: the Bugs in order of their first mark, each with its checkpoints, with the aliases of
      the links that mean it, and with a reference to its static entries, if there are any, before the one to its own. */
  lemma BugsAreExact(src: Sources, name: string)
    requires (forall m :: m in src.marks ==> m != []) && Expectation(src).Some?
    ensures AddMarks(src, |src.marks|).Some? && Expectation(src).value.names == Unique(NamesOf(src.marks))
    ensures name in Expectation(src).value.bugs ==>
              var e, own := Expectation(src).value.bugs[name], OwnRanges(src.occurrences, src.marks, name);
              var links := LinksTo(AddMarks(src, |src.marks|).value, src.links, name, src.upper);
              && own.Some? && e.ck == Unique(PathsOf(src.marks, name)) && e.alias == Unique(Aliases(links))
              && e.refs == (if links == [] then [] else [Printed(src.staticDocument, Spans(links))])
                           + [Printed(src.document, own.value)]
  {
    hide AddMarks, AddLinks, LinksTo, Printed, Unique, OwnRanges, PathsOf, NamesOf, Finished, RefsOf;
    var s := AddMarks(src, |src.marks|).value;
    var t := AddLinks(s, src.links, |src.links|, src.upper).value;
    LabelsConsistent(src);
    MarksAreExact(src, |src.marks|, name);
    LinksAreExact(s, src.links, |src.links|, name, src.upper);
    assert src.marks[..|src.marks|] == src.marks && src.links[..|src.links|] == src.links;
    FinishedNames(src, t);
    if name in t.bugs {
      FinishedBug(src, t, name);
      var links := LinksTo(s, src.links, name, src.upper);
      SeqAssoc(Aliases(links), [], []);
      SeqAssoc(Spans(links), [], []);
      assert |Spans(links)| == |links|;
    }
  }

  lemma FinishedNames(src: Sources, t: Loading)
    ensures Finished(src, t).names == t.names && forall n :: n in Finished(src, t).bugs <==> n in t.bugs
  {
    hide RefsOf;
  }
}
