/** What the confirmed static links add to the expected Bugs (ucagent/checkers/recorder.py). */
module ExpectedLinks {
  import opened Text
  import opened Lists
  import opened LineRanges
  import opened Locations
  import opened Records
  import opened ExpectedBugs

  // ---------------------------------------------------------------- which Bug a linked label means

  /** The last mark whose label is `label` in upper case. */
  function LastWithLabel(marks: seq<seq<string>>, upperLabel: string, upper: string -> string): Option<seq<string>>
  {
    if marks == [] then None
    else if upper(TagOfMark(marks[|marks| - 1])) == upperLabel then Some(marks[|marks| - 1])
    else LastWithLabel(marks[..|marks| - 1], upperLabel, upper)
  }

  /** A linked label is known if and only if some mark has it, and it means the Bug of the last such mark, or no Bug
      when that has confidence zero. */
  lemma {:induction false} LabelsAreExact(src: Sources, n: nat, upperLabel: string)
    requires n <= |src.marks| && (forall m :: m in src.marks ==> m != []) && AddMarks(src, n).Some?
    ensures var byTag := AddMarks(src, n).value.byTag;
            var last := LastWithLabel(src.marks[..n], upperLabel, src.upper);
            && (upperLabel in byTag <==> last.Some?)
            && (last.Some? ==> byTag[upperLabel] == BugOf(last.value))
            && (upperLabel in byTag && byTag[upperLabel].Some? ==> byTag[upperLabel].value in AddMarks(src, n).value.bugs)
    decreases n
  {
    hide ParseBugLabel, RangesOf, CkPath, Close, Taken, AddMark;
    if n > 0 {
      var mark := src.marks[n - 1];
      assert mark in src.marks;
      LabelsAreExact(src, n - 1, upperLabel);
      assert src.marks[..n][..n - 1] == src.marks[..n - 1];
      LabelStep(AddMarks(src, n - 1).value, mark, src, upperLabel);
    }
  }

  lemma LabelStep(s: Loading, mark: seq<string>, src: Sources, upperLabel: string)
    requires mark != [] && AddMark(s, mark, src).Some?
    ensures var t := AddMark(s, mark, src).value;
            && s.bugs.Keys <= t.bugs.Keys
            && (BugOf(mark).Some? ==> BugOf(mark).value in t.bugs)
            && t.byTag == s.byTag[src.upper(TagOfMark(mark)) := BugOf(mark)]
  {
    hide ParseBugLabel, RangesOf, CkPath, Close, Taken;
  }

  // ---------------------------------------------------------------- aliases and static ranges

  /** The label resolves to the Bug. */
  predicate Means(s: Loading, upperLabel: string, name: string)
  {
    upperLabel in s.byTag && s.byTag[upperLabel] == Some(name)
  }

  /** One copy of the link's alias and range for each of its first `n` tags that resolves to the Bug. */
  function TagsTo(s: Loading, link: Link, n: nat, name: string, upper: string -> string): seq<(string, Span)>
    requires n <= |link.tags|
  {
    if n == 0 then []
    else
      TagsTo(s, link, n - 1, name, upper)
      + (if Means(s, upper(link.tags[n - 1]), name) then [(link.alias, link.range)] else [])
  }

  function LinksTo(s: Loading, links: seq<Link>, name: string, upper: string -> string): seq<(string, Span)>
  {
    if links == [] then []
    else
      var last := links[|links| - 1];
      LinksTo(s, links[..|links| - 1], name, upper) + TagsTo(s, last, |last.tags|, name, upper)
  }

  function Aliases(found: seq<(string, Span)>): seq<string>
  {
    Map(found, (x: (string, Span)) => x.0)
  }

  function Spans(found: seq<(string, Span)>): seq<Span>
  {
    Map(found, (x: (string, Span)) => x.1)
  }

  /** `t` is `s` with the aliases and static ranges of the found links added to the Bug. */
  ghost predicate Extended(s: Loading, t: Loading, name: string, found: seq<(string, Span)>)
  {
    && t.names == s.names && t.byTag == s.byTag && t.taken == s.taken && t.bugs.Keys == s.bugs.Keys
    && (name in s.bugs ==>
          t.bugs[name] == s.bugs[name].(alias := Unique(s.bugs[name].alias + Aliases(found)),
                                        staticRanges := s.bugs[name].staticRanges + Spans(found)))
  }

  /** Every label that is linked to is known. */
  predicate Resolves(s: Loading, link: Link, n: nat, upper: string -> string)
    requires n <= |link.tags|
  {
    forall j :: 0 <= j < n ==> upper(link.tags[j]) in s.byTag
  }

  predicate Consistent(s: Loading)
  {
    forall u :: u in s.byTag && s.byTag[u].Some? ==> s.byTag[u].value in s.bugs
  }

  lemma NothingFound(s: Loading, name: string)
    requires name in s.bugs ==> NoDup(s.bugs[name].alias)
    ensures Extended(s, s, name, [])
  {
    hide Unique;
    if name in s.bugs {
      UniqueOfNoDup(s.bugs[name].alias);
      SeqAssoc(s.bugs[name].alias, [], []);
      SeqAssoc(s.bugs[name].staticRanges, [], []);
    }
  }

  lemma TagStep(s: Loading, t: Loading, link: Link, tag: string, name: string, found: seq<(string, Span)>,
                upper: string -> string)
    requires Extended(s, t, name, found) && Consistent(s)
    ensures var next := AddTag(t, link.alias, link.range, tag, upper);
            && (next.Some? <==> upper(tag) in s.byTag)
            && (next.Some? ==> Extended(s, next.value, name,
                                        found + (if Means(s, upper(tag), name) then [(link.alias, link.range)] else [])))
  {
    hide Unique;
    SeqAssoc(found, [], []);
    if Means(s, upper(tag), name) {
      var bug, x := s.bugs[name], (link.alias, link.range);
      assert Aliases(found + [x]) == Aliases(found) + [link.alias];
      assert Spans(found + [x]) == Spans(found) + [link.range];
      SeqAssoc(bug.alias, Aliases(found), [link.alias]);
      SeqAssoc(bug.staticRanges, Spans(found), [link.range]);
      UniqueSnoc(bug.alias + Aliases(found), link.alias);
    }
  }

  lemma {:induction false} TagsAreExact(s: Loading, t: Loading, link: Link, n: nat, name: string, found: seq<(string, Span)>,
                                        upper: string -> string)
    requires Extended(s, t, name, found) && Consistent(s) && n <= |link.tags|
    ensures var next := AddTags(t, link, n, upper);
            && (next.Some? <==> Resolves(s, link, n, upper))
            && (next.Some? ==> Extended(s, next.value, name, found + TagsTo(s, link, n, name, upper)))
    decreases n
  {
    hide AddTag, Extended, Consistent, Means;
    if n == 0 {
      SeqAssoc(found, [], []);
    } else {
      TagsAreExact(s, t, link, n - 1, name, found, upper);
      if Resolves(s, link, n - 1, upper) {
        var before := TagsTo(s, link, n - 1, name, upper);
        TagStep(s, AddTags(t, link, n - 1, upper).value, link, link.tags[n - 1], name, found + before, upper);
        SeqAssoc(found, before, if Means(s, upper(link.tags[n - 1]), name) then [(link.alias, link.range)] else []);
      }
    }
  }

  /** The links succeed if and only if every linked label is known; then each Bug has the aliases of the links that
      resolve to it, in order of first link and each once, and their ranges. */
  lemma {:induction false} LinksAreExact(s: Loading, links: seq<Link>, n: nat, name: string, upper: string -> string)
    requires n <= |links| && Consistent(s) && (name in s.bugs ==> NoDup(s.bugs[name].alias))
    ensures var next := AddLinks(s, links, n, upper);
            && (next.Some? <==> forall i :: 0 <= i < n ==> Resolves(s, links[i], |links[i].tags|, upper))
            && (next.Some? ==> Extended(s, next.value, name, LinksTo(s, links[..n], name, upper)))
    decreases n
  {
    hide AddTags, Extended, Consistent, TagsTo;
    if n == 0 {
      NothingFound(s, name);
    } else {
      LinksAreExact(s, links, n - 1, name, upper);
      assert links[..n][..n - 1] == links[..n - 1];
      if forall i :: 0 <= i < n - 1 ==> Resolves(s, links[i], |links[i].tags|, upper) {
        var link := links[n - 1];
        var found := LinksTo(s, links[..n - 1], name, upper);
        TagsAreExact(s, AddLinks(s, links, n - 1, upper).value, link, |link.tags|, name, found, upper);
      }
    }
  }

  /** The whole loading: a Bug of the result has exactly the aliases of the links whose label means it. */
  lemma AliasesAreExact(src: Sources, name: string)
    requires (forall m :: m in src.marks ==> m != []) && Expectation(src).Some? && name in Expectation(src).value.bugs
    ensures var s := AddMarks(src, |src.marks|).value;
            Expectation(src).value.bugs[name].alias == Unique(Aliases(LinksTo(s, src.links, name, src.upper)))
  {
    hide AddMarks, AddLinks, Unique, LinksTo, RefsOf, BugMatches;
    var s := AddMarks(src, |src.marks|).value;
    MarksAreExact(src, |src.marks|, name);
    LabelsConsistent(src);
    NoAliasYet(src, s, name);
    LinksAreExact(s, src.links, |src.links|, name, src.upper);
    assert src.links[..|src.links|] == src.links;
    SeqAssoc(Aliases(LinksTo(s, src.links, name, src.upper)), [], []);
  }

  lemma NoAliasYet(src: Sources, s: Loading, name: string)
    requires BugMatches(src, src.marks[..|src.marks|], s, name)
    ensures name in s.bugs ==> s.bugs[name].alias == []
  {
    hide OwnRanges, PathsOf, NamesOf, Unique;
  }

  lemma LabelsConsistent(src: Sources)
    requires (forall m :: m in src.marks ==> m != []) && AddMarks(src, |src.marks|).Some?
    ensures Consistent(AddMarks(src, |src.marks|).value)
  {
    hide AddMarks, LastWithLabel;
    var s := AddMarks(src, |src.marks|).value;
    forall u | u in s.byTag && s.byTag[u].Some? ensures s.byTag[u].value in s.bugs {
      LabelsAreExact(src, |src.marks|, u);
    }
  }
}
