/** What the normal form of a test tag means, and exactly when it is stable: `normalize_test_case_tag` of
    ucagent/util/bug_analysis_contract.py. */
module TagMeaning {
  import opened Text
  import opened Lists
  import opened TestTags

  // ---------------------------------------------------------------- where a path leads

  /** Following one component of a path from a directory. */
  function Follow(dir: seq<string>, c: string): seq<string>
  {
    if c == "" || c == "." then dir
    else if c != ".." then dir + [c]
    else if dir == [] then [] else dir[..|dir| - 1]
  }

  /** Following all of them. */
  function Place(dir: seq<string>, parts: seq<string>): seq<string>
  {
    if parts == [] then dir else Follow(Place(dir, parts[..|parts| - 1]), parts[|parts| - 1])
  }

  predicate Plain(c: string)
  {
    c != "" && c != "." && c != ".." && '/' !in c
  }

  ghost predicate AllPlain(names: seq<string>)
  {
    forall i :: 0 <= i < |names| ==> Plain(names[i])
  }

  /** The path is relative, and from every directory it leads to `names` below it. */
  ghost predicate LeadsTo(path: string, names: seq<string>)
  {
    !("/" <= path) && forall dir: seq<string> :: Place(dir, SplitOn(path, '/')) == dir + names
  }

  /** The number of leading `..`. */
  function Ups(kept: seq<string>): (r: nat)
    ensures r <= |kept| && forall i :: 0 <= i < r ==> kept[i] == ".."
    ensures r < |kept| ==> kept[r] != ".."
  {
    if kept != [] && kept[0] == ".." then 1 + Ups(kept[1..]) else 0
  }

  lemma UpsIs(kept: seq<string>, n: nat)
    requires n <= |kept| && (forall i :: 0 <= i < n ==> kept[i] == "..") && (n < |kept| ==> kept[n] != "..")
    ensures Ups(kept) == n
  {
  }

  function Names(kept: seq<string>): seq<string>
  {
    kept[Ups(kept)..]
  }

  /** `n` steps up. */
  function Above(dir: seq<string>, n: nat): seq<string>
  {
    dir[..if n <= |dir| then |dir| - n else 0]
  }

  /** Where components lead that start with all their `..`. */
  function Reached(dir: seq<string>, kept: seq<string>): seq<string>
  {
    Above(dir, Ups(kept)) + Names(kept)
  }

  lemma OneAbove(dir: seq<string>, n: nat)
    ensures Above(dir, n + 1) == Follow(Above(dir, n), "..")
  {
  }

  lemma OnlyUps(dir: seq<string>, kept: seq<string>)
    requires Ups(kept) == |kept|
    ensures Names(kept) == [] && Reached(dir, kept) == Above(dir, |kept|)
  {
    hide Above, Ups;
    assert Above(dir, |kept|) + [] == Above(dir, |kept|);
  }

  lemma OneNameMore(kept: seq<string>, c: string)
    requires c != ".."
    ensures Names(kept + [c]) == Names(kept) + [c] && forall dir :: Reached(dir, kept + [c]) == Reached(dir, kept) + [c]
  {
    hide Ups;
    UpsIs(kept + [c], Ups(kept));
  }

  lemma OneUpMore(dir: seq<string>, kept: seq<string>)
    requires Ups(kept) == |kept|
    ensures Names(kept + [".."]) == [] && Reached(dir, kept + [".."]) == Follow(Reached(dir, kept), "..")
  {
    hide Ups, Names, Reached, Above, Follow;
    UpsIs(kept + [".."], |kept| + 1);
    OnlyUps(dir, kept);
    OnlyUps(dir, kept + [".."]);
    OneAbove(dir, |kept|);
  }

  lemma OneNameLess(dir: seq<string>, kept: seq<string>)
    requires Ups(kept) < |kept|
    ensures Names(kept[..|kept| - 1]) == Names(kept)[..|Names(kept)| - 1]
    ensures Reached(dir, kept[..|kept| - 1]) == Follow(Reached(dir, kept), "..")
  {
    hide Ups, Above;
    UpsIs(kept[..|kept| - 1], Ups(kept));
    LastOfBoth(Above(dir, Ups(kept)), Names(kept));
  }

  lemma LastOfBoth(a: seq<string>, b: seq<string>)
    requires b != []
    ensures (a + b)[..|a + b| - 1] == a + b[..|b| - 1]
  {
  }

  lemma OneComponentMore(kept: seq<string>, c: string)
    requires AllPlain(Names(kept)) && '/' !in c
    ensures var next := WithComponent(kept, c, false);
            AllPlain(Names(next)) && forall dir :: Reached(dir, next) == Follow(Reached(dir, kept), c)
  {
    hide Ups, Reached;
    if c != "" && c != "." {
      if c != ".." {
        OneNameMore(kept, c);
      } else if Ups(kept) == |kept| {
        assert kept != [] ==> kept[|kept| - 1] == "..";
        forall dir ensures Reached(dir, kept + [".."]) == Follow(Reached(dir, kept), "..") { OneUpMore(dir, kept); }
        OneUpMore([], kept);
      } else {
        assert Plain(Names(kept)[|Names(kept)| - 1]);
        var less := kept[..|kept| - 1];
        forall dir ensures Reached(dir, less) == Follow(Reached(dir, kept), "..") { OneNameLess(dir, kept); }
        OneNameLess([], kept);
      }
    }
  }

  /** The components that are kept lead where the whole path leads. */
  lemma {:induction false} ComponentsLead(parts: seq<string>)
    requires forall i :: 0 <= i < |parts| ==> '/' !in parts[i]
    ensures AllPlain(Names(Components(parts, false)))
    ensures forall dir :: Place(dir, parts) == Reached(dir, Components(parts, false))
    decreases |parts|
  {
    hide WithComponent, AllPlain, Names, Reached, Follow;
    if parts == [] {
      NothingKept();
    } else {
      var rest, c := parts[..|parts| - 1], parts[|parts| - 1];
      ComponentsLead(rest);
      OneComponentMore(Components(rest, false), c);
    }
  }

  lemma NothingKept()
    ensures AllPlain(Names([])) && forall dir :: Reached(dir, []) == dir
  {
  }

  /** A path leads to the same names below every directory exactly when nothing has to be taken back from it. */
  lemma LeadsIff(path: string, names: seq<string>)
    requires !("/" <= path)
    ensures LeadsTo(path, names) <==>
            Ups(Components(SplitOn(path, '/'), false)) == 0 && names == Components(SplitOn(path, '/'), false)
  {
    var parts := SplitOn(path, '/');
    var kept := Components(parts, false);
    hide Components, SplitOn, Place, Ups;
    ComponentsLead(parts);
    if LeadsTo(path, names) {
      assert Place([], parts) == [] + names == Reached([], kept) == Names(kept);
      assert Place([""], parts) == [""] + names == Reached([""], kept);
      assert Ups(kept) > 0 ==> Reached([""], kept) == Names(kept);
      assert [] + names == names;
    }
    assert Ups(kept) == 0 ==> Names(kept) == kept && forall dir: seq<string> :: dir[..|dir|] == dir;
  }

  // ---------------------------------------------------------------- the path of a tag

  ghost predicate PlainFile(names: seq<string>, path: string)
  {
    && names != [] && AllPlain(names) && path == JoinWith(names, '/')
    && |path| >= 3 && path[|path| - 3..] == ".py"
  }

  lemma JoinStarts(names: seq<string>, c: char)
    requires names != []
    ensures names[0] <= JoinWith(names, c)
    ensures |names| > 1 ==> names[0] + [c] <= JoinWith(names, c)
  {
  }

  lemma JoinFront(names: seq<string>, c: char, front: string)
    requires names != [] && c !in names[0] && c !in front && front + [c] <= JoinWith(names, c)
    ensures front == names[0]
  {
    var s := JoinWith(names, c);
    JoinStarts(names, c);
    hide JoinWith;
    assert s[|front|] == (front + [c])[|front|] == c;
    assert |names| > 1 ==> s[|names[0]|] == (names[0] + [c])[|names[0]|] == c;
    assert forall k :: 0 <= k < |names[0]| ==> s[k] == names[0][k];
    assert forall k :: 0 <= k < |front| ==> s[k] == (front + [c])[k] == front[k];
    assert names[0] == s[..|names[0]|] && front == s[..|front|];
  }

  lemma PlainHead(names: seq<string>)
    requires names != [] && AllPlain(names)
    ensures var path := JoinWith(names, '/');
            path != "" && path != "." && path != ".." && !("../" <= path) && !("/" <= path)
  {
    var path := JoinWith(names, '/');
    assert Plain(names[0]);
    JoinStarts(names, '/');
    if |names| == 1 { JoinedOne(names); }
    hide JoinWith;
    assert path[0] == names[0][0];
    if "../" <= path { JoinFront(names, '/', ".."); }
    if |names| > 1 { InPrefix(names[0] + ['/'], path, '/'); }
  }

  lemma UpHead(kept: seq<string>)
    requires kept != [] && kept[0] == ".."
    ensures JoinWith(kept, '/') == ".." || "../" <= JoinWith(kept, '/')
  {
    JoinStarts(kept, '/');
    if |kept| == 1 { JoinedOne(kept); }
  }

  /** Joined components are a file inside the workspace exactly when no `..` leads out of it. */
  lemma FileIff(kept: seq<string>)
    requires AllPlain(Names(kept))
    ensures var path := JoinWith(kept, '/');
            (path != "" && FilePath(path)) <==> Ups(kept) == 0 && PlainFile(kept, path)
  {
    hide AllPlain, Ups, JoinWith;
    if kept == [] {
      NothingJoined();
    } else if Ups(kept) == 0 {
      assert Names(kept) == kept;
      PlainHead(kept);
    } else {
      UpHead(kept);
    }
  }

  lemma JoinedOne(kept: seq<string>)
    requires |kept| == 1
    ensures JoinWith(kept, '/') == kept[0]
  {
  }

  lemma InPrefix(a: string, b: string, c: char)
    requires a <= b && c in a
    ensures c in b
  {
  }

  lemma {:induction false} KeptAreParts(parts: seq<string>, absolute: bool)
    ensures forall x :: x in Components(parts, absolute) ==> x in parts
    decreases |parts|
  {
    hide WithComponent;
    if parts != [] {
      var rest, c := parts[..|parts| - 1], parts[|parts| - 1];
      KeptAreParts(rest, absolute);
      OneKept(Components(rest, absolute), c, absolute);
      assert parts == rest + [c];
    }
  }

  lemma OneKept(kept: seq<string>, c: string, absolute: bool)
    ensures forall x :: x in WithComponent(kept, c, absolute) ==> x in kept || x == c
  {
  }

  /** The path of a normal form: a file whose plain components are where the given path leads from every directory. */
  lemma PathIff(path: string, file: string)
    ensures NormPath(path) == file && FilePath(file) <==>
            exists names :: PlainFile(names, file) && LeadsTo(path, names)
  {
    var parts := SplitOn(path, '/');
    var kept := Components(parts, false);
    if "/" <= path {
      AbsoluteIsNoFile(path);
    } else {
      ComponentsLead(parts);
      KeptAreParts(parts, false);
      forall i | 0 <= i < |kept| ensures '/' !in kept[i] { assert kept[i] in kept; }
      RelativePath(path);
      hide Components, SplitOn, NormPath, LeadsTo, PlainFile, AllPlain, FilePath;
      FileIff(kept);
      LeadsIff(path, kept);
      forall names | LeadsTo(path, names) ensures names == kept && Ups(kept) == 0 { LeadsIff(path, names); }
      PlainFileIs(kept, file);
    }
  }

  lemma PlainFileIs(names: seq<string>, file: string)
    ensures PlainFile(names, file) ==> file == JoinWith(names, '/')
  {
  }

  lemma AbsoluteIsNoFile(path: string)
    requires "/" <= path
    ensures !FilePath(NormPath(path))
  {
    hide Components, SplitOn, JoinWith;
  }

  lemma RelativePath(path: string)
    requires !("/" <= path)
    ensures var joined := JoinWith(Components(SplitOn(path, '/'), false), '/');
            (joined != "" ==> NormPath(path) == joined) && (joined == "" ==> !FilePath(NormPath(path)))
    ensures !FilePath("")
  {
    hide JoinWith;
    if path == "" { EmptyPath(); }
    hide Components, SplitOn;
  }

  lemma EmptyPath()
    ensures JoinWith(Components(SplitOn("", '/'), false), '/') == ""
  {
    NotSplit("", '/');
    assert [""][..0] == [];
  }

  // ---------------------------------------------------------------- the whole tag

  /** Strip the text, and the brackets around it. */
  ghost predicate Unwrapped(value: string, s: string)
  {
    || (exists inner :: Strip(value) == "<" + inner + ">" && s == Strip(inner))
    || (s == Strip(value) && forall inner :: Strip(value) != "<" + inner + ">")
  }

  ghost predicate Slashed(text: string, path: string)
  {
    |path| == |text| && forall i :: 0 <= i < |text| ==> path[i] == if text[i] == '\\' then '/' else text[i]
  }

  /** With either kind of slash, the text leads to the file from every directory. */
  ghost predicate MeansFile(text: string, file: string)
  {
    exists path, names :: Slashed(text, path) && PlainFile(names, file) && LeadsTo(path, names)
  }

  /** A file, a function and perhaps a class between them, none of them blank. */
  ghost predicate MeansTag(s: string, tag: string)
  {
    && "TC-" <= s
    && var parts := Pieces(s[3..], "::");
    && 2 <= |parts| <= 3 && (forall i :: 0 <= i < |parts| ==> !IsBlank(parts[i]))
    && exists file :: MeansFile(parts[0], file) && tag == TagWith(file, parts)
  }

  function TagWith(file: string, parts: seq<string>): string
    requires 2 <= |parts| <= 3
  {
    "TC-" + file + "::" + Strip(parts[1]) + if |parts| == 3 then "::" + Strip(parts[2]) else ""
  }

  lemma UnwrappedIff(value: string, s: string)
    ensures Unwrapped(value, s) <==> s == WithoutBrackets(Strip(value))
  {
    hide Strip;
    var t := Strip(value);
    forall inner | t == "<" + inner + ">" ensures |t| >= 2 && t[0] == '<' && t[|t| - 1] == '>' && t[1..|t| - 1] == inner {}
    assert |t| >= 2 && t[0] == '<' && t[|t| - 1] == '>' ==> t == "<" + t[1..|t| - 1] + ">";
  }

  lemma FileMeant(text: string, file: string)
    ensures MeansFile(text, file) <==> NormPath(Slashes(text)) == file && FilePath(file)
  {
    hide NormPath, FilePath, PlainFile, LeadsTo;
    PathIff(Slashes(text), file);
    forall path | Slashed(text, path) ensures path == Slashes(text) {}
    assert Slashed(text, Slashes(text));
  }

  lemma TagJoined(file: string, parts: seq<string>)
    requires 2 <= |parts| <= 3
    ensures TagWith(file, parts) == "TC-" + JoinBy([file] + Map(parts[1..], Strip), "::")
  {
    hide Strip;
    var names := [file] + Map(parts[1..], Strip);
    assert names == if |parts| == 2 then [file, Strip(parts[1])] else [file] + [Strip(parts[1]), Strip(parts[2])];
    if |parts| == 3 { JoinThree(file, Strip(parts[1]), Strip(parts[2])); } else { assert names[1..] == [Strip(parts[1])]; }
  }

  lemma TagMeant(value: string, tag: string)
    ensures MeansTag(WithoutBrackets(Strip(value)), tag) <==> NormalizeTestCaseTag(value) == Some(tag)
  {
    hide Strip, IsBlank, WithoutBrackets, Pieces, NormPath, Slashes, FilePath, MeansFile, TagWith, JoinBy;
    var s := WithoutBrackets(Strip(value));
    if "TC-" <= s {
      var parts := Pieces(s[3..], "::");
      var path := NormPath(Slashes(parts[0]));
      forall file ensures MeansFile(parts[0], file) <==> path == file && FilePath(file) { FileMeant(parts[0], file); }
      assert (exists i :: 0 <= i < |parts| && IsBlank(parts[i])) <==> !forall i :: 0 <= i < |parts| ==> !IsBlank(parts[i]);
      if 2 <= |parts| <= 3 { TagJoined(path, parts); }
    }
  }

  /** Exactly which texts have a normal form, and which. */
  lemma NormalizeIff(value: string, tag: string)
    ensures NormalizeTestCaseTag(value) == Some(tag) <==> exists s :: Unwrapped(value, s) && MeansTag(s, tag)
  {
    hide Strip, WithoutBrackets, NormalizeTestCaseTag, Unwrapped, MeansTag;
    TagMeant(value, tag);
    forall s ensures Unwrapped(value, s) <==> s == WithoutBrackets(Strip(value)) { UnwrappedIff(value, s); }
  }

  // ---------------------------------------------------------------- normalising twice

  /** No two colons in a row. */
  predicate NoPair(x: string)
  {
    forall i :: 0 <= i < |x| - 1 ==> x[i] != ':' || x[i + 1] != ':'
  }

  lemma NoPairInside(a: string, b: string, c: string)
    requires NoPair(a + b + c)
    ensures NoPair(b)
  {
    var s := a + b + c;
    forall i | 0 <= i < |b| - 1 ensures b[i] != ':' || b[i + 1] != ':' {
      assert s[|a| + i] == b[i] && s[|a| + i + 1] == b[i + 1];
    }
  }

  lemma {:induction false} PiecesApart(s: string)
    ensures forall x :: x in Pieces(s, "::") ==> NoPair(x)
    decreases |s|
  {
    hide NoPair;
    var i := Find(s, "::");
    if i == -1 {
      NoPairUntil(s, |s|);
      assert s[..|s|] == s;
    } else {
      NoPairUntil(s, i);
      PiecesApart(s[i + 2..]);
    }
  }

  lemma NoPairUntil(s: string, i: nat)
    requires i <= |s| && forall k :: 0 <= k < i ==> !OccursAt(s, "::", k)
    ensures NoPair(s[..i])
  {
    forall k | 0 <= k < i - 1 ensures s[k] != ':' || s[k + 1] != ':' {
      assert s[k..k + 2] == [s[k], s[k + 1]];
      assert !OccursAt(s, "::", k);
    }
  }

  lemma StripApart(x: string)
    requires NoPair(x)
    ensures NoPair(Strip(x))
  {
    LStripFacts(x);
    RStripFacts(LStrip(x));
    hide LStrip, RStrip;
    var t := LStrip(x);
    var n := |x| - |t|;
    assert x == x[..n] + RStrip(t) + t[|RStrip(t)|..];
    NoPairInside(x[..n], RStrip(t), t[|RStrip(t)|..]);
  }

  lemma {:induction false} SplitInherits(s: string, c: char)
    requires NoPair(s)
    ensures forall x :: x in SplitOn(s, c) ==> NoPair(x) && forall d :: d in x ==> d in s
    decreases |s|
  {
    hide NoPair, IndexOf;
    var i := IndexOf(s, c);
    if i != -1 {
      assert s == s[..i] + s[i..] && s == s[..i + 1] + s[i + 1..];
      assert s == "" + s[..i] + s[i..] && s == s[..i + 1] + s[i + 1..] + "";
      NoPairInside("", s[..i], s[i..]);
      NoPairInside(s[..i + 1], s[i + 1..], "");
      SplitInherits(s[i + 1..], c);
    }
  }

  lemma {:induction false} JoinInherits(names: seq<string>, c: char)
    requires c != ':' && forall i :: 0 <= i < |names| ==> NoPair(names[i])
    ensures NoPair(JoinWith(names, c))
    ensures forall d :: d in JoinWith(names, c) ==> d == c || exists i :: 0 <= i < |names| && d in names[i]
    decreases |names|
  {
    if |names| > 1 {
      var rest := JoinWith(names[1..], c);
      JoinInherits(names[1..], c);
      BothApart(names[0], c, rest);
    }
  }

  lemma BothApart(a: string, c: char, b: string)
    requires NoPair(a) && NoPair(b) && c != ':'
    ensures NoPair(a + [c] + b)
  {
  }

  lemma {:induction false} PlainStays(names: seq<string>)
    requires AllPlain(names)
    ensures Components(names, false) == names
    decreases |names|
  {
    if names != [] {
      var rest := names[..|names| - 1];
      PlainStays(rest);
      assert names == rest + [names[|names| - 1]];
    }
  }

  predicate Tame(x: string)
  {
    NoPair(x) && '\\' !in x
  }

  lemma PartsAreTame(path: string, names: seq<string>)
    requires Tame(path) && LeadsTo(path, names)
    ensures forall i :: 0 <= i < |names| ==> Tame(names[i])
  {
    hide Components, SplitOn, NoPair, Place;
    var parts := SplitOn(path, '/');
    LeadsIff(path, names);
    KeptAreParts(parts, false);
    SplitInherits(path, '/');
    hide LeadsTo;
    forall i | 0 <= i < |names| ensures Tame(names[i]) { assert names[i] in parts; }
  }

  /** The path of a normal form is what a file path in normal form looks like: normalising it again changes nothing, and it
      does not disturb the splitting at `::`. */
  lemma FileStays(text: string, file: string)
    requires NoPair(text) && NormPath(Slashes(text)) == file && FilePath(file)
    ensures NormPath(Slashes(file)) == file && NoColonPair(file) && !IsBlank(file)
  {
    hide NormPath, Slashes, FilePath, LeadsTo, AllPlain, IsBlank, JoinWith;
    var path := Slashes(text);
    SlashedIsTame(text);
    PathIff(path, file);
    var names :| PlainFile(names, file) && LeadsTo(path, names);
    PartsAreTame(path, names);
    JoinIsTame(names);
    PlainLeads(names, file);
    SlashesFacts(file);
    PathIff(file, file);
    PyIsNotBlank(file);
    ApartFromDots(file);
  }

  lemma SlashedIsTame(text: string)
    requires NoPair(text)
    ensures Tame(Slashes(text))
  {
  }

  lemma JoinIsTame(names: seq<string>)
    requires forall i :: 0 <= i < |names| ==> Tame(names[i])
    ensures Tame(JoinWith(names, '/'))
  {
    hide NoPair, JoinWith;
    JoinInherits(names, '/');
  }

  lemma ApartFromDots(file: string)
    requires NoPair(file) && file != "" && file[|file| - 1] != ':'
    ensures NoColonPair(file)
  {
  }

  lemma PlainLeads(names: seq<string>, file: string)
    requires PlainFile(names, file)
    ensures LeadsTo(file, names)
  {
    assert Plain(names[0]);
    UpsIs(names, 0);
    PlainHead(names);
    SplitOfJoin(names, '/');
    PlainStays(names);
    hide JoinWith, SplitOn, Components, LeadsTo;
    LeadsIff(file, names);
  }

  lemma PyIsNotBlank(file: string)
    requires |file| >= 3 && file[|file| - 3..] == ".py"
    ensures !IsBlank(file) && file[|file| - 1] == 'y'
  {
    var front := file[..|file| - 3];
    assert file == front + ".py";
    assert IsClean(".py");
    StripOfFront(front, ".py");
  }

  /** A file part of a normal form. */
  predicate NormalFile(file: string)
  {
    NormPath(Slashes(file)) == file && FilePath(file) && NoColonPair(file) && !IsBlank(file)
  }

  /** How a clean text that starts with `TC-` is normalised. */
  lemma NormalOfClean(value: string, parts: seq<string>)
    requires IsClean(value) && "TC-" <= value && Pieces(value[3..], "::") == parts
    requires NormPath(Slashes(parts[0])) == parts[0] && FilePath(parts[0])
    ensures NormalizeTestCaseTag(value) ==
            if 2 <= |parts| <= 3 && forall i :: 0 <= i < |parts| ==> !IsBlank(parts[i]) then Some(TagWith(parts[0], parts))
            else None
  {
    hide Pieces, NormPath, Slashes, Strip, FilePath, IsSpace, JoinBy, TagWith;
    CleanIsStripped(value);
    assert value[0] == 'T';
    if 2 <= |parts| <= 3 { TagJoined(parts[0], parts); }
  }

  lemma CleanTag(front: string, x: string)
    requires IsClean(x)
    ensures IsClean("TC-" + front + x) && !IsBlank(x)
  {
    var t := "TC-" + front + x;
    assert t[0] == 'T' && t[|t| - 1] == x[|x| - 1];
    CleanIsStripped(x);
  }

  /** A normal form of two parts is normal. */
  lemma TwoPartsStay(file: string, x: string)
    requires NormalFile(file) && IsClean(x) && NoPair(x)
    ensures IsNormal("TC-" + file + "::" + x)
  {
    var t := "TC-" + file + "::" + x;
    hide NormPath, Slashes, FilePath, NoColonPair, IsClean, IsBlank, Strip, NormalizeTestCaseTag;
    CleanTag("", x);
    CleanTag(file + "::", x);
    assert t == "TC-" + (file + "::") + x && t[3..] == file + "::" + x;
    FirstPiece(file, x);
    LastPieceOnly(x);
    assert [file] + [x] == [file, x];
    NormalOfClean(t, [file, x]);
    CleanIsStripped(x);
    TagText(file, [file, x]);
  }

  /** The first text ends with a colon that is split off differently when both are joined and read again. */
  predicate Breaks(x: string, y: string)
    requires x != "" && y != ""
  {
    x[|x| - 1] == ':' && (|x| == 1 || IsSpace(x[|x| - 2]) || y[0] == ':')
  }

  lemma PiecesOfThree(file: string, x: string, y: string)
    requires NormalFile(file) && x != "" && y != "" && NoPair(x) && NoPair(y)
    ensures var parts := Pieces(file + "::" + x + "::" + y, "::");
            if x[|x| - 1] != ':' then parts == [file, x, y]
            else if y[0] != ':' then parts == [file, x[..|x| - 1], ":" + y]
            else |parts| > 3 && parts[0] == file
  {
    hide NormPath, Slashes, FilePath, IsBlank, Pieces;
    assert file + "::" + x + "::" + y == file + "::" + (x + "::" + y);
    FirstPiece(file, x + "::" + y);
    if x[|x| - 1] != ':' {
      FirstPiece(x, y);
      LastPieceOnly(y);
    } else {
      var q := x[..|x| - 1];
      assert x + "::" + y == q + "::" + (":" + y);
      FirstPiece(q, ":" + y);
      if y[0] != ':' {
        LastPieceOnly(":" + y);
      } else {
        assert ":" + y == "" + "::" + y[1..];
        FirstPiece("", y[1..]);
      }
    }
  }

  lemma ThreePartsStayIff(file: string, x: string, y: string)
    requires NormalFile(file) && IsClean(x) && IsClean(y) && NoPair(x) && NoPair(y)
    ensures IsNormal("TC-" + file + "::" + x + "::" + y) <==> !Breaks(x, y)
  {
    var t := "TC-" + file + "::" + x + "::" + y;
    hide NormPath, Slashes, FilePath, NoColonPair, Pieces, NormalizeTestCaseTag, Strip, IsSpace, NoPair;
    CleanTag(file + "::" + x + "::", y);
    CleanTag("", x);
    assert t == "TC-" + (file + "::" + x + "::") + y && t[3..] == file + "::" + x + "::" + y;
    PiecesOfThree(file, x, y);
    NormalOfClean(t, Pieces(t[3..], "::"));
    if x[|x| - 1] == ':' {
      if y[0] != ':' { SplitAnew(file, x, y); }
    } else {
      CleanIsStripped(x);
      CleanIsStripped(y);
      TagText(file, [file, x, y]);
    }
  }

  /** The colon at the end of the second part moves to the third one. */
  lemma SplitAnew(file: string, x: string, y: string)
    requires IsClean(x) && IsClean(y) && x[|x| - 1] == ':' && y[0] != ':'
    ensures var q := x[..|x| - 1];
            && (IsBlank(q) <==> |x| == 1) && !IsBlank(":" + y)
            && (!IsBlank(q) ==> (TagWith(file, [file, q, ":" + y]) == "TC-" + file + "::" + x + "::" + y <==> !IsSpace(x[|x| - 2])))
  {
    hide Strip;
    var q := x[..|x| - 1];
    CleanIsStripped(":" + y);
    BlankIsBlank();
    if |x| > 1 {
      StripOfHead(q);
      assert "TC-" + file + "::" + x + "::" + y == ("TC-" + file + "::") + q + ("::" + (":" + y));
      assert TagWith(file, [file, q, ":" + y]) == ("TC-" + file + "::") + Strip(q) + ("::" + (":" + y));
      Middle("TC-" + file + "::", q, Strip(q), "::" + (":" + y));
    }
  }

  lemma Middle(a: string, b: string, c: string, d: string)
    ensures a + b + d == a + c + d <==> b == c
  {
    if a + b + d == a + c + d {
      assert |b| == |c|;
      assert b == (a + b + d)[|a|..|a| + |b|] && c == (a + c + d)[|a|..|a| + |c|];
    }
  }

  lemma StripOfHead(q: string)
    requires q != "" && !IsSpace(q[0])
    ensures !IsBlank(q) && (Strip(q) == q <==> !IsSpace(q[|q| - 1]))
  {
    assert LStrip(q) == q;
    StripIsClean(q);
    NotBlankHead(q);
    if !IsSpace(q[|q| - 1]) { CleanIsStripped(q); }
  }

  lemma {:induction false} NotBlankHead(q: string)
    requires q != "" && !IsSpace(q[0])
    ensures RStrip(q) != ""
    decreases |q|
  {
    if IsSpace(q[|q| - 1]) { NotBlankHead(q[..|q| - 1]); }
  }

  /** Exactly when a normal form is not normal: it has a class part, which ends with a colon, and that is all of it, or
      white space stands before it, or the function part starts with a colon. */
  lemma NormalizingTwiceIff(value: string)
    requires NormalizeTestCaseTag(value).Some?
    ensures var parts := Pieces(WithoutBrackets(Strip(value))[3..], "::");
            && 2 <= |parts| <= 3 && (forall i :: 1 <= i < |parts| ==> Strip(parts[i]) != "")
            && (IsNormal(NormalizeTestCaseTag(value).value) <==>
                  |parts| == 3 ==> !Breaks(Strip(parts[1]), Strip(parts[2])))
  {
    hide Strip, WithoutBrackets, Pieces, NormPath, Slashes, FilePath, TagWith, JoinBy, IsNormal, IsBlank;
    var s := WithoutBrackets(Strip(value));
    var parts := Pieces(s[3..], "::");
    PiecesApart(s[3..]);
    var file := NormPath(Slashes(parts[0]));
    FileStays(parts[0], file);
    TagJoined(file, parts);
    forall i | 1 <= i < |parts| ensures IsClean(Strip(parts[i])) && NoPair(Strip(parts[i])) { PartIsClean(parts[i]); }
    hide NormalizeTestCaseTag;
    TagText(file, parts);
    if |parts| == 2 { TwoPartsStay(file, Strip(parts[1])); } else { ThreePartsStayIff(file, Strip(parts[1]), Strip(parts[2])); }
  }

  lemma TagText(file: string, parts: seq<string>)
    requires 2 <= |parts| <= 3
    ensures TagWith(file, parts) == if |parts| == 2 then "TC-" + file + "::" + Strip(parts[1])
                                    else "TC-" + file + "::" + Strip(parts[1]) + "::" + Strip(parts[2])
  {
  }

  lemma PartIsClean(part: string)
    requires !IsBlank(part) && NoPair(part)
    ensures IsClean(Strip(part)) && NoPair(Strip(part))
  {
    StripIsClean(part);
    StripApart(part);
  }
}
