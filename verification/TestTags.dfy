/** The canonical form of a test-case tag: `normalize_test_case_tag` of ucagent/util/bug_analysis_contract.py. */
module TestTags {
  import opened Text
  import opened Lists

  // ---------------------------------------------------------------- the path

  function Slashes(path: string): string
  {
    Map(path, (c: char) => if c == '\\' then '/' else c)
  }

  /** One more component of a path: empty ones and dots are dropped, `..` takes back the last one where it can. */
  function WithComponent(kept: seq<string>, c: string, absolute: bool): seq<string>
  {
    if c == "" || c == "." then kept
    else if c != ".." || (!absolute && kept == []) || (kept != [] && kept[|kept| - 1] == "..") then kept + [c]
    else if kept != [] then kept[..|kept| - 1]
    else kept
  }

  function Components(parts: seq<string>, absolute: bool): seq<string>
  {
    if parts == [] then []
    else WithComponent(Components(parts[..|parts| - 1], absolute), parts[|parts| - 1], absolute)
  }

  /** `posixpath.normpath`. */
  function NormPath(path: string): string
  {
    if path == "" then "."
    else
      var root := if path[0] != '/' then "" else if "//" <= path && !("///" <= path) then "//" else "/";
      var text := root + JoinWith(Components(SplitOn(path, '/'), root != ""), '/');
      if text == "" then "." else text
  }

  /** A workspace-relative Python file. */
  predicate FilePath(path: string)
  {
    && path != "" && path != "." && path != ".." && !("../" <= path) && !("/" <= path)
    && |path| >= 3 && path[|path| - 3..] == ".py"
  }

  // ---------------------------------------------------------------- the tag

  function WithoutBrackets(s: string): string
  {
    if |s| >= 2 && s[0] == '<' && s[|s| - 1] == '>' then Strip(s[1..|s| - 1]) else s
  }

  /** `normalize_test_case_tag`; None stands for the ValueError. */
  function NormalizeTestCaseTag(value: string): Option<string>
  {
    var s := WithoutBrackets(Strip(value));
    if !("TC-" <= s) then None
    else
      var parts := Pieces(s[3..], "::");
      if !(2 <= |parts| <= 3) || exists i :: 0 <= i < |parts| && IsBlank(parts[i]) then None
      else
        var path := NormPath(Slashes(parts[0]));
        if !FilePath(path) then None else Some("TC-" + JoinBy([path] + Map(parts[1..], Strip), "::"))
  }

  // ---------------------------------------------------------------- normalising goes downwards

  /** `t` is shorter, or as long with fewer backslashes. */
  ghost predicate Below(t: string, s: string)
  {
    |t| < |s| || (|t| == |s| && multiset(t)['\\'] < multiset(s)['\\'])
  }

  function Weight(parts: seq<string>): nat
  {
    if parts == [] then 0 else Weight(parts[..|parts| - 1]) + |parts[|parts| - 1]| + 1
  }

  lemma WeightSnoc(parts: seq<string>, c: string)
    ensures Weight(parts + [c]) == Weight(parts) + |c| + 1
  {
    assert (parts + [c])[..|parts|] == parts;
  }

  lemma {:induction false} WeightOfBoth(a: seq<string>, b: seq<string>)
    ensures Weight(a + b) == Weight(a) + Weight(b)
    decreases |b|
  {
    if b == [] {
      assert a + b == a;
    } else {
      var rest, last := b[..|b| - 1], b[|b| - 1];
      assert a + b == (a + rest) + [last] && b == rest + [last];
      WeightOfBoth(a, rest);
      WeightSnoc(a + rest, last);
      WeightSnoc(rest, last);
    }
  }

  lemma {:induction false} JoinedLength(parts: seq<string>, c: char)
    requires parts != []
    ensures |JoinWith(parts, c)| == Weight(parts) - 1
    decreases |parts|
  {
    if |parts| > 1 {
      JoinedLength(parts[1..], c);
      assert parts == [parts[0]] + parts[1..];
      WeightOfBoth([parts[0]], parts[1..]);
    }
    WeightSnoc([], parts[0]);
    assert [] + [parts[0]] == [parts[0]];
  }

  lemma OneComponentLess(kept: seq<string>, parts: seq<string>, c: string, absolute: bool)
    requires Weight(kept) <= Weight(parts) && (Weight(kept) == Weight(parts) ==> kept == parts)
    ensures var next := WithComponent(kept, c, absolute);
            Weight(next) <= Weight(parts + [c]) && (Weight(next) == Weight(parts + [c]) ==> next == parts + [c])
  {
    WeightSnoc(parts, c);
    WeightSnoc(kept, c);
    if kept != [] {
      WeightSnoc(kept[..|kept| - 1], kept[|kept| - 1]);
      assert kept[..|kept| - 1] + [kept[|kept| - 1]] == kept;
    }
    hide Weight;
  }

  /** Dropping components makes the path shorter. */
  lemma {:induction false} FewerComponents(parts: seq<string>, absolute: bool)
    ensures var kept := Components(parts, absolute);
            Weight(kept) <= Weight(parts) && (Weight(kept) == Weight(parts) ==> kept == parts)
    decreases |parts|
  {
    hide Weight, WithComponent;
    if parts != [] {
      var rest, c := parts[..|parts| - 1], parts[|parts| - 1];
      FewerComponents(rest, absolute);
      assert parts == rest + [c];
      OneComponentLess(Components(rest, absolute), rest, c, absolute);
    }
  }

  lemma NormPathShortens(path: string)
    requires path != "" && NormPath(path) != "." && !("/" <= NormPath(path))
    ensures |NormPath(path)| <= |path| && (|NormPath(path)| == |path| ==> NormPath(path) == path)
  {
    hide JoinWith, SplitOn, Components, Weight;
    var parts := SplitOn(path, '/');
    var kept := Components(parts, false);
    JoinOfSplit(path, '/');
    JoinedLength(parts, '/');
    FewerComponents(parts, false);
    if kept != [] { JoinedLength(kept, '/'); }
    NothingJoined();
  }

  lemma NothingJoined()
    ensures JoinWith([], '/') == ""
  {
  }

  lemma SlashesFacts(path: string)
    ensures |Slashes(path)| == |path| && '\\' !in Slashes(path)
    ensures '\\' !in path ==> Slashes(path) == path
  {
  }

  lemma NoBackslashLeft(path: string)
    requires NormPath(Slashes(path)) == Slashes(path)
    ensures multiset(NormPath(Slashes(path)))['\\'] == 0
    ensures multiset(path)['\\'] == 0 ==> NormPath(Slashes(path)) == path
  {
    hide NormPath;
    SlashesFacts(path);
    hide Slashes;
    assert '\\' !in multiset(Slashes(path));
    assert multiset(path)['\\'] == 0 ==> '\\' !in multiset(path);
  }

  /** One normalised part: no longer than before, and of the same length only if it is what it was, but for backslashes
      in a path. */
  ghost predicate Shortened(x: string, y: string)
  {
    |y| <= |x| && (|y| == |x| ==> multiset(y)['\\'] <= multiset(x)['\\']
                                  && (multiset(y)['\\'] == multiset(x)['\\'] ==> y == x))
  }

  lemma PathShortened(part: string)
    requires part != "" && FilePath(NormPath(Slashes(part)))
    ensures Shortened(part, NormPath(Slashes(part)))
  {
    SlashesFacts(part);
    NormPathShortens(Slashes(part));
    if |NormPath(Slashes(part))| == |part| { NoBackslashLeft(part); }
  }

  lemma TextShortened(part: string)
    ensures Shortened(part, Strip(part))
  {
    StripShortens(part);
    hide Strip;
  }

  lemma {:induction false} JoinShortened(a: seq<string>, b: seq<string>, sep: string)
    requires |a| == |b| && forall i :: 0 <= i < |a| ==> Shortened(a[i], b[i])
    ensures Shortened(JoinBy(a, sep), JoinBy(b, sep))
    decreases |a|
  {
    if |a| > 1 {
      JoinShortened(a[1..], b[1..], sep);
      BothShortened(a[0] + sep, b[0] + sep, JoinBy(a[1..], sep), JoinBy(b[1..], sep));
    }
  }

  lemma BothShortened(a: string, b: string, c: string, d: string)
    requires Shortened(a, b) && Shortened(c, d)
    ensures Shortened(a + c, b + d)
  {
  }

  lemma SameAhead(front: string, x: string, y: string)
    requires Shortened(x, y)
    ensures Shortened(front + x, front + y) && Shortened(x + front, y + front)
  {
  }

  lemma PartsShortened(parts: seq<string>)
    requires parts != [] && parts[0] != "" && FilePath(NormPath(Slashes(parts[0])))
    ensures Shortened(JoinBy(parts, "::"), JoinBy([NormPath(Slashes(parts[0]))] + Map(parts[1..], Strip), "::"))
  {
    hide NormPath, Slashes, Strip, JoinBy, Shortened;
    var made := [NormPath(Slashes(parts[0]))] + Map(parts[1..], Strip);
    PathShortened(parts[0]);
    forall i | 0 <= i < |parts| ensures Shortened(parts[i], made[i]) {
      if i > 0 { TextShortened(parts[i]); }
    }
    JoinShortened(parts, made, "::");
  }

  lemma BracketsShorten(s: string)
    ensures |WithoutBrackets(s)| < |s| || WithoutBrackets(s) == s
  {
    if |s| >= 2 { StripShortens(s[1..|s| - 1]); }
    hide Strip;
  }

  lemma BlankIsBlank()
    ensures IsBlank("")
  {
  }

  /** Normalising a tag leaves it alone or goes downwards: no tag comes back to itself through a different one. */
  lemma NormalizingDescends(value: string)
    requires NormalizeTestCaseTag(value).Some?
    ensures NormalizeTestCaseTag(value).value == value || Below(NormalizeTestCaseTag(value).value, value)
  {
    hide Strip, Pieces, NormPath, Slashes, JoinBy, WithoutBrackets, FilePath;
    var s := WithoutBrackets(Strip(value));
    var parts := Pieces(s[3..], "::");
    var t := NormalizeTestCaseTag(value).value;
    StripShortens(value);
    BracketsShorten(Strip(value));
    BlankIsBlank();
    JoinOfPieces(s[3..], "::");
    PartsShortened(parts);
    SameAhead("TC-", JoinBy(parts, "::"), t[3..]);
    assert s == "TC-" + s[3..] && t == "TC-" + t[3..];
    assert Shortened(s, t);
  }

  lemma BelowIsTransitive(a: string, b: string, c: string)
    requires Below(a, b) && Below(b, c)
    ensures Below(a, c)
  {
  }

  lemma NotBelowItself(s: string)
    ensures !Below(s, s)
  {
  }

  /** A tag of a finite set that is not below any other. */
  lemma {:induction false} Highest(tags: set<string>) returns (m: string)
    requires tags != {}
    ensures m in tags && forall x :: x in tags ==> !Below(m, x)
    decreases |tags|
  {
    hide Below;
    var p :| p in tags;
    NotBelowItself(p);
    var rest := tags - {p};
    assert forall x :: x in tags <==> x == p || x in rest;
    if rest == {} {
      m := p;
    } else {
      var h := Highest(rest);
      m := if Below(h, p) then p else h;
      forall x | x in rest ensures !Below(m, x) {
        if Below(h, p) && Below(p, x) { BelowIsTransitive(h, p, x); }
      }
    }
  }

  predicate IsNormal(tag: string)
  {
    NormalizeTestCaseTag(tag) == Some(tag)
  }

  /** The tag is the normal form of one of the set. */
  ghost predicate ComesFrom(tags: set<string>, tag: string)
  {
    exists y :: y in tags && NormalizeTestCaseTag(y) == Some(tag)
  }

  lemma HighestIsNormal(tags: set<string>, m: string)
    requires ComesFrom(tags, m) && forall x :: x in tags ==> !Below(m, x)
    ensures IsNormal(m)
  {
    hide Below, NormalizeTestCaseTag;
    var y :| y in tags && NormalizeTestCaseTag(y) == Some(m);
    NormalizingDescends(y);
  }

  lemma WithoutNormal(tags: set<string>, m: string, x: string)
    requires IsNormal(m) && ComesFrom(tags, x) && x != m
    ensures ComesFrom(tags - {m}, x)
  {
    hide NormalizeTestCaseTag;
    var y :| y in tags && NormalizeTestCaseTag(y) == Some(x);
    assert y in tags - {m};
  }

  /** When every tag of a finite set is the normal form of a tag of the set, all of them are normal. */
  lemma {:induction false} PermutedIsFixed(tags: set<string>)
    requires forall x :: x in tags ==> ComesFrom(tags, x)
    ensures forall x :: x in tags ==> IsNormal(x)
    decreases |tags|
  {
    hide Below, ComesFrom, IsNormal;
    if tags != {} {
      var m := Highest(tags);
      HighestIsNormal(tags, m);
      var rest := tags - {m};
      forall x | x in rest ensures ComesFrom(rest, x) { WithoutNormal(tags, m, x); }
      PermutedIsFixed(rest);
      forall x | x in tags ensures IsNormal(x) { assert x == m || x in rest; }
    }
  }

  // ---------------------------------------------------------------- normalising twice

  /** Neither two colons in a row nor a colon at the end. */
  predicate NoColonPair(x: string)
  {
    forall i :: 0 <= i < |x| && x[i] == ':' ==> i + 1 < |x| && x[i + 1] != ':'
  }

  lemma TwoColons(s: string, i: int)
    requires OccursAt(s, "::", i)
    ensures s[i] == ':' && s[i + 1] == ':'
  {
    assert s[i..i + 2][0] == s[i] && s[i..i + 2][1] == s[i + 1];
  }

  lemma FirstPiece(x: string, rest: string)
    requires NoColonPair(x)
    ensures Pieces(x + "::" + rest, "::") == [x] + Pieces(rest, "::")
  {
    var s := x + "::" + rest;
    assert s[|x|..|x| + 2] == "::";
    assert OccursAt(s, "::", |x|);
    assert forall j :: 0 <= j < |x| ==> s[j] == x[j];
    forall i | OccursAt(s, "::", i) ensures i >= |x| { TwoColons(s, i); }
    hide Find, FindFrom, OccursAt;
    assert Find(s, "::") == |x|;
    assert s[..|x|] == x && s[|x| + 2..] == rest;
  }

  lemma LastPieceOnly(x: string)
    requires forall i :: 0 <= i < |x| - 1 ==> x[i] != ':' || x[i + 1] != ':'
    ensures Pieces(x, "::") == [x]
  {
    forall i ensures !OccursAt(x, "::", i) {
      if OccursAt(x, "::", i) { TwoColons(x, i); }
    }
    hide Find;
  }

  lemma {:induction false} NotSplit(s: string, c: char)
    requires c !in s
    ensures SplitOn(s, c) == [s]
  {
    hide IndexOf;
  }

  /** A path of one ordinary component is normal. */
  lemma OneComponent(path: string)
    requires path != "" && path != "." && path != ".." && '/' !in path && '\\' !in path
    ensures NormPath(Slashes(path)) == path
  {
    SlashesFacts(path);
    hide Slashes;
    NotSplit(path, '/');
    assert [path][..0] == [];
    assert Components([path], false) == [path];
  }

  lemma PlainFile()
    ensures NormPath(Slashes("a.py")) == "a.py" && FilePath("a.py") && !IsBlank("a.py") && NoColonPair("a.py")
  {
    hide NormPath, Slashes;
    OneComponent("a.py");
    CleanIsStripped("a.py");
    assert "a.py"[1..] == ".py";
  }

  lemma NormalOfParts(value: string, parts: seq<string>)
    requires IsClean(value) && "TC-" <= value && Pieces(value[3..], "::") == parts && 2 <= |parts| <= 3
    requires (forall i :: 0 <= i < |parts| ==> !IsBlank(parts[i])) && parts[0] == "a.py"
    ensures NormalizeTestCaseTag(value) == Some("TC-" + JoinBy(["a.py"] + Map(parts[1..], Strip), "::"))
  {
    hide Pieces, NormPath, Slashes, Strip, FilePath, IsSpace, JoinBy;
    CleanIsStripped(value);
    PlainFile();
    assert value[0] == 'T';
  }

  /** `TC-a.py::x::y`. */
  lemma ThreeParts(x: string, y: string)
    requires NoColonPair(x) && !IsBlank(x) && !IsBlank(y)
    requires forall i :: 0 <= i < |y| - 1 ==> y[i] != ':' || y[i + 1] != ':'
    requires IsClean("TC-a.py::" + x + "::" + y)
    ensures NormalizeTestCaseTag("TC-a.py::" + x + "::" + y) == Some("TC-a.py::" + Strip(x) + "::" + Strip(y))
  {
    hide Pieces, NormPath, Slashes, Strip, FilePath, NoColonPair, IsClean, NormalizeTestCaseTag;
    var value := "TC-a.py::" + x + "::" + y;
    PlainFile();
    assert value == "TC-" + ("a.py" + "::" + (x + "::" + y));
    FirstPiece("a.py", x + "::" + y);
    FirstPiece(x, y);
    LastPieceOnly(y);
    var parts := ["a.py", x, y];
    assert Pieces(value[3..], "::") == parts;
    NormalOfParts(value, parts);
    assert Map(parts[1..], Strip) == [Strip(x), Strip(y)];
    JoinThree("a.py", Strip(x), Strip(y));
    assert "TC-" + ("a.py" + "::" + Strip(x) + "::" + Strip(y)) == "TC-a.py::" + Strip(x) + "::" + Strip(y);
  }

  lemma JoinThree(a: string, b: string, c: string)
    ensures JoinBy([a] + [b, c], "::") == a + "::" + b + "::" + c
  {
    assert ([a] + [b, c])[1..] == [b, c] && [b, c][1..] == [c];
    assert JoinBy([b, c], "::") == b + "::" + c;
  }

  /** `TC-a.py::x`. */
  lemma TwoParts(x: string)
    requires IsClean(x) && forall i :: 0 <= i < |x| - 1 ==> x[i] != ':' || x[i + 1] != ':'
    ensures NormalizeTestCaseTag("TC-a.py::" + x) == Some("TC-a.py::" + x)
  {
    hide Pieces, NormPath, Slashes, FilePath, NoColonPair, IsSpace, Strip, NormalizeTestCaseTag;
    var value := "TC-a.py::" + x;
    CleanIsStripped(x);
    assert value[0] == 'T' && value[|value| - 1] == x[|x| - 1];
    assert IsClean(value) by { LetterIsClean(); }
    PlainFile();
    assert value == "TC-" + ("a.py" + "::" + x);
    FirstPiece("a.py", x);
    LastPieceOnly(x);
    var parts := ["a.py", x];
    assert Pieces(value[3..], "::") == parts;
    NormalOfParts(value, parts);
    assert Map(parts[1..], Strip) == [x];
    assert (["a.py"] + [x])[1..] == [x];
    assert JoinBy(["a.py"] + [x], "::") == "a.py" + "::" + x;
  }

  lemma LetterIsClean()
    ensures !IsSpace('T')
  {
  }

  const RAW := "TC-a.py::t[b : ::c]"
  const ONCE := "TC-a.py::t[b :::c]"
  const TWICE := "TC-a.py::t[b:::c]"

  lemma Strips()
    ensures Strip("t[b : ") == "t[b :" && Strip("t[b ") == "t[b" && Strip("c]") == "c]" && Strip(":c]") == ":c]"
    ensures Strip("t[b") == "t[b"
  {
    CleanIsStripped("t[b :");
    CleanIsStripped("t[b");
    CleanIsStripped("c]");
    CleanIsStripped(":c]");
    assert "t[b : "[..5] == "t[b :" && "t[b "[..3] == "t[b";
    assert LStrip("t[b : ") == "t[b : " && LStrip("t[b ") == "t[b ";
  }

  /** Normalising is not idempotent: each part is stripped, and joining them again can move the split. */
  lemma NotIdempotent()
    ensures NormalizeTestCaseTag(RAW) == Some(ONCE)
    ensures NormalizeTestCaseTag(ONCE) == Some(TWICE)
    ensures NormalizeTestCaseTag(TWICE) == Some(TWICE)
    ensures ONCE != RAW && TWICE != ONCE
  {
    hide Strip, NormalizeTestCaseTag;
    Strips();
    assert RAW == "TC-a.py::" + "t[b : " + "::" + "c]";
    ThreeParts("t[b : ", "c]");
    assert ONCE == "TC-a.py::" + "t[b :" + "::" + "c]";
    assert ONCE == "TC-a.py::" + "t[b " + "::" + ":c]";
    ThreeParts("t[b ", ":c]");
    assert TWICE == "TC-a.py::" + "t[b" + "::" + ":c]";
    ThreeParts("t[b", ":c]");
    assert |RAW| == 19 && |ONCE| == 18 && |TWICE| == 17;
  }
}
