/** Exactly which texts are read as a source location (ucagent/checkers/static_bug.py) and as a Bug label
    (ucagent/checkers/toffee_report.py). */
module LocationRules {
  import opened Text
  import opened LineRanges
  import opened TaskTokens
  import opened Locations

  // ---------------------------------------------------------------- locations

  ghost predicate Number(digits: string, n: int)
  {
    digits != "" && AllDigits(digits) && DigitsValue(digits) == n
  }

  ghost predicate TwoNumbers(item: string, s: Span, a: string, b: string)
  {
    item == a + ['-'] + b && Number(a, s.0) && Number(b, s.1)
  }

  /** `N` or `N-M`, with 1 <= N <= M. */
  ghost predicate ItemReads(item: string, s: Span)
  {
    && s.0 >= 1
    && ((s.0 == s.1 && Number(item, s.0))
        || exists a, b :: TwoNumbers(item, s, a, b))
  }

  /** The path ends at a colon behind which there are only items and commas. */
  ghost predicate Locates(l: Location, items: seq<string>)
  {
    && l.path != "" && '\n' !in l.path && items != [] && |items| == |l.ranges|
    && (forall k :: 0 <= k < |items| ==> ItemReads(items[k], l.ranges[k]))
    && l.text == l.path + [':'] + JoinWith(items, ',')
  }

  lemma ItemIff(item: string, s: Span)
    ensures ParseItem(item) == Some(s) <==> ItemReads(item, s)
  {
    hide DigitsValue, AllDigits;
    var dash := IndexOf(item, '-');
    if dash == -1 {
      forall a, b ensures !TwoNumbers(item, s, a, b) { HasDash(a, b); }
    } else {
      if AllDigits(item) { NoDash(item); }
      AroundOne(item, dash);
      assert item == item[..dash] + ['-'] + item[dash + 1..];
      assert s.0 >= 1 && TwoNumbers(item, s, item[..dash], item[dash + 1..]) <==> ParseItem(item) == Some(s);
      forall a, b | TwoNumbers(item, s, a, b) ensures a == item[..dash] && b == item[dash + 1..] {
        NoDash(a);
        FirstCut(a, '-', b);
      }
    }
  }

  lemma HasDash(a: string, b: string)
    ensures '-' in a + ['-'] + b
  {
    assert (a + ['-'] + b)[|a|] == '-';
  }

  lemma NoDash(a: string)
    requires AllDigits(a)
    ensures '-' !in a
  {
  }

  lemma NoSeparatorInItem(item: string, s: Span)
    requires ItemReads(item, s)
    ensures ':' !in item && ',' !in item
  {
    if a, b :| TwoNumbers(item, s, a, b) {
      forall k | 0 <= k < |item| ensures IsDigit(item[k]) || item[k] == '-' {}
    }
  }

  lemma ItemsIff(items: seq<string>, spans: seq<Span>)
    ensures ParseItems(items) == Some(spans) <==>
            |items| == |spans| && forall k :: 0 <= k < |items| ==> ItemReads(items[k], spans[k])
  {
    hide ParseItem, ItemReads, ParseItems;
    var parsed := ParseItems(items);
    forall k | 0 <= k < |items| && k < |spans| ensures ParseItem(items[k]) == Some(spans[k]) <==> ItemReads(items[k], spans[k]) {
      ItemIff(items[k], spans[k]);
    }
    if |items| == |spans| && forall k :: 0 <= k < |items| ==> ItemReads(items[k], spans[k]) {
      assert forall k :: 0 <= k < |items| ==> ParseItem(items[k]).Some?;
      assert parsed.value == spans;
    }
  }

  /** Exactly which texts are locations, and which: a path up to the last colon, with colons of its own perhaps, and ranges
      behind it. */
  lemma LocationIff(location: string, l: Location)
    ensures ParseLocation(location) == Some(l) <==> l.text == Strip(location) && exists items :: Locates(l, items)
  {
    hide ParseItems, ItemReads, Strip, LastIndexOf, SplitOn, JoinWith;
    var raw := Strip(location);
    var colon := LastIndexOf(raw, ':');
    if colon >= 1 {
      var items := SplitOn(raw[colon + 1..], ',');
      ItemsIff(items, l.ranges);
      JoinOfSplit(raw[colon + 1..], ',');
      AroundOne(raw, colon);
      assert raw == raw[..colon] + [':'] + JoinWith(items, ',');
      assert ParseLocation(location) == Some(l) ==> Locates(l, items);
    }
    forall items | l.text == raw && Locates(l, items)
      ensures colon == |l.path| && l.path == raw[..colon] && items == SplitOn(raw[colon + 1..], ',') {
      LocatesOnce(l, items);
    }
  }

  lemma LocatesOnce(l: Location, items: seq<string>)
    requires Locates(l, items)
    ensures LastIndexOf(l.text, ':') == |l.path| && l.path == l.text[..|l.path|]
    ensures items == SplitOn(l.text[|l.path| + 1..], ',')
  {
    hide ItemReads, LastIndexOf, SplitOn, JoinWith;
    forall k | 0 <= k < |items| ensures ':' !in items[k] && ',' !in items[k] { NoSeparatorInItem(items[k], l.ranges[k]); }
    JoinHasNo(items, ',', ':');
    LastCut(l.path, ':', JoinWith(items, ','));
    Around(l.path, ':', JoinWith(items, ','));
    SplitOfJoin(items, ',');
  }

  lemma {:induction false} JoinHasNo(pieces: seq<string>, c: char, d: char)
    requires c != d && forall i :: 0 <= i < |pieces| ==> d !in pieces[i]
    ensures d !in JoinWith(pieces, c)
    decreases |pieces|
  {
    if |pieces| > 1 { JoinHasNo(pieces[1..], c, d); }
  }

  // ---------------------------------------------------------------- labels

  predicate OnlyAngles(s: string)
  {
    forall i :: 0 <= i < |s| ==> IsAngle(s[i])
  }

  /** `BG-name-cc` in any angle brackets. */
  ghost predicate Labelled(text: string, name: string, confidence: real, front: string, digits: string, back: string)
  {
    && OnlyAngles(front) && OnlyAngles(back) && text == front + ("BG-" + name + "-" + digits) + back
    && !IsBlank(name) && '\n' !in name
    && 1 <= |digits| <= 3 && AllDigits(digits) && DigitsValue(digits) <= 100
    && confidence == DigitsValue(digits) as real / 100.0
  }

  lemma {:induction false} AnglesAround(s: string) returns (front: string, back: string)
    ensures OnlyAngles(front) && OnlyAngles(back) && s == front + StripAngles(s) + back
    decreases |s|
  {
    if s != "" && IsAngle(s[0]) {
      front, back := AnglesAround(s[1..]);
      assert s == [s[0]] + s[1..];
      front := [s[0]] + front;
    } else if s != "" && IsAngle(s[|s| - 1]) {
      front, back := AnglesAround(s[..|s| - 1]);
      assert s == s[..|s| - 1] + [s[|s| - 1]];
      back := back + [s[|s| - 1]];
    } else {
      front, back := "", "";
    }
  }

  lemma {:induction false} AnglesGo(front: string, core: string, back: string)
    requires OnlyAngles(front) && OnlyAngles(back)
    requires core != "" && !IsAngle(core[0]) && !IsAngle(core[|core| - 1])
    ensures StripAngles(front + core + back) == core
    decreases |front| + |back|
  {
    var s := front + core + back;
    if front != "" {
      assert s[1..] == front[1..] + core + back;
      AnglesGo(front[1..], core, back);
    } else if back != "" {
      assert s[0] == core[0];
      assert s[..|s| - 1] == front + core + back[..|back| - 1];
      AnglesGo(front, core, back[..|back| - 1]);
    } else {
      assert s == core;
    }
  }

  lemma LabelCore(name: string, digits: string)
    requires digits != "" && AllDigits(digits)
    ensures var core := "BG-" + name + "-" + digits;
            && !IsAngle(core[0]) && !IsAngle(core[|core| - 1]) && "BG-" <= core
            && LastIndexOf(core, '-') == 3 + |name| && core[3..3 + |name|] == name && core[4 + |name|..] == digits
  {
    hide LastIndexOf;
    var core := "BG-" + name + "-" + digits;
    assert core[|core| - 1] == digits[|digits| - 1] && core[0] == 'B';
    assert core == ("BG-" + name) + ['-'] + digits;
    NoDash(digits);
    LastCut("BG-" + name, '-', digits);
  }

  /** Exactly which texts are labels of a Bug, and which. */
  lemma LabelIff(bug: string, name: string, confidence: real)
    ensures ParseBugLabel(bug) == Some((name, confidence)) <==>
            exists front, digits, back :: Labelled(Strip(bug), name, confidence, front, digits, back)
  {
    hide Strip, IsBlank, DigitsValue, AllDigits, LastIndexOf, StripAngles, OnlyAngles, IsAngle;
    var raw := StripAngles(Strip(bug));
    if ParseBugLabel(bug) == Some((name, confidence)) {
      var dash := LastIndexOf(raw, '-');
      var front, back := AnglesAround(Strip(bug));
      var digits := raw[dash + 1..];
      assert raw[..3] == "BG-";
      assert raw == "BG-" + name + "-" + digits;
      assert Labelled(Strip(bug), name, confidence, front, digits, back);
    }
    forall front, digits, back | Labelled(Strip(bug), name, confidence, front, digits, back)
      ensures ParseBugLabel(bug) == Some((name, confidence)) {
      LabelCore(name, digits);
      AnglesGo(front, "BG-" + name + "-" + digits, back);
      NotBlankName(name);
    }
  }

  lemma NotBlankName(name: string)
    requires !IsBlank(name)
    ensures name != ""
  {
  }
}
