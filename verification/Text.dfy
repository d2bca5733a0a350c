/** Character-level text operations with the behaviour of the Python `str` methods the
    checkers use: `strip`, one-shot splitting, decimal numbers and code-point ordering. */
module Text {

  datatype Option<+T> = None | Some(value: T)

  /** The characters for which Python's `str.isspace` holds. */
  predicate IsSpace(c: char)
  {
    || '\U{9}' <= c <= '\U{D}'
    || '\U{1C}' <= c <= ' '
    || c == '\U{85}' || c == '\U{A0}' || c == '\U{1680}'
    || '\U{2000}' <= c <= '\U{200A}'
    || c == '\U{2028}' || c == '\U{2029}' || c == '\U{202F}' || c == '\U{205F}' || c == '\U{3000}'
  }

  function LStrip(s: string): string
  {
    if s != "" && IsSpace(s[0]) then LStrip(s[1..]) else s
  }

  function RStrip(s: string): string
  {
    if s != "" && IsSpace(s[|s| - 1]) then RStrip(s[..|s| - 1]) else s
  }

  function Strip(s: string): string
  {
    RStrip(LStrip(s))
  }

  predicate IsBlank(s: string)
  {
    Strip(s) == ""
  }

  /** `s` is exactly what `strip` keeps, and not empty. */
  predicate IsClean(s: string)
  {
    s != "" && !IsSpace(s[0]) && !IsSpace(s[|s| - 1])
  }

  lemma CleanIsStripped(s: string)
    requires IsClean(s)
    ensures Strip(s) == s
  {
  }

  lemma {:induction false} LStripOfPrefix(s: string, t: string)
    requires t != "" && !IsSpace(t[0])
    ensures LStrip(s + t) == LStrip(s) + t
    decreases |s|
  {
    if s == "" {
      assert s + t == t;
    } else if IsSpace(s[0]) {
      assert (s + t)[1..] == s[1..] + t;
      LStripOfPrefix(s[1..], t);
    }
  }

  /** In front of a clean text, stripping only removes leading blanks. */
  lemma StripOfFront(front: string, rest: string)
    requires IsClean(rest)
    ensures Strip(front + rest) == LStrip(front) + rest
  {
    hide LStrip, RStrip, IsSpace;
    LStripOfPrefix(front, rest);
    var t := LStrip(front) + rest;
    assert t[|t| - 1] == rest[|rest| - 1];
    NothingToRStrip(t);
  }

  lemma NothingToRStrip(s: string)
    requires s != "" && !IsSpace(s[|s| - 1])
    ensures RStrip(s) == s
  {
  }

  /** What is left has no leading white space, and is a suffix of the text. */
  lemma {:induction false} LStripFacts(s: string)
    ensures LStrip(s) == "" || !IsSpace(LStrip(s)[0])
    ensures |LStrip(s)| <= |s| && LStrip(s) == s[|s| - |LStrip(s)|..]
    decreases |s|
  {
    if s != "" && IsSpace(s[0]) {
      LStripFacts(s[1..]);
    }
  }

  lemma {:induction false} RStripFacts(s: string)
    ensures RStrip(s) == "" || !IsSpace(RStrip(s)[|RStrip(s)| - 1])
    ensures RStrip(s) <= s
    decreases |s|
  {
    if s != "" && IsSpace(s[|s| - 1]) {
      RStripFacts(s[..|s| - 1]);
    }
  }

  /** Stripping leaves either nothing or a clean text, so stripping twice changes nothing. */
  lemma StripIsClean(s: string)
    ensures Strip(s) == "" || IsClean(Strip(s))
    ensures Strip(Strip(s)) == Strip(s)
  {
    LStripFacts(s);
    RStripFacts(LStrip(s));
    if Strip(s) != "" {
      CleanIsStripped(Strip(s));
    }
  }

  /** Stripping never lengthens a text, and keeps the length of an unchanged text only. */
  lemma StripShortens(s: string)
    ensures |Strip(s)| <= |s| && (|Strip(s)| == |s| ==> Strip(s) == s)
  {
    LStripFacts(s);
    RStripFacts(LStrip(s));
    hide LStrip, RStrip;
  }

  // ---------------------------------------------------------------- decimal numbers

  predicate IsDigit(c: char)
  {
    '0' <= c <= '9'
  }

  predicate AllDigits(s: string)
  {
    forall i :: 0 <= i < |s| ==> IsDigit(s[i])
  }

  function DigitsValue(s: string): nat
    requires AllDigits(s)
  {
    if s == "" then 0
    else 10 * DigitsValue(s[..|s| - 1]) + (s[|s| - 1] as int - '0' as int)
  }

  /** `str(n)` for a natural number. */
  function NatText(n: nat): string
  {
    var digit := [('0' as int + n % 10) as char];
    if n < 10 then digit else NatText(n / 10) + digit
  }

  lemma {:induction false} NatTextShape(n: nat)
    ensures NatText(n) != "" && AllDigits(NatText(n))
  {
    if n >= 10 {
      NatTextShape(n / 10);
    }
  }

  lemma {:induction false} NatTextRoundTrip(n: nat)
    ensures NatText(n) != "" && AllDigits(NatText(n))
    ensures DigitsValue(NatText(n)) == n
  {
    NatTextShape(n);
    var s := NatText(n);
    if n < 10 {
      assert s[..|s| - 1] == "";
    } else {
      NatTextRoundTrip(n / 10);
      assert s[..|s| - 1] == NatText(n / 10);
    }
  }

  /** Python's `int(text)` on ASCII text: surrounding blanks, one sign, and single underscores
      between digits are accepted; anything else raises. */
  function ParseInt(text: string): Option<int>
  {
    var t := Strip(text);
    var signed := t != "" && (t[0] == '+' || t[0] == '-');
    var body := if signed then t[1..] else t;
    if !DigitGroups(body) then None
    else
      var n: int := DigitsValue(WithoutUnderscores(body));
      Some(if signed && t[0] == '-' then -n else n)
  }

  predicate DigitGroups(s: string)
  {
    && s != "" && IsDigit(s[0]) && IsDigit(s[|s| - 1])
    && (forall i :: 0 <= i < |s| ==> IsDigit(s[i]) || s[i] == '_')
    && (forall i :: 0 < i < |s| && s[i] == '_' ==> s[i - 1] != '_')
  }

  function WithoutUnderscores(s: string): (r: string)
    requires forall i :: 0 <= i < |s| ==> IsDigit(s[i]) || s[i] == '_'
    ensures AllDigits(r)
  {
    if s == "" then ""
    else if s[0] == '_' then WithoutUnderscores(s[1..])
    else [s[0]] + WithoutUnderscores(s[1..])
  }

  lemma {:induction false} WithoutUnderscoresOnDigits(s: string)
    requires AllDigits(s)
    ensures WithoutUnderscores(s) == s
    decreases |s|
  {
    if s != "" {
      WithoutUnderscoresOnDigits(s[1..]);
    }
  }

  lemma ParseIntOfNatText(n: nat)
    ensures ParseInt(NatText(n)) == Some(n)
  {
    var s := NatText(n);
    NatTextShape(n);
    CleanIsStripped(s);
    WithoutUnderscoresOnDigits(s);
    NatTextRoundTrip(n);
  }

  // ---------------------------------------------------------------- searching and splitting

  predicate OccursAt(s: string, part: string, i: int)
  {
    0 <= i <= |s| - |part| && s[i..i + |part|] == part
  }

  ghost predicate Contains(s: string, part: string)
  {
    exists i :: OccursAt(s, part, i)
  }

  /** The first position at or after `from` where `part` occurs, or -1. */
  function FindFrom(s: string, part: string, from: nat): (r: int)
    requires from <= |s|
    ensures r != -1 ==> r >= from && OccursAt(s, part, r)
    ensures forall k :: from <= k && OccursAt(s, part, k) ==> r != -1 && r <= k
    decreases |s| - from
  {
    if OccursAt(s, part, from) then from
    else if from == |s| then -1
    else FindFrom(s, part, from + 1)
  }

  function Find(s: string, part: string): (r: int)
    ensures r == -1 <==> !Contains(s, part)
    ensures r != -1 ==> OccursAt(s, part, r)
    ensures forall k :: OccursAt(s, part, k) ==> r <= k
  {
    FindFrom(s, part, 0)
  }

  /** The last position of character `c` in `s`, or -1. */
  function LastIndexOf(s: string, c: char): (r: int)
    ensures -1 <= r < |s|
    ensures r != -1 ==> s[r] == c
    ensures forall k :: r < k < |s| ==> s[k] != c
  {
    if s == "" then -1
    else if s[|s| - 1] == c then |s| - 1
    else LastIndexOf(s[..|s| - 1], c)
  }

  /** The first position of character `c` in `s`, or -1. */
  function IndexOf(s: string, c: char): (r: int)
    ensures -1 <= r < |s|
    ensures r != -1 ==> s[r] == c && forall k :: 0 <= k < r ==> s[k] != c
    ensures r == -1 ==> c !in s
  {
    if s == "" then -1
    else if s[0] == c then 0
    else
      var r := IndexOf(s[1..], c);
      if r == -1 then -1 else r + 1
  }

  /** `s.split(c)`: always at least one piece. */
  function SplitOn(s: string, c: char): (pieces: seq<string>)
    ensures |pieces| >= 1
    ensures forall k :: 0 <= k < |pieces| ==> c !in pieces[k]
    decreases |s|
  {
    var i := IndexOf(s, c);
    if i == -1 then [s] else [s[..i]] + SplitOn(s[i + 1..], c)
  }

  /** `s.split(sep)`. */
  function Pieces(s: string, sep: string): (r: seq<string>)
    requires sep != ""
    ensures r != []
    decreases |s|
  {
    var i := Find(s, sep);
    if i == -1 then [s] else [s[..i]] + Pieces(s[i + |sep|..], sep)
  }

  /** `sep.join(pieces)`. */
  function JoinBy(pieces: seq<string>, sep: string): string
  {
    if pieces == [] then "" else if |pieces| == 1 then pieces[0]
    else pieces[0] + sep + JoinBy(pieces[1..], sep)
  }

  /** Joining the pieces again gives the text. */
  lemma {:induction false} JoinOfPieces(s: string, sep: string)
    requires sep != ""
    ensures JoinBy(Pieces(s, sep), sep) == s
    decreases |s|
  {
    hide Find, JoinBy;
    var i := Find(s, sep);
    if i == -1 {
      JoinByOne(s, sep);
    } else {
      var back := s[i + |sep|..];
      JoinOfPieces(back, sep);
      JoinByFront(s[..i], Pieces(back, sep), sep);
      assert s == s[..i] + sep + back;
    }
  }

  lemma JoinByOne(p: string, sep: string)
    ensures JoinBy([p], sep) == p
  {
  }

  lemma JoinByFront(p: string, rest: seq<string>, sep: string)
    requires rest != []
    ensures JoinBy([p] + rest, sep) == p + sep + JoinBy(rest, sep)
  {
    assert ([p] + rest)[1..] == rest;
  }

  /** `c.join(pieces)`. */
  function JoinWith(pieces: seq<string>, c: char): string
  {
    if pieces == [] then "" else if |pieces| == 1 then pieces[0]
    else pieces[0] + [c] + JoinWith(pieces[1..], c)
  }

  lemma {:induction false} JoinOfSplit(s: string, c: char)
    ensures JoinWith(SplitOn(s, c), c) == s
    decreases |s|
  {
    hide IndexOf, JoinWith;
    var i := IndexOf(s, c);
    if i == -1 {
      JoinOfOne(s, c);
    } else {
      var rest := SplitOn(s[i + 1..], c);
      JoinOfSplit(s[i + 1..], c);
      JoinOfMore(s[..i], rest, c);
      AroundOne(s, i);
    }
  }

  lemma JoinOfOne(s: string, c: char)
    ensures JoinWith([s], c) == s
  {
  }

  lemma JoinOfMore(first: string, rest: seq<string>, c: char)
    requires rest != []
    ensures JoinWith([first] + rest, c) == first + [c] + JoinWith(rest, c)
  {
    assert ([first] + rest)[1..] == rest;
  }

  lemma AroundOne(s: string, i: nat)
    requires i < |s|
    ensures s[..i] + [s[i]] + s[i + 1..] == s
  {
  }

  /** Joining pieces that do not contain the separator and splitting again gives the pieces. */
  lemma {:induction false} SplitOfJoin(pieces: seq<string>, c: char)
    requires pieces != [] && forall k :: 0 <= k < |pieces| ==> c !in pieces[k]
    ensures SplitOn(JoinWith(pieces, c), c) == pieces
  {
    var s := JoinWith(pieces, c);
    if |pieces| > 1 {
      var head, rest := pieces[0], JoinWith(pieces[1..], c);
      assert s == head + [c] + rest;
      assert s[|head|] == c && c in s;
      assert forall k :: 0 <= k < |head| ==> s[k] == head[k];
      assert IndexOf(s, c) == |head|;
      assert s[..|head|] == head && s[|head| + 1..] == rest;
      SplitOfJoin(pieces[1..], c);
    }
  }

  // ---------------------------------------------------------------- code-point order

  /** `a <= b` for Python strings. */
  predicate Leq(a: string, b: string)
  {
    a == "" || (b != "" && (a[0] < b[0] || (a[0] == b[0] && Leq(a[1..], b[1..]))))
  }

  lemma {:induction false} LeqTotal(a: string, b: string)
    ensures Leq(a, b) || Leq(b, a)
    ensures Leq(a, b) && Leq(b, a) ==> a == b
    decreases |a|
  {
    if a != "" && b != "" && a[0] == b[0] {
      LeqTotal(a[1..], b[1..]);
      assert a == [a[0]] + a[1..] && b == [b[0]] + b[1..];
    }
  }

  lemma {:induction false} LeqTransitive(a: string, b: string, c: string)
    requires Leq(a, b) && Leq(b, c)
    ensures Leq(a, c)
    decreases |a|
  {
    if a != "" && a[0] == b[0] == c[0] {
      LeqTransitive(a[1..], b[1..], c[1..]);
    }
  }
}
