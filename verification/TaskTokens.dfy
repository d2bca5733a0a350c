/** The task names of the line-map batch checker: `file:start-end@sha256=digest`
    (ucagent/checkers/file_linemap.py). */
module TaskTokens {
  import opened Text

  const SEPARATOR := "@sha256="

  predicate IsHex(c: char)
  {
    '0' <= c <= '9' || 'a' <= c <= 'f'
  }

  /** What `hashlib.sha256(...).hexdigest()` returns. */
  type Digest = d: string | |d| == 64 && forall i :: 0 <= i < |d| ==> IsHex(d[i])
    witness seq(64, _ => '0')

  function Token(file: string, start: nat, end: nat, digest: Digest): string
  {
    file + ":" + NatText(start) + "-" + NatText(end) + SEPARATOR + digest
  }

  /** `_line_block_base`. */
  function Base(task: string): string
  {
    var i := Find(task, SEPARATOR);
    if i == -1 then task else task[..i]
  }

  /** `_line_block_digest`. */
  function DigestOf(task: string): Option<string>
  {
    var i := Find(task, SEPARATOR);
    if i == -1 then None else Some(task[i + |SEPARATOR|..])
  }

  /** `rsplit(":", 1)`, then `split("-", 1)` and two `int(...)`; None stands for the ValueError. */
  function SplitBase(base: string): (r: Option<(string, int, int)>)
    ensures r.Some? ==> |r.value.0| < |base| && 1 <= r.value.1 <= r.value.2
  {
    var i := LastIndexOf(base, ':');
    if i == -1 then None
    else
      var range := base[i + 1..];
      var j := IndexOf(range, '-');
      if j == -1 then None
      else
        var start, end := ParseInt(range[..j]), ParseInt(range[j + 1..]);
        if start.None? || end.None? || start.value < 1 || start.value > end.value then None
        else Some((base[..i], start.value, end.value))
  }

  /** `_split_line_block`. */
  function SplitBlock(task: string): Option<(string, int, int)>
  {
    SplitBase(Base(task))
  }

  /** `file:start-end`, the name shown to the user. */
  function BlockName(file: string, start: nat, end: nat): string
  {
    file + ":" + NatText(start) + "-" + NatText(end)
  }

  lemma SplitOfBlockName(file: string, start: nat, end: nat)
    requires 1 <= start <= end
    ensures SplitBase(BlockName(file, start, end)) == Some((file, start, end))
  {
    hide ParseInt, NatText, LastIndexOf, IndexOf, AllDigits;
    NatTextShape(start);
    NatTextShape(end);
    SplitOfParts(file, NatText(start), NatText(end));
    ParseIntOfNatText(start);
    ParseIntOfNatText(end);
  }

  lemma LastIs(s: string, c: char, i: nat)
    requires i < |s| && s[i] == c && forall k :: i < k < |s| ==> s[k] != c
    ensures LastIndexOf(s, c) == i
  {
    hide LastIndexOf;
    assert !(LastIndexOf(s, c) < i);
  }

  lemma FirstIs(s: string, c: char, i: nat)
    requires i < |s| && s[i] == c && forall k :: 0 <= k < i ==> s[k] != c
    ensures IndexOf(s, c) == i
  {
    hide IndexOf;
    assert c in s;
  }

  lemma Around(front: string, c: char, back: string)
    ensures var s := front + [c] + back; s[|front|] == c && s[..|front|] == front && s[|front| + 1..] == back
  {
  }

  lemma AtBack(front: string, c: char, back: string, k: nat)
    requires k < |back|
    ensures (front + [c] + back)[|front| + 1 + k] == back[k] && back[k] in back
  {
  }

  lemma LastCut(front: string, c: char, back: string)
    requires c !in back
    ensures LastIndexOf(front + [c] + back, c) == |front|
  {
    hide LastIndexOf;
    var s := front + [c] + back;
    forall k | |front| < k < |s| ensures s[k] != c {
      AtBack(front, c, back, k - |front| - 1);
    }
    Around(front, c, back);
    LastIs(s, c, |front|);
  }

  lemma FirstCut(front: string, c: char, back: string)
    requires c !in front
    ensures IndexOf(front + [c] + back, c) == |front|
  {
    hide IndexOf;
    var s := front + [c] + back;
    forall k | 0 <= k < |front| ensures s[k] != c {
      assert s[k] == front[k];
    }
    FirstIs(s, c, |front|);
  }

  lemma NoMarksInDigits(a: string, b: string)
    requires AllDigits(a) && AllDigits(b)
    ensures '-' !in a && ':' !in a + ['-'] + b
  {
  }

  /** Where `file:a-b` falls apart, for digit strings `a` and `b`. */
  lemma SplitOfParts(file: string, a: string, b: string)
    requires AllDigits(a) && AllDigits(b)
    ensures var base := file + ":" + a + "-" + b;
            && LastIndexOf(base, ':') == |file| && base[..|file|] == file
            && base[|file| + 1..] == a + "-" + b
            && IndexOf(a + "-" + b, '-') == |a|
            && (a + "-" + b)[..|a|] == a && (a + "-" + b)[|a| + 1..] == b
  {
    hide LastIndexOf, IndexOf, AllDigits;
    NoMarksInDigits(a, b);
    var range := a + ['-'] + b;
    Regroup(file, a, b);
    Around(file, ':', range);
    Around(a, '-', b);
    LastCut(file, ':', range);
    FirstCut(a, '-', b);
  }

  lemma Regroup(file: string, a: string, b: string)
    ensures file + ":" + a + "-" + b == file + [':'] + (a + ['-'] + b) && a + "-" + b == a + ['-'] + b
  {
  }

  lemma Mismatch(s: string, part: string, k: nat, m: nat)
    requires k + m < |s| && m < |part| && s[k + m] != part[m]
    ensures !OccursAt(s, part, k)
  {
    if k <= |s| - |part| {
      assert s[k..k + |part|][m] == s[k + m];
    }
  }

  /** `:start-end`. */
  function RangeText(start: nat, end: nat): (r: string)
    ensures r != "" && r[0] == ':' && forall m :: 0 <= m < |r| ==> r[m] != '@'
  {
    NatTextShape(start);
    NatTextShape(end);
    hide NatText;
    ":" + NatText(start) + "-" + NatText(end)
  }

  /** A separator in front of the written one lies inside the file name. */
  lemma SeparatorInFile(file: string, range: string, rest: string, k: nat)
    requires range != "" && range[0] == ':' && forall m :: 0 <= m < |range| ==> range[m] != '@'
    requires k < |file| + |range| && OccursAt(file + range + rest, SEPARATOR, k)
    ensures OccursAt(file, SEPARATOR, k)
  {
    var t := file + range + rest;
    assert forall m :: 0 <= m < |SEPARATOR| ==> SEPARATOR[m] != ':';
    assert t[|file|] == range[0];
    if k >= |file| {
      assert t[k] == range[k - |file|];
      Mismatch(t, SEPARATOR, k, 0);
    } else if k + |SEPARATOR| > |file| {
      Mismatch(t, SEPARATOR, k, |file| - k);
    } else {
      assert t[k..k + |SEPARATOR|] == file[k..k + |SEPARATOR|];
    }
  }

  /** The first separator of a task is the one the checker wrote, or lies inside the file name. */
  lemma FirstSeparator(file: string, start: nat, end: nat, digest: Digest)
    ensures var i := Find(Token(file, start, end, digest), SEPARATOR);
            i == if Contains(file, SEPARATOR) then Find(file, SEPARATOR)
                 else |BlockName(file, start, end)|
  {
    var range, rest := RangeText(start, end), SEPARATOR + digest;
    var name, t := BlockName(file, start, end), Token(file, start, end, digest);
    assert name == file + range && t == file + range + rest by { TokenPieces(file, start, end, digest); }
    hide Token, BlockName, RangeText, Find;
    assert t[|name|..|name| + |SEPARATOR|] == SEPARATOR;
    assert OccursAt(t, SEPARATOR, |name|);
    forall k | OccursAt(t, SEPARATOR, k) && k < |name| ensures OccursAt(file, SEPARATOR, k) {
      SeparatorInFile(file, range, rest, k);
    }
    forall k | OccursAt(file, SEPARATOR, k) ensures OccursAt(t, SEPARATOR, k) {
      assert t[k..k + |SEPARATOR|] == file[k..k + |SEPARATOR|];
    }
  }

  lemma TokenPieces(file: string, start: nat, end: nat, digest: Digest)
    ensures BlockName(file, start, end) == file + RangeText(start, end)
    ensures Token(file, start, end, digest) == file + RangeText(start, end) + (SEPARATOR + digest)
  {
    hide NatText;
  }

  /** A task gives back its base and digest when the file name is free of the separator;
      otherwise the base is cut off inside the file name. */
  lemma TokenParts(file: string, start: nat, end: nat, digest: Digest)
    ensures var t := Token(file, start, end, digest);
            if Contains(file, SEPARATOR)
            then Base(t) == file[..Find(file, SEPARATOR)]
            else Base(t) == BlockName(file, start, end) && DigestOf(t) == Some(digest)
  {
    var t := Token(file, start, end, digest);
    var name := BlockName(file, start, end);
    assert t == name + SEPARATOR + digest;
    FirstSeparator(file, start, end, digest);
    if !Contains(file, SEPARATOR) {
      assert t[..|name|] == name && t[|name| + |SEPARATOR|..] == digest;
    } else {
      var i := Find(file, SEPARATOR);
      assert t[..i] == file[..i];
    }
  }

  /** Splitting a formatted task returns its parts exactly when the file name does not contain the
      separator. */
  lemma TokenRoundTripIff(file: string, start: nat, end: nat, digest: Digest)
    requires 1 <= start <= end
    ensures SplitBlock(Token(file, start, end, digest)) == Some((file, start, end)) <==>
              !Contains(file, SEPARATOR)
  {
    TokenParts(file, start, end, digest);
    SplitOfBlockName(file, start, end);
  }

  /** What follows the file name. */
  function TailText(start: nat, end: nat, digest: Digest): string
  {
    ":" + NatText(start) + "-" + NatText(end) + SEPARATOR + digest
  }

  lemma TokenIsFileAndTail(file: string, start: nat, end: nat, digest: Digest)
    ensures Token(file, start, end, digest) == file + TailText(start, end, digest)
  {
    hide NatText;
  }

  lemma TailIsClean(start: nat, end: nat, digest: Digest)
    ensures IsClean(TailText(start, end, digest))
  {
    hide NatText;
    var rest := TailText(start, end, digest);
    assert IsHex(digest[|digest| - 1]);
    assert rest[0] == ':' && rest[|rest| - 1] == digest[|digest| - 1];
  }

  /** Stripping a task only touches the front of the file name. */
  lemma StripOfToken(file: string, start: nat, end: nat, digest: Digest)
    ensures Strip(Token(file, start, end, digest)) == Token(LStrip(file), start, end, digest)
    ensures !IsBlank(Token(file, start, end, digest))
  {
    hide NatText, LStrip, Strip, Token, TailText, IsSpace;
    TailIsClean(start, end, digest);
    TokenIsFileAndTail(file, start, end, digest);
    TokenIsFileAndTail(LStrip(file), start, end, digest);
    StripOfFront(file, TailText(start, end, digest));
  }

  /** Tasks of separator-free files are equal only if all their parts are. */
  lemma TokenInjective(f1: string, s1: nat, e1: nat, d1: Digest, f2: string, s2: nat, e2: nat, d2: Digest)
    requires !Contains(f1, SEPARATOR) && !Contains(f2, SEPARATOR)
    requires 1 <= s1 <= e1 && 1 <= s2 <= e2
    requires Base(Token(f1, s1, e1, d1)) == Base(Token(f2, s2, e2, d2))
    ensures f1 == f2 && s1 == s2 && e1 == e2
  {
    TokenParts(f1, s1, e1, d1);
    TokenParts(f2, s2, e2, d2);
    SplitOfBlockName(f1, s1, e1);
    SplitOfBlockName(f2, s2, e2);
  }
}
