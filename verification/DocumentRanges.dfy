/** The line range of every Bug entry in a Bug document (the scan shared by
    ucagent/checkers/static_bug.py and ucagent/checkers/recorder.py). */
module DocumentRanges {
  import opened LineRanges

  /** A classified document line: whether it carries a Bug tag, whether it carries an FG/FC/CK tag or is a
      heading of level one to three, and whether it is blank. */
  datatype Line = Line(bug: bool, barrier: bool, blank: bool)

  // Line numbers start at one.

  predicate BugAt(lines: seq<Line>, x: int)
  {
    1 <= x <= |lines| && lines[x - 1].bug
  }

  predicate BarrierAt(lines: seq<Line>, x: int)
  {
    1 <= x <= |lines| && lines[x - 1].barrier
  }

  predicate BlankAt(lines: seq<Line>, x: int)
  {
    1 <= x <= |lines| && lines[x - 1].blank
  }

  predicate Closes(lines: seq<Line>, y: int)
  {
    BugAt(lines, y) || BarrierAt(lines, y)
  }

  /** No other entry, tag or heading starts after `start` at or before line `x`. */
  ghost predicate OpenUntil(lines: seq<Line>, start: int, x: int)
  {
    forall y: int :: start < y <= x ==> !Closes(lines, y)
  }

  /** The range of the Bug entry at line `r.0`: no other Bug tag, FG/FC/CK tag or heading is inside, it ends on
      a non-blank line unless it is a single line, and every later line of the document is blank or comes
      at or after the next Bug tag, FG/FC/CK tag or heading. */
  ghost predicate EntryRange(lines: seq<Line>, r: Span)
  {
    && BugAt(lines, r.0) && r.1 <= |lines|
    && OpenUntil(lines, r.0, r.1)
    && (r.1 > r.0 ==> !BlankAt(lines, r.1))
    && (forall x: int :: r.1 < x <= |lines| ==> BlankAt(lines, x) || !OpenUntil(lines, r.0, x))
  }

  function Starts(ranges: seq<Span>): (r: seq<int>)
    ensures |r| == |ranges| && forall k :: 0 <= k < |r| ==> r[k] == ranges[k].0
  {
    seq(|ranges|, k requires 0 <= k < |ranges| => ranges[k].0)
  }

  ghost predicate Increasing(s: seq<int>)
  {
    forall j, k :: 0 <= j < k < |s| ==> s[j] < s[k]
  }

  /** `s` is the ascending list of the Bug lines among the first `n`. */
  ghost predicate BugLinesUpTo(lines: seq<Line>, n: int, s: seq<int>)
  {
    Increasing(s) && forall x: int :: x in s <==> x <= n && BugAt(lines, x)
  }

  /** One range per Bug line, in document order. */
  ghost predicate EntryRanges(lines: seq<Line>, ranges: seq<Span>)
  {
    && (forall k :: 0 <= k < |ranges| ==> EntryRange(lines, ranges[k]))
    && BugLinesUpTo(lines, |lines|, Starts(ranges))
  }

  /** Entries cannot overlap, and each range crosses neither a tag nor a heading. */
  lemma EntriesAreDisjoint(lines: seq<Line>, ranges: seq<Span>, j: nat, k: nat)
    requires EntryRanges(lines, ranges) && j < k < |ranges|
    ensures ranges[j].0 <= ranges[j].1 < ranges[k].0
  {
    assert Starts(ranges)[j] < Starts(ranges)[k];
    assert EntryRange(lines, ranges[k]) && EntryRange(lines, ranges[j]);
    assert Closes(lines, ranges[k].0);
  }

  lemma NotShorter(lines: seq<Line>, a: Span, b: Span)
    requires EntryRange(lines, a) && EntryRange(lines, b) && a.0 == b.0
    ensures a.1 >= b.1
  {
    assert a.1 < b.1 ==> BlankAt(lines, b.1) || !OpenUntil(lines, a.0, b.1);
  }

  /** The document determines its entry ranges. */
  lemma EntryRangesUnique(lines: seq<Line>, a: seq<Span>, b: seq<Span>)
    requires EntryRanges(lines, a) && EntryRanges(lines, b)
    ensures a == b
  {
    assert Starts(a) == Starts(b) by {
      hide BugAt;
      IncreasingUnique(Starts(a), Starts(b));
    }
    forall k | 0 <= k < |a| ensures a[k] == b[k] {
      assert Starts(a)[k] == Starts(b)[k];
      NotShorter(lines, a[k], b[k]);
      NotShorter(lines, b[k], a[k]);
    }
  }

  lemma {:induction false} IncreasingUnique(s: seq<int>, t: seq<int>)
    requires Increasing(s) && Increasing(t) && forall x: int :: x in s <==> x in t
    ensures s == t
    decreases |s|
  {
    assert s != [] ==> s[0] in s;
    assert t != [] ==> t[0] in t;
    if s != [] {
      assert s[0] in t && t[0] in s;
      assert s[0] == t[0];
      forall x: int ensures x in s[1..] <==> x in t[1..] {
        assert x in s <==> x == s[0] || x in s[1..];
        assert x in t <==> x == t[0] || x in t[1..];
        assert s[0] !in s[1..] && t[0] !in t[1..];
      }
      IncreasingUnique(s[1..], t[1..]);
      assert s == [s[0]] + s[1..] && t == [t[0]] + t[1..];
    }
  }

  /** The occurrence list. */
  method BugLines(lines: seq<Line>) returns (occurrences: seq<int>)
    ensures BugLinesUpTo(lines, |lines|, occurrences)
  {
    occurrences := [];
    for n := 0 to |lines|
      invariant BugLinesUpTo(lines, n, occurrences)
    {
      if lines[n].bug {
        assert forall k :: 0 <= k < |occurrences| ==> occurrences[k] in occurrences;
        occurrences := occurrences + [n + 1];
      }
    }
  }

  /** The body of the scan for one entry; `next` is the next Bug line, if any. */
  method EntryEnd(lines: seq<Line>, start: int, next: int) returns (end: int)
    requires BugAt(lines, start) && start < next <= |lines| + 1
    requires next <= |lines| ==> BugAt(lines, next)
    requires forall x: int :: start < x < next ==> !BugAt(lines, x)
    ensures start <= end && EntryRange(lines, (start, end))
  {
    end := next - 1;
    var candidate := start + 1;
    while candidate < next
      invariant start < candidate <= next && end == next - 1
      invariant OpenUntil(lines, start, candidate - 1)
    {
      if lines[candidate - 1].barrier {
        end := candidate - 1;
        break;
      }
      candidate := candidate + 1;
    }
    ghost var stop := end;
    assert stop < |lines| ==> Closes(lines, stop + 1);
    while end > start && lines[end - 1].blank
      invariant start <= end <= stop
      invariant forall x: int :: end < x <= stop ==> BlankAt(lines, x)
    {
      end := end - 1;
    }
  }

  /** The whole scan. */
  method ScanEntries(lines: seq<Line>) returns (ranges: seq<Span>)
    ensures EntryRanges(lines, ranges)
  {
    var occurrences := BugLines(lines);
    ranges := [];
    for i := 0 to |occurrences|
      invariant |ranges| == i
      invariant forall k :: 0 <= k < i ==> ranges[k].0 == occurrences[k] && EntryRange(lines, ranges[k])
    {
      var next := if i + 1 < |occurrences| then occurrences[i + 1] else |lines| + 1;
      NoneBetween(lines, occurrences, i, next);
      var end := EntryEnd(lines, occurrences[i], next);
      ranges := ranges + [(occurrences[i], end)];
    }
    assert Starts(ranges) == occurrences;
  }

  lemma NotMember(s: seq<int>, i: nat, x: int)
    requires Increasing(s) && i < |s| && s[i] < x && (i + 1 < |s| ==> x < s[i + 1])
    ensures x !in s
  {
    forall k | 0 <= k < |s| ensures s[k] != x {
      if k > i + 1 { assert s[i + 1] < s[k]; }
      if k < i { assert s[k] < s[i]; }
    }
  }

  lemma NoneBetween(lines: seq<Line>, occurrences: seq<int>, i: nat, next: int)
    requires BugLinesUpTo(lines, |lines|, occurrences) && i < |occurrences|
    requires next == if i + 1 < |occurrences| then occurrences[i + 1] else |lines| + 1
    ensures BugAt(lines, occurrences[i]) && occurrences[i] < next <= |lines| + 1
    ensures next <= |lines| ==> BugAt(lines, next)
    ensures forall x: int :: occurrences[i] < x < next ==> !BugAt(lines, x)
  {
    assert occurrences[i] in occurrences;
    assert i + 1 < |occurrences| ==> occurrences[i + 1] in occurrences;
    forall x: int | occurrences[i] < x < next ensures !BugAt(lines, x) {
      NotMember(occurrences, i, x);
    }
  }
}
