/** Line ranges: merging, expanding and compacting them
    (ucagent/util/functions.py and ucagent/checkers/file_linemap.py). */
module LineRanges {
  import opened Lists

  /** An inclusive range of physical line numbers. */
  type Span = s: (int, int) | 0 <= s.0 <= s.1 witness (0, 0)

  predicate Covers(s: Span, x: int)
  {
    s.0 <= x <= s.1
  }

  function Lines(s: Span): set<int>
  {
    set x | s.0 <= x <= s.1 && Covers(s, x)
  }

  ghost predicate InSpans(spans: seq<Span>, x: int)
  {
    exists i :: 0 <= i < |spans| && Covers(spans[i], x)
  }

  /** Ascending, disjoint and not even adjacent. */
  ghost predicate Canonical(spans: seq<Span>)
  {
    forall i, j :: 0 <= i < j < |spans| ==> spans[i].1 + 1 < spans[j].0
  }

  lemma InSpansAppend(spans: seq<Span>, s: Span, x: int)
    ensures InSpans(spans + [s], x) <==> InSpans(spans, x) || Covers(s, x)
  {
    var all := spans + [s];
    if InSpans(spans, x) {
      var i :| 0 <= i < |spans| && Covers(spans[i], x);
      assert Covers(all[i], x);
    }
    if Covers(s, x) {
      assert Covers(all[|spans|], x);
    }
  }

  lemma InSpansAppendAll(spans: seq<Span>, s: Span)
    ensures forall x :: InSpans(spans + [s], x) <==> InSpans(spans, x) || Covers(s, x)
  {
    forall x { InSpansAppend(spans, s, x); }
  }

  /** No canonical block reaches the line just after another one. */
  lemma GapAfter(blocks: seq<Span>, i: nat)
    requires Canonical(blocks) && i < |blocks|
    ensures !InSpans(blocks, blocks[i].1 + 1)
  {
    forall k | 0 <= k < |blocks| ensures !Covers(blocks[k], blocks[i].1 + 1) {
    }
  }

  lemma InSpansConcat(a: seq<Span>, b: seq<Span>, x: int)
    ensures InSpans(a + b, x) <==> InSpans(a, x) || InSpans(b, x)
  {
    var all := a + b;
    if InSpans(a, x) {
      var i :| 0 <= i < |a| && Covers(a[i], x);
      assert Covers(all[i], x);
    }
    if InSpans(b, x) {
      var i :| 0 <= i < |b| && Covers(b[i], x);
      assert Covers(all[|a| + i], x);
    }
    if InSpans(all, x) {
      var i :| 0 <= i < |all| && Covers(all[i], x);
      assert if i < |a| then Covers(a[i], x) else Covers(b[i - |a|], x);
    }
  }

  lemma SameSpans(a: seq<Span>, b: seq<Span>)
    requires forall s :: s in a <==> s in b
    ensures forall x :: InSpans(a, x) <==> InSpans(b, x)
  {
    forall x ensures InSpans(a, x) <==> InSpans(b, x) {
      if InSpans(a, x) {
        var i :| 0 <= i < |a| && Covers(a[i], x);
        assert a[i] in b;
      }
      if InSpans(b, x) {
        var i :| 0 <= i < |b| && Covers(b[i], x);
        assert b[i] in a;
      }
    }
  }

  // ---------------------------------------------------------------- merging

  /** `range_list_merge`: the same lines, in canonical form. */
  method RangeListMerge(range1: seq<Span>, range2: seq<Span>) returns (merged: seq<Span>)
    ensures Canonical(merged)
    ensures forall x :: InSpans(merged, x) <==> InSpans(range1, x) || InSpans(range2, x)
  {
    var all := ByStart(range1 + range2);
    SortedByStart(range1 + range2);
    hide InSpans, Canonical, ByStart;
    merged := MergeSorted(all);
    forall x { InSpansConcat(range1, range2, x); }
  }

  /** `sorted(ranges, key=lambda x: x[0])`. */
  function ByStart(ranges: seq<Span>): seq<Span>
  {
    SortBy(ranges, (s: Span) => s.0)
  }

  lemma SortedByStart(ranges: seq<Span>)
    ensures var all := ByStart(ranges);
            && (forall i, j :: 0 <= i < j < |all| ==> all[i].0 <= all[j].0)
            && (forall x :: InSpans(all, x) <==> InSpans(ranges, x))
  {
    hide InSpans;
    var key := (s: Span) => s.0;
    var all := SortBy(ranges, key);
    SortByFacts(ranges, key);
    SameSpans(all, ranges);
    forall i, j | 0 <= i < j < |all| ensures all[i].0 <= all[j].0 {
      assert key(all[i]) <= key(all[j]);
    }
  }

  method MergeSorted(all: seq<Span>) returns (merged: seq<Span>)
    requires forall i, j :: 0 <= i < j < |all| ==> all[i].0 <= all[j].0
    ensures Canonical(merged)
    ensures forall x :: InSpans(merged, x) <==> InSpans(all, x)
  {
    if |all| == 0 {
      return [];
    }
    merged := [];
    var start, end := all[0].0, all[0].1;
    assert forall x :: InSpans(all[..1], x) <==> Covers(all[0], x);
    assert forall x :: !InSpans(merged, x);
    hide InSpans;
    for i := 1 to |all|
      invariant 0 <= start <= end
      invariant Canonical(merged)
      invariant forall k :: 0 <= k < |merged| ==> merged[k].1 + 1 < start
      invariant start <= all[i - 1].0
      invariant forall x :: InSpans(all[..i], x) <==> InSpans(merged, x) || start <= x <= end
    {
      var s := all[i];
      OneMore(all, i);
      InSpansAppendAll(all[..i], s);
      if s.0 <= end + 1 {
        end := if end >= s.1 then end else s.1;
      } else {
        InSpansAppendAll(merged, (start, end));
        merged := merged + [(start, end)];
        start, end := s.0, s.1;
      }
    }
    assert all[..|all|] == all;
    InSpansAppendAll(merged, (start, end));
    merged := merged + [(start, end)];
  }

  /** `_mapped_lines`: the lines covered by any key of a line map. */
  method MappedLines(lineMap: map<string, seq<Span>>) returns (mapped: set<int>)
    ensures forall x :: x in mapped <==> exists k :: k in lineMap && InSpans(lineMap[k], x)
  {
    var ranges := [];
    var keys := lineMap.Keys;
    while keys != {}
      invariant keys <= lineMap.Keys
      invariant forall x :: InSpans(ranges, x) <==>
                  exists k :: k in lineMap && k !in keys && InSpans(lineMap[k], x)
    {
      var key :| key in keys;
      forall x { InSpansConcat(ranges, lineMap[key], x); }
      ranges := ranges + lineMap[key];
      keys := keys - {key};
    }
    var merged := RangeListMerge([], ranges);
    mapped := {};
    for i := 0 to |merged|
      invariant forall x :: x in mapped <==> InSpans(merged[..i], x)
    {
      InSpansAppendAll(merged[..i], merged[i]);
      assert merged[..i] + [merged[i]] == merged[..i + 1];
      mapped := mapped + Lines(merged[i]);
    }
    assert merged[..|merged|] == merged;
    assert forall x :: !InSpans([], x);
  }

  // ---------------------------------------------------------------- compacting

  /** `_line_numbers_to_blocks`: the maximal runs of consecutive numbers. */
  method LineNumbersToBlocks(lineNumbers: seq<nat>) returns (blocks: seq<Span>)
    ensures Canonical(blocks)
    ensures forall x :: InSpans(blocks, x) <==> x in lineNumbers
  {
    var key := (x: nat) => x as int;
    var normalized := SortBy(Distinct(lineNumbers), key);
    DistinctNoDup(lineNumbers);
    SortByFacts(Distinct(lineNumbers), key);
    assert forall i, j :: 0 <= i < j < |normalized| ==> key(normalized[i]) <= key(normalized[j]);
    assert forall i, j :: 0 <= i < j < |normalized| ==> normalized[i] < normalized[j];
    blocks := Runs(normalized);
  }

  method Runs(normalized: seq<nat>) returns (blocks: seq<Span>)
    requires forall i, j :: 0 <= i < j < |normalized| ==> normalized[i] < normalized[j]
    ensures Canonical(blocks)
    ensures forall x :: InSpans(blocks, x) <==> x in normalized
  {
    if |normalized| == 0 {
      return [];
    }
    blocks := [];
    var start, previous := normalized[0], normalized[0];
    for i := 1 to |normalized|
      invariant start <= previous == normalized[i - 1]
      invariant Canonical(blocks)
      invariant forall k :: 0 <= k < |blocks| ==> blocks[k].1 + 1 < start
      invariant forall x :: x in normalized[..i] <==> InSpans(blocks, x) || start <= x <= previous
    {
      var line := normalized[i];
      assert normalized[..i + 1] == normalized[..i] + [line];
      if line == previous + 1 {
        previous := line;
        continue;
      }
      InSpansAppendAll(blocks, (start, previous));
      blocks := blocks + [(start, previous)];
      start, previous := line, line;
    }
    assert normalized[..|normalized|] == normalized;
    InSpansAppendAll(blocks, (start, previous));
    blocks := blocks + [(start, previous)];
  }

  /** A set of lines has only one canonical list of blocks: compaction is injective on sets, and
      merging the same lines in any grouping gives the same list. */
  lemma {:induction false} CanonicalUnique(a: seq<Span>, b: seq<Span>)
    requires Canonical(a) && Canonical(b)
    requires forall x :: InSpans(a, x) <==> InSpans(b, x)
    ensures a == b
    decreases |a|
  {
    if a == [] || b == [] {
      assert a != [] ==> Covers(a[0], a[0].0);
      assert b != [] ==> Covers(b[0], b[0].0);
      assert a != [] ==> InSpans(a, a[0].0);
      assert b != [] ==> InSpans(b, b[0].0);
    } else {
      FirstBlockWithin(a, b);
      FirstBlockWithin(b, a);
      assert a[0] == b[0];
      forall x ensures InSpans(a[1..], x) <==> InSpans(b[1..], x) {
        TailOfCanonical(a, x);
        TailOfCanonical(b, x);
      }
      CanonicalUnique(a[1..], b[1..]);
      assert a == [a[0]] + a[1..] && b == [b[0]] + b[1..];
    }
  }

  lemma TailOfCanonical(a: seq<Span>, x: int)
    requires Canonical(a) && a != []
    ensures InSpans(a[1..], x) <==> InSpans(a, x) && !Covers(a[0], x)
  {
    assert a == [a[0]] + a[1..];
    InSpansConcat([a[0]], a[1..], x);
    assert InSpans([a[0]], x) <==> Covers(a[0], x) by {
      if Covers(a[0], x) { assert Covers([a[0]][0], x); }
    }
    if InSpans(a[1..], x) {
      var i :| 0 <= i < |a[1..]| && Covers(a[1..][i], x);
      assert a[1..][i] == a[i + 1];
    }
  }

  /** With the same lines, the first block of `a` starts no earlier and ends no later than `b`'s. */
  lemma FirstBlockWithin(a: seq<Span>, b: seq<Span>)
    requires Canonical(a) && Canonical(b) && a != [] && b != []
    requires forall x :: InSpans(a, x) <==> InSpans(b, x)
    ensures b[0].0 <= a[0].0
    ensures a[0].0 == b[0].0 ==> a[0].1 <= b[0].1
  {
    assert Covers(a[0], a[0].0);
    assert InSpans(b, a[0].0);
    GapAfter(b, 0);
    assert !Covers(a[0], b[0].1 + 1);
  }

  ghost predicate Within(spans: seq<Span>, blocks: seq<Span>)
  {
    forall x :: InSpans(spans, x) ==> InSpans(blocks, x)
  }

  /** No list of ranges that covers the same lines is shorter than the canonical one. */
  lemma CanonicalIsFewest(blocks: seq<Span>, other: seq<Span>)
    requires Canonical(blocks)
    requires forall x :: InSpans(blocks, x) <==> InSpans(other, x)
    ensures |blocks| <= |other|
  {
    forall i | 0 <= i < |blocks| ensures InSpans(other, blocks[i].0) {
      assert Covers(blocks[i], blocks[i].0);
    }
    FewestUpTo(blocks, |blocks|, other);
  }

  lemma {:induction false} FewestUpTo(blocks: seq<Span>, n: nat, other: seq<Span>)
    requires Canonical(blocks) && n <= |blocks| && Within(other, blocks)
    requires forall i :: 0 <= i < n ==> InSpans(other, blocks[i].0)
    ensures n <= |other|
    decreases n
  {
    hide Canonical, Within, InSpans, Covers;
    if n > 0 {
      var j := CoveringIndex(other, blocks[n - 1].0);
      var rest := other[..j] + other[j + 1..];
      WithinWithoutOne(other, j, blocks);
      forall i | 0 <= i < n - 1 ensures InSpans(rest, blocks[i].0) {
        StaysInOneBlock(blocks, i, n - 1, other, j);
        WithoutOne(other, j, blocks[i].0);
      }
      FewestUpTo(blocks, n - 1, rest);
    }
  }

  lemma CoveringIndex(spans: seq<Span>, x: int) returns (j: nat)
    requires InSpans(spans, x)
    ensures j < |spans| && Covers(spans[j], x)
  {
    j :| 0 <= j < |spans| && Covers(spans[j], x);
  }

  lemma WithinWithoutOne(other: seq<Span>, j: nat, blocks: seq<Span>)
    requires j < |other| && Within(other, blocks)
    ensures Within(other[..j] + other[j + 1..], blocks)
  {
    hide InSpans, Covers;
    forall x { WithoutOne(other, j, x); }
  }

  lemma WithoutOne(other: seq<Span>, j: nat, x: int)
    requires j < |other|
    ensures InSpans(other, x) <==> Covers(other[j], x) || InSpans(other[..j] + other[j + 1..], x)
  {
    var rest := other[..j] + other[j + 1..];
    if InSpans(rest, x) {
      var i :| 0 <= i < |rest| && Covers(rest[i], x);
      assert Covers(other[if i < j then i else i + 1], x);
    }
    if InSpans(other, x) && !Covers(other[j], x) {
      var k :| 0 <= k < |other| && Covers(other[k], x);
      assert Covers(rest[if k < j then k else k - 1], x);
    }
  }

  /** One range inside the covered lines cannot meet two canonical blocks. */
  lemma StaysInOneBlock(blocks: seq<Span>, i: nat, m: nat, other: seq<Span>, j: nat)
    requires Canonical(blocks) && i < m < |blocks| && j < |other| && Within(other, blocks)
    ensures !(Covers(other[j], blocks[i].0) && Covers(other[j], blocks[m].0))
  {
    GapAfter(blocks, i);
    assert !Covers(other[j], blocks[i].1 + 1);
  }
}
