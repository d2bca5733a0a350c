/** Lists of task names: filtering, ordering, Python slices and duplicate-freeness. */
module Lists {
  import opened Text

  ghost predicate NoDup<T(!new)>(s: seq<T>)
  {
    forall i, j :: 0 <= i < j < |s| ==> s[i] != s[j]
  }

  ghost predicate SubsetOf<T(!new)>(s: seq<T>, t: seq<T>)
  {
    forall x :: x in s ==> x in t
  }

  lemma SeqAssoc<T>(a: seq<T>, b: seq<T>, c: seq<T>)
    ensures a + (b + c) == (a + b) + c
    ensures [] + a == a && a + [] == a
  {
  }

  lemma OneMore<T>(s: seq<T>, n: nat)
    requires n < |s|
    ensures s[..n + 1] == s[..n] + [s[n]]
    ensures s[..0] == [] && s[..|s|] == s
  {
  }

  lemma Middle<T>(a: seq<T>, b: seq<T>, c: seq<T>)
    ensures (a + b + c)[|a|..|a| + |b|] == b
  {
  }

  lemma SliceOfSlice<T>(s: seq<T>, i: nat, j: nat, k: nat, m: nat)
    requires i <= j <= |s| && k <= m <= j - i
    ensures s[i..j][k..m] == s[i + k..i + m]
  {
    var a, b := s[i..j][k..m], s[i + k..i + m];
    forall x | 0 <= x < m - k ensures a[x] == b[x] {
      assert s[i..j][k + x] == s[i + (k + x)];
    }
  }

  lemma SliceAt<T>(s: seq<T>, i: nat, j: nat, k: nat)
    requires i <= j <= |s| && k < j - i
    ensures s[i..j][k] == s[i + k]
  {
  }

  /** A piece in front of a tail of a list. */
  lemma PieceOfTail<T>(s: seq<T>, at: nat, head: seq<T>, piece: seq<T>, rest: seq<T>)
    requires at <= |s| && s[at..] == head + piece + rest
    ensures at + |head| + |piece| <= |s| && s[at + |head|..at + |head| + |piece|] == piece
    ensures forall i :: 0 <= i < |head| ==> s[at + i] == head[i]
  {
    var tail := s[at..];
    Middle(head, piece, rest);
    SliceOfSlice(s, at, |s|, |head|, |head| + |piece|);
    forall i | 0 <= i < |head| ensures s[at + i] == head[i] {
      SliceAt(s, at, |s|, i);
      assert tail[i] == head[i];
    }
  }

  /** A duplicate-free list is no longer than a list that has all its items. */
  lemma {:induction false} NoDupFits<T(!new)>(s: seq<T>, t: seq<T>)
    requires NoDup(s) && SubsetOf(s, t)
    ensures |s| <= |t|
    decreases |s|
  {
    if s != [] {
      assert s[0] in s && s[0] in t;
      var j :| 0 <= j < |t| && t[j] == s[0];
      var rest := t[..j] + t[j + 1..];
      forall x | x in s[1..] ensures x in rest {
        assert x in s && x in t && x != s[0];
        assert t == t[..j] + [t[j]] + t[j + 1..];
      }
      NoDupFits(s[1..], rest);
    }
  }

  function Map<A, B>(s: seq<A>, f: A -> B): (r: seq<B>)
    ensures |r| == |s| && forall i :: 0 <= i < |s| ==> r[i] == f(s[i])
  {
    seq(|s|, i requires 0 <= i < |s| => f(s[i]))
  }

  /** Mapping a rearranged list rearranges the images. */
  lemma {:induction false} MapRearranged<A(!new), B(!new)>(s: seq<A>, t: seq<A>, f: A -> B)
    requires multiset(s) == multiset(t)
    ensures multiset(Map(s, f)) == multiset(Map(t, f))
    decreases |s|
  {
    SameItems(s, t);
    hide Map;
    if s != [] {
      assert s[0] in t;
      var j :| 0 <= j < |t| && t[j] == s[0];
      var rest := t[..j] + t[j + 1..];
      TailItems(s);
      WithoutOne(t, j);
      MapRearranged(s[1..], rest, f);
      MapWithoutOne(t, j, f);
      MapTail(s, f);
    } else {
      assert s == t;
    }
  }

  lemma MapTail<A, B>(s: seq<A>, f: A -> B)
    requires s != []
    ensures multiset(Map(s, f)) == multiset(Map(s[1..], f)) + multiset{f(s[0])}
  {
    assert Map(s, f) == [f(s[0])] + Map(s[1..], f);
  }

  lemma WithoutOne<T>(t: seq<T>, j: nat)
    requires j < |t|
    ensures multiset(t[..j] + t[j + 1..]) == multiset(t) - multiset{t[j]}
  {
    assert t == t[..j] + [t[j]] + t[j + 1..];
  }

  lemma MapWithoutOne<A, B>(t: seq<A>, j: nat, f: A -> B)
    requires j < |t|
    ensures multiset(Map(t, f)) == multiset(Map(t[..j] + t[j + 1..], f)) + multiset{f(t[j])}
  {
    WithoutOne(Map(t, f), j);
    assert Map(t[..j] + t[j + 1..], f) == Map(t, f)[..j] + Map(t, f)[j + 1..];
    assert Map(t, f)[j] == f(t[j]);
    assert f(t[j]) in multiset(Map(t, f));
  }

  /** The items of `s` that are in `t`, in the order of `s`. */
  function KeepIn<T(==,!new)>(s: seq<T>, t: seq<T>): (r: seq<T>)
    ensures forall x :: x in r <==> x in s && x in t
    ensures |r| <= |s|
  {
    if s == [] then []
    else if s[0] in t then [s[0]] + KeepIn(s[1..], t)
    else KeepIn(s[1..], t)
  }

  /** The items of `s` that are not in `t`, in the order of `s`. */
  function DropIn<T(==,!new)>(s: seq<T>, t: seq<T>): (r: seq<T>)
    ensures forall x :: x in r <==> x in s && x !in t
    ensures |r| <= |s|
  {
    if s == [] then []
    else if s[0] in t then DropIn(s[1..], t)
    else [s[0]] + DropIn(s[1..], t)
  }

  /** Python's `s[:k]`, which counts from the end for a negative `k`. */
  function Take<T>(s: seq<T>, k: int): (r: seq<T>)
    ensures r <= s
    ensures k >= 0 ==> |r| == if k <= |s| then k else |s|
  {
    if k >= 0 then (if k <= |s| then s[..k] else s)
    else if |s| + k >= 0 then s[..|s| + k] else []
  }

  lemma {:induction false} DropInAppend<T(!new)>(s: seq<T>, x: T, t: seq<T>)
    ensures DropIn(s + [x], t) == DropIn(s, t) + (if x in t then [] else [x])
    decreases |s|
  {
    if s == [] {
      assert s + [x] == [x];
    } else {
      assert (s + [x])[1..] == s[1..] + [x];
      DropInAppend(s[1..], x, t);
    }
  }

  lemma {:induction false} DropInNoDup<T(!new)>(s: seq<T>, t: seq<T>)
    requires NoDup(s)
    ensures NoDup(DropIn(s, t))
    decreases |s|
  {
    if s != [] {
      DropInNoDup(s[1..], t);
    }
  }

  lemma {:induction false} KeepAll<T(!new)>(s: seq<T>, t: seq<T>)
    ensures DropIn(s, t) == [] <==> KeepIn(s, t) == s
    ensures |KeepIn(s, t)| + |DropIn(s, t)| == |s|
    decreases |s|
  {
    if s != [] {
      KeepAll(s[1..], t);
      assert s == [s[0]] + s[1..];
    }
  }

  lemma {:induction false} KeepNoDup<T(!new)>(s: seq<T>, t: seq<T>)
    requires NoDup(s)
    ensures NoDup(KeepIn(s, t))
    decreases |s|
  {
    if s != [] {
      KeepNoDup(s[1..], t);
    }
  }

  /** Removing the first `p` items of a duplicate-free list leaves the rest. */
  lemma {:induction false} DropPrefix<T(!new)>(s: seq<T>, p: nat)
    requires p <= |s| && NoDup(s)
    ensures DropIn(s, s[..p]) == s[p..]
  {
    DropSplit(s[..p], s[p..], s[..p]);
    assert s[..p] + s[p..] == s;
  }

  lemma {:induction false} DropSplit<T(!new)>(a: seq<T>, b: seq<T>, t: seq<T>)
    requires forall x :: x in a ==> x in t
    requires forall x :: x in b ==> x !in t
    ensures DropIn(a + b, t) == b
    decreases |a| + |b|
  {
    if a != [] {
      assert (a + b)[1..] == a[1..] + b;
      DropSplit(a[1..], b, t);
    } else {
      assert a + b == b;
      if b != [] {
        assert DropIn(b[1..], t) == b[1..] by {
          assert [] + b[1..] == b[1..];
          DropSplit([], b[1..], t);
        }
      }
    }
  }

  // ---------------------------------------------------------------- sorting

  ghost predicate Sorted(s: seq<string>)
  {
    forall i, j :: 0 <= i < j < |s| ==> Leq(s[i], s[j])
  }

  function Insert(x: string, s: seq<string>): seq<string>
  {
    if s == [] || Leq(x, s[0]) then [x] + s else [s[0]] + Insert(x, s[1..])
  }

  /** `sorted(s)`. */
  function Sort(s: seq<string>): seq<string>
  {
    if s == [] then [] else Insert(s[0], Sort(s[1..]))
  }

  lemma {:induction false} InsertItems(x: string, s: seq<string>)
    ensures multiset(Insert(x, s)) == multiset(s) + multiset{x}
    decreases |s|
  {
    if s != [] && !Leq(x, s[0]) {
      InsertItems(x, s[1..]);
      assert s == [s[0]] + s[1..];
    }
  }

  lemma {:induction false} SortIsPermutation(s: seq<string>)
    ensures multiset(Sort(s)) == multiset(s)
    decreases |s|
  {
    if s != [] {
      SortIsPermutation(s[1..]);
      InsertItems(s[0], Sort(s[1..]));
      assert s == [s[0]] + s[1..];
    }
  }

  lemma SameItems<T(!new)>(s: seq<T>, t: seq<T>)
    requires multiset(s) == multiset(t)
    ensures |s| == |t|
    ensures forall x :: x in s <==> x in t
  {
    assert |s| == |multiset(s)| && |t| == |multiset(t)|;
    assert forall x :: x in s <==> x in multiset(s);
    assert forall x :: x in t <==> x in multiset(t);
  }

  lemma LeastInFront(x: string, s: seq<string>)
    requires s != [] && Sorted(s) && Leq(s[0], x)
    ensures forall j :: 0 <= j < |Insert(x, s[1..])| ==> Leq(s[0], Insert(x, s[1..])[j])
  {
    hide Leq, Insert;
    var r := Insert(x, s[1..]);
    InsertItems(x, s[1..]);
    SameItems(r, s[1..] + [x]);
    forall j | 0 <= j < |r| ensures Leq(s[0], r[j]) {
      assert r[j] in s[1..] + [x];
    }
  }

  lemma {:induction false} InsertKeepsSorted(x: string, s: seq<string>)
    requires Sorted(s)
    ensures Sorted(Insert(x, s))
    decreases |s|
  {
    hide Leq;
    if s == [] {
    } else if Leq(x, s[0]) {
      forall j | 0 <= j < |s| ensures Leq(x, s[j]) {
        if j > 0 { LeqTransitive(x, s[0], s[j]); }
      }
    } else {
      InsertKeepsSorted(x, s[1..]);
      LeqTotal(x, s[0]);
      LeastInFront(x, s);
    }
  }

  lemma {:induction false} SortIsSorted(s: seq<string>)
    ensures Sorted(Sort(s))
    decreases |s|
  {
    if s != [] {
      SortIsSorted(s[1..]);
      InsertKeepsSorted(s[0], Sort(s[1..]));
    }
  }

  lemma SortItems(s: seq<string>)
    ensures |Sort(s)| == |s|
    ensures forall x :: x in Sort(s) <==> x in s
  {
    SortIsPermutation(s);
    SameItems(Sort(s), s);
  }

  lemma TailItems<T>(s: seq<T>)
    requires s != []
    ensures multiset(s[1..]) == multiset(s) - multiset{s[0]}
  {
    assert s == [s[0]] + s[1..];
  }

  lemma SameLeast(s: seq<string>, t: seq<string>)
    requires Sorted(s) && Sorted(t) && s != [] && t != [] && s[0] in t && t[0] in s
    ensures s[0] == t[0]
  {
    hide Leq;
    LeqTotal(s[0], t[0]);
  }

  /** A list has only one sorted arrangement. */
  lemma {:induction false} SortedUnique(s: seq<string>, t: seq<string>)
    requires Sorted(s) && Sorted(t) && multiset(s) == multiset(t)
    ensures s == t
    decreases |s|
  {
    SameItems(s, t);
    if s != [] {
      assert s[0] in t && t[0] in s;
      SameLeast(s, t);
      TailItems(s);
      TailItems(t);
      hide Leq;
      assert Sorted(s[1..]) && Sorted(t[1..]);
      SortedUnique(s[1..], t[1..]);
      assert s == [s[0]] + s[1..] && t == [t[0]] + t[1..];
    }
  }

  lemma NoDupByCount<T(!new)>(s: seq<T>)
    ensures NoDup(s) <==> forall x :: multiset(s)[x] <= 1
  {
    if NoDup(s) {
      forall x ensures multiset(s)[x] <= 1 { CountAtMostOne(s, x); }
    } else {
      var i, j :| 0 <= i < j < |s| && s[i] == s[j];
      assert s == s[..j] + [s[j]] + s[j + 1..];
      assert s[i] == s[..j][i];
      assert multiset(s)[s[i]] >= 2;
    }
  }

  lemma {:induction false} CountAtMostOne<T(!new)>(s: seq<T>, x: T)
    requires NoDup(s)
    ensures multiset(s)[x] <= 1
    decreases |s|
  {
    if s != [] {
      assert s == [s[0]] + s[1..];
      CountAtMostOne(s[1..], x);
    }
  }

  lemma SortNoDup(s: seq<string>)
    ensures NoDup(Sort(s)) <==> NoDup(s)
  {
    SortIsPermutation(s);
    NoDupByCount(s);
    NoDupByCount(Sort(s));
  }

  /** `sorted(set(s))`: the sorted list without repetitions. */
  function Distinct<T(==,!new)>(s: seq<T>): (r: seq<T>)
    ensures forall x :: x in r <==> x in s
  {
    if s == [] then []
    else if s[0] in s[1..] then Distinct(s[1..])
    else [s[0]] + Distinct(s[1..])
  }

  lemma {:induction false} DistinctNoDup<T(!new)>(s: seq<T>)
    ensures NoDup(Distinct(s))
    decreases |s|
  {
    if s != [] {
      DistinctNoDup(s[1..]);
    }
  }

  /** The items without repetitions, in order of first occurrence. */
  function Unique<T(==,!new)>(s: seq<T>): (r: seq<T>)
    ensures forall x :: x in r <==> x in s
    ensures s == [] <==> r == []
  {
    if s == [] then []
    else
      var last := s[|s| - 1];
      var r := Unique(s[..|s| - 1]);
      assert s == s[..|s| - 1] + [last];
      if last in r then r else r + [last]
  }

  lemma {:induction false} UniqueNoDup<T(!new)>(s: seq<T>)
    ensures NoDup(Unique(s))
    decreases |s|
  {
    if s != [] {
      UniqueNoDup(s[..|s| - 1]);
    }
  }

  lemma {:induction false} UniqueOfNoDup<T(!new)>(s: seq<T>)
    requires NoDup(s)
    ensures Unique(s) == s
    decreases |s|
  {
    if s != [] {
      var t := s[..|s| - 1];
      UniqueOfNoDup(t);
      assert s == t + [s[|s| - 1]];
      assert s[|s| - 1] !in t;
    }
  }

  lemma UniqueSnoc<T(!new)>(s: seq<T>, x: T)
    ensures Unique(s + [x]) == if x in s then Unique(s) else Unique(s) + [x]
  {
    assert (s + [x])[..|s|] == s;
  }

  function SortedSet(s: seq<string>): (r: seq<string>)
  {
    Sort(Distinct(s))
  }

  lemma SortedSetFacts(s: seq<string>)
    ensures Sorted(SortedSet(s)) && NoDup(SortedSet(s))
    ensures forall x :: x in SortedSet(s) <==> x in s
  {
    SortIsSorted(Distinct(s));
    DistinctNoDup(s);
    SortNoDup(Distinct(s));
    SortItems(Distinct(s));
  }

  // ---------------------------------------------------------------- stable sorting by a number

  ghost predicate SortedBy<T>(s: seq<T>, key: T -> int)
  {
    forall i, j :: 0 <= i < j < |s| ==> key(s[i]) <= key(s[j])
  }

  function InsertBy<T>(x: T, s: seq<T>, key: T -> int): seq<T>
  {
    if s == [] || key(x) <= key(s[0]) then [x] + s else [s[0]] + InsertBy(x, s[1..], key)
  }

  /** `sorted(s, key=key)`. */
  function SortBy<T>(s: seq<T>, key: T -> int): seq<T>
  {
    if s == [] then [] else InsertBy(s[0], SortBy(s[1..], key), key)
  }

  lemma {:induction false} InsertByItems<T(!new)>(x: T, s: seq<T>, key: T -> int)
    ensures |InsertBy(x, s, key)| == |s| + 1 && forall y :: y in InsertBy(x, s, key) <==> y == x || y in s
    decreases |s|
  {
    if s != [] && key(x) > key(s[0]) {
      InsertByItems(x, s[1..], key);
      assert s == [s[0]] + s[1..];
    }
  }

  lemma {:induction false} InsertByFacts<T(!new)>(x: T, s: seq<T>, key: T -> int)
    requires SortedBy(s, key)
    ensures var r := InsertBy(x, s, key);
            && |r| == |s| + 1 && SortedBy(r, key)
            && (forall y :: y in r <==> y == x || y in s)
            && (NoDup(s) && x !in s ==> NoDup(r))
    decreases |s|
  {
    InsertByItems(x, s, key);
    if s != [] && key(x) > key(s[0]) {
      var r := InsertBy(x, s[1..], key);
      InsertByFacts(x, s[1..], key);
      forall j | 0 <= j < |r| ensures key(s[0]) <= key(r[j]) {
        assert r[j] in r;
      }
      if NoDup(s) && x !in s {
        assert s[0] !in s[1..];
        assert s[0] !in r;
      }
    }
  }

  lemma {:induction false} SortByFacts<T(!new)>(s: seq<T>, key: T -> int)
    ensures var r := SortBy(s, key);
            && |r| == |s| && SortedBy(r, key)
            && (forall y :: y in r <==> y in s)
            && (NoDup(s) ==> NoDup(r))
    decreases |s|
  {
    if s != [] {
      SortByFacts(s[1..], key);
      InsertByFacts(s[0], SortBy(s[1..], key), key);
    }
  }
}
