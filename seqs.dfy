/**
 * Array operations the CMS uses on lists of rows and blocks: `filter`,
 * `.single()`, removal and insertion at an index, and an ordering
 * (`order by` / `sort`) given as a comparison.
 */
module Seqs {
  import opened Wrappers

  /** `s.filter(p)` */
  function Filter<T(!new)>(s: seq<T>, p: T -> bool): (r: seq<T>)
    ensures |r| <= |s|
    ensures forall x :: x in r <==> x in s && p(x)
    ensures forall i :: 0 <= i < |r| ==> p(r[i])
  {
    if s == [] then []
    else (if p(s[0]) then [s[0]] else []) + Filter(s[1..], p)
  }

  /** Filtering distributes over concatenation, so it keeps the relative order of what it keeps. */
  lemma {:induction false} FilterAppend<T(!new)>(a: seq<T>, b: seq<T>, p: T -> bool)
    ensures Filter(a + b, p) == Filter(a, p) + Filter(b, p)
    decreases |a|
  {
    if a == [] {
      assert a + b == b;
    } else {
      assert (a + b)[1..] == a[1..] + b;
      FilterAppend(a[1..], b, p);
    }
  }

  /** A predicate that holds of every element keeps the whole list. */
  lemma {:induction false} FilterAll<T(!new)>(s: seq<T>, p: T -> bool)
    requires forall i :: 0 <= i < |s| ==> p(s[i])
    ensures Filter(s, p) == s
    decreases |s|
  {
    if s != [] {
      FilterAll(s[1..], p);
    }
  }

  /** A predicate that holds of no element keeps nothing. */
  lemma {:induction false} FilterNone<T(!new)>(s: seq<T>, p: T -> bool)
    requires forall i :: 0 <= i < |s| ==> !p(s[i])
    ensures Filter(s, p) == []
    decreases |s|
  {
    if s != [] {
      FilterNone(s[1..], p);
    }
  }

  /** Every earlier element is related to every later one. */
  ghost predicate Pairwise<T>(s: seq<T>, rel: (T, T) -> bool)
  {
    forall i, j :: 0 <= i < j < |s| ==> rel(s[i], s[j])
  }

  lemma PairwiseCons<T>(x: T, t: seq<T>, rel: (T, T) -> bool)
    ensures Pairwise([x] + t, rel) <==> (forall k :: 0 <= k < |t| ==> rel(x, t[k])) && Pairwise(t, rel)
  {
    var s := [x] + t;
    assert forall k :: 0 <= k < |t| ==> s[k + 1] == t[k];
    if (forall k :: 0 <= k < |t| ==> rel(x, t[k])) && Pairwise(t, rel) {
      forall i, j | 0 <= i < j < |s| ensures rel(s[i], s[j]) {
        if i == 0 {
          assert rel(x, t[j - 1]);
        } else {
          assert rel(t[i - 1], t[j - 1]);
        }
      }
    }
    if Pairwise(s, rel) {
      forall k | 0 <= k < |t| ensures rel(x, t[k]) {
        assert rel(s[0], s[k + 1]);
      }
      forall i, j | 0 <= i < j < |t| ensures rel(t[i], t[j]) {
        assert rel(s[i + 1], s[j + 1]);
      }
    }
  }

  /** A relation every earlier/later pair satisfies still holds along the filtered list. */
  lemma {:induction false} FilterPairwise<T(!new)>(s: seq<T>, p: T -> bool, rel: (T, T) -> bool)
    requires Pairwise(s, rel)
    ensures Pairwise(Filter(s, p), rel)
    decreases |s|
  {
    if s != [] {
      var t := s[1..];
      assert s == [s[0]] + t;
      PairwiseCons(s[0], t, rel);
      FilterPairwise(t, p, rel);
      var rest := Filter(t, p);
      if p(s[0]) {
        forall k | 0 <= k < |rest| ensures rel(s[0], rest[k]) {
          assert rest[k] in t;
          var m :| 0 <= m < |t| && t[m] == rest[k];
        }
        PairwiseCons(s[0], rest, rel);
      }
    }
  }

  /** When the relation rules out two elements that both satisfy `p`, at most one does. */
  lemma {:induction false} FilterAtMostOne<T(!new)>(s: seq<T>, p: T -> bool, rel: (T, T) -> bool)
    requires Pairwise(s, rel)
    requires forall a, b :: rel(a, b) ==> !(p(a) && p(b))
    ensures |Filter(s, p)| <= 1
    decreases |s|
  {
    if s != [] {
      var t := s[1..];
      assert s == [s[0]] + t;
      PairwiseCons(s[0], t, rel);
      FilterAtMostOne(t, p, rel);
      if p(s[0]) {
        FilterNone(t, p);
      }
    }
  }

  /** Supabase's `.single()`: the row when there is exactly one, otherwise no row. */
  function Single<T>(s: seq<T>): (r: Option<T>)
    ensures r.Some? <==> |s| == 1
    ensures r.Some? ==> r.value == s[0]
  {
    if |s| == 1 then Some(s[0]) else None
  }

  /** `s.slice(0, n)` */
  function Take<T>(s: seq<T>, n: nat): (r: seq<T>)
    ensures |r| == if n < |s| then n else |s|
    ensures r == s[..|r|]
  {
    if n < |s| then s[..n] else s
  }

  /** The list without the element at index `i`. */
  function RemoveAt<T>(s: seq<T>, i: nat): (r: seq<T>)
    requires i < |s|
    ensures |r| == |s| - 1
    ensures forall k :: 0 <= k < i ==> r[k] == s[k]
    ensures forall k :: i <= k < |r| ==> r[k] == s[k + 1]
    ensures multiset(r) + multiset{s[i]} == multiset(s)
  {
    assert s == s[..i] + [s[i]] + s[i + 1..];
    s[..i] + s[i + 1..]
  }

  /** The list with `x` placed at index `i`, the elements from `i` on shifted right. */
  function InsertAt<T>(s: seq<T>, i: nat, x: T): (r: seq<T>)
    requires i <= |s|
    ensures |r| == |s| + 1
    ensures r[i] == x
    ensures forall k :: 0 <= k < i ==> r[k] == s[k]
    ensures forall k :: i < k < |r| ==> r[k] == s[k - 1]
    ensures multiset(r) == multiset(s) + multiset{x}
  {
    assert s == s[..i] + s[i..];
    s[..i] + [x] + s[i..]
  }

  /** `le` compares every pair one way or the other. */
  ghost predicate Total<T(!new)>(le: (T, T) -> bool)
  {
    forall a, b :: le(a, b) || le(b, a)
  }

  ghost predicate Transitive<T(!new)>(le: (T, T) -> bool)
  {
    forall a, b, c :: le(a, b) && le(b, c) ==> le(a, c)
  }

  /** Neighbours are in order. */
  predicate SortedBy<T>(s: seq<T>, le: (T, T) -> bool)
  {
    forall i :: 0 <= i < |s| - 1 ==> le(s[i], s[i + 1])
  }

  /** For a transitive order, neighbours in order means every pair in order. */
  lemma {:induction false} SortedPairwise<T(!new)>(s: seq<T>, le: (T, T) -> bool, i: nat, j: nat)
    requires Transitive(le) && SortedBy(s, le)
    requires i < j < |s|
    ensures le(s[i], s[j])
    decreases j - i
  {
    if i + 1 < j {
      SortedPairwise(s, le, i + 1, j);
      assert le(s[i], s[i + 1]);
    }
  }

  function Insert<T>(x: T, s: seq<T>, le: (T, T) -> bool): (r: seq<T>)
    ensures multiset(r) == multiset(s) + multiset{x}
    ensures |r| == |s| + 1
    ensures r[0] == x || (s != [] && r[0] == s[0])
  {
    if s == [] then [x]
    else if le(x, s[0]) then [x] + s
    else
      assert s == [s[0]] + s[1..];
      [s[0]] + Insert(x, s[1..], le)
  }

  /** The list in the order `le` gives (an insertion sort). */
  function SortBy<T>(s: seq<T>, le: (T, T) -> bool): (r: seq<T>)
    ensures multiset(r) == multiset(s)
    ensures |r| == |s|
  {
    if s == [] then []
    else
      assert s == [s[0]] + s[1..];
      Insert(s[0], SortBy(s[1..], le), le)
  }

  lemma {:induction false} InsertSorted<T(!new)>(x: T, s: seq<T>, le: (T, T) -> bool)
    requires Total(le) && SortedBy(s, le)
    ensures SortedBy(Insert(x, s, le), le)
    decreases |s|
  {
    if s != [] && !le(x, s[0]) {
      assert le(s[0], x);
      InsertSorted(x, s[1..], le);
      var t := Insert(x, s[1..], le);
      assert s[1..] != [] ==> le(s[0], s[1]);
      assert [s[0]] + t == Insert(x, s, le);
    }
  }

  /** Sorting by a total comparison gives a sorted list. */
  lemma {:induction false} SortBySorted<T(!new)>(s: seq<T>, le: (T, T) -> bool)
    requires Total(le)
    ensures SortedBy(SortBy(s, le), le)
    decreases |s|
  {
    if s != [] {
      SortBySorted(s[1..], le);
      InsertSorted(s[0], SortBy(s[1..], le), le);
    }
  }

  /** Elements that the same multiset holds are the same elements. */
  lemma SameMembers<T>(a: seq<T>, b: seq<T>)
    requires multiset(a) == multiset(b)
    ensures forall x :: x in a <==> x in b
  {
    forall x ensures x in a <==> x in b {
      assert x in a <==> x in multiset(a);
      assert x in b <==> x in multiset(b);
    }
  }
}
