/** Facts about sequences, mostly of rank indices: occurrence counts,
    sorting, reversal and extremes. Python's `list.count`, `sorted`,
    `reversed`, `max` and `min` on ranks are modelled here. */
module Sequences {

  /** No element occurs twice. */
  predicate Distinct<T(==)>(s: seq<T>) {
    forall i, j :: 0 <= i < j < |s| ==> s[i] != s[j]
  }

  /** Python's `s.count(x)`. */
  function Count(s: seq<int>, x: int): nat {
    if s == [] then 0 else (if s[0] == x then 1 else 0) + Count(s[1..], x)
  }

  /** The sum of `Count(s, p)` over the points `p` of `ps`. */
  function CountAll(s: seq<int>, ps: seq<int>): nat {
    if ps == [] then 0 else Count(s, ps[0]) + CountAll(s, ps[1..])
  }

  /** `s` with every occurrence of `x` removed, order kept. */
  function Without(s: seq<int>, x: int): (r: seq<int>)
    ensures |r| + Count(s, x) == |s|
    ensures forall y :: y != x ==> Count(r, y) == Count(s, y)
    ensures Count(r, x) == 0
  {
    if s == [] then [] else if s[0] == x then Without(s[1..], x) else [s[0]] + Without(s[1..], x)
  }

  /** A count is the multiplicity in the sequence's multiset. */
  lemma {:induction false} CountIsMultiplicity(s: seq<int>, x: int)
    ensures Count(s, x) == multiset(s)[x]
  {
    if s != [] {
      CountIsMultiplicity(s[1..], x);
      assert s == [s[0]] + s[1..];
    }
  }

  lemma CountsAreMultiplicities(s: seq<int>)
    ensures forall x :: Count(s, x) == multiset(s)[x]
  {
    forall x ensures Count(s, x) == multiset(s)[x] {
      CountIsMultiplicity(s, x);
    }
  }

  /** An element that occurs in `s` has a positive count, and conversely. */
  lemma {:induction false} CountPositive(s: seq<int>, x: int)
    ensures Count(s, x) > 0 <==> x in s
  {
    if s != [] {
      CountPositive(s[1..], x);
      assert x in s <==> s[0] == x || x in s[1..];
    }
  }

  /** Two occurrences at different positions give a count of at least two. */
  lemma {:induction false} CountTwo(s: seq<int>, i: nat, j: nat)
    requires i < j < |s| && s[i] == s[j]
    ensures Count(s, s[i]) >= 2
  {
    if i == 0 {
      CountPositive(s[1..], s[j]);
      assert s[1..][j - 1] == s[j];
    } else {
      CountTwo(s[1..], i - 1, j - 1);
    }
  }

  /** A sequence without repetitions has every count at most one. */
  lemma {:induction false} CountDistinct(s: seq<int>, x: int)
    requires Distinct(s)
    ensures Count(s, x) <= 1
    ensures x in s ==> Count(s, x) == 1
  {
    if s != [] {
      CountDistinct(s[1..], x);
      if s[0] == x {
        CountPositive(s[1..], x);
      }
    }
  }

  /** The count of an element equal to the length means all elements are it. */
  lemma {:induction false} CountFull(s: seq<int>, x: int)
    requires Count(s, x) == |s|
    ensures forall i :: 0 <= i < |s| ==> s[i] == x
  {
    if s != [] {
      assert Count(s[1..], x) <= |s[1..]| by { CountBound(s[1..], x); }
      CountFull(s[1..], x);
      forall i | 1 <= i < |s| ensures s[i] == x {
        assert s[i] == s[1..][i - 1];
      }
    }
  }

  lemma {:induction false} CountBound(s: seq<int>, x: int)
    ensures Count(s, x) <= |s|
  {
    if s != [] {
      CountBound(s[1..], x);
    }
  }

  /** Prepending `h` adds the number of times `h` is among the points. */
  lemma {:induction false} CountAllCons(h: int, t: seq<int>, ps: seq<int>)
    ensures CountAll([h] + t, ps) == CountAll(t, ps) + Count(ps, h)
  {
    if ps != [] {
      CountAllCons(h, t, ps[1..]);
      assert ([h] + t)[1..] == t;
    }
  }

  /** Distinct points share out at most the whole sequence. */
  lemma {:induction false} CountAllBound(s: seq<int>, ps: seq<int>)
    requires Distinct(ps)
    ensures CountAll(s, ps) <= |s|
  {
    if s == [] {
      CountAllEmpty(ps);
    } else {
      assert s == [s[0]] + s[1..];
      CountAllCons(s[0], s[1..], ps);
      CountDistinct(ps, s[0]);
      CountAllBound(s[1..], ps);
    }
  }

  /** When every element is one of the distinct points, they share out all of it. */
  lemma {:induction false} CountAllComplete(s: seq<int>, ps: seq<int>)
    requires Distinct(ps)
    requires forall i :: 0 <= i < |s| ==> s[i] in ps
    ensures CountAll(s, ps) == |s|
  {
    if s == [] {
      CountAllEmpty(ps);
    } else {
      assert s == [s[0]] + s[1..];
      CountAllCons(s[0], s[1..], ps);
      CountDistinct(ps, s[0]);
      CountAllComplete(s[1..], ps);
    }
  }

  lemma {:induction false} CountAllEmpty(ps: seq<int>)
    ensures CountAll([], ps) == 0
  {
    if ps != [] {
      CountAllEmpty(ps[1..]);
    }
  }

  /** Adding a point at the end adds its count. */
  lemma {:induction false} CountAllAppend(s: seq<int>, ps: seq<int>, x: int)
    ensures CountAll(s, ps + [x]) == CountAll(s, ps) + Count(s, x)
  {
    if ps != [] {
      assert (ps + [x])[1..] == ps[1..] + [x];
      CountAllAppend(s, ps[1..], x);
    }
  }

  /** Points that each occur at least once occur at least |ps| times in all. */
  lemma {:induction false} CountAllLower(s: seq<int>, ps: seq<int>)
    requires forall k :: 0 <= k < |ps| ==> Count(s, ps[k]) >= 1
    ensures CountAll(s, ps) >= |ps|
  {
    if ps != [] {
      CountAllLower(s, ps[1..]);
    }
  }

  /** One point occurring twice lifts the lower bound by one. */
  lemma {:induction false} CountAllLowerStrict(s: seq<int>, ps: seq<int>, k: nat)
    requires k < |ps| && Count(s, ps[k]) >= 2
    requires forall j :: 0 <= j < |ps| ==> Count(s, ps[j]) >= 1
    ensures CountAll(s, ps) >= |ps| + 1
  {
    if k == 0 {
      CountAllLower(s, ps[1..]);
    } else {
      CountAllLowerStrict(s, ps[1..], k - 1);
    }
  }

  /** If each of |s| distinct points occurs in `s`, then `s` is a
      permutation of the points. */
  lemma PresentPointsFill(s: seq<int>, ps: seq<int>)
    requires Distinct(ps) && |ps| == |s|
    requires forall k :: 0 <= k < |ps| ==> Count(s, ps[k]) >= 1
    ensures multiset(s) == multiset(ps)
  {
    forall x ensures multiset(s)[x] == multiset(ps)[x] {
      CountIsMultiplicity(s, x);
      CountIsMultiplicity(ps, x);
      CountDistinct(ps, x);
      CountAllLower(s, ps);
      if x in ps {
        var k :| 0 <= k < |ps| && ps[k] == x;
        if Count(s, x) >= 2 {
          CountAllLowerStrict(s, ps, k);
          CountAllBound(s, ps);
        }
      } else {
        CountAllBound(s, ps + [x]);
        CountAllAppend(s, ps, x);
      }
    }
  }

  /** Counts of two different values add up to at most the length. */
  lemma CountsBound2(s: seq<int>, a: int, b: int)
    requires a != b
    ensures Count(s, a) + Count(s, b) <= |s|
  {
    var ps := [a, b];
    CountAllBound(s, ps);
    assert ps[1..] == [b] && [b][1..] == [];
    assert CountAll(s, [b]) == Count(s, b);
  }

  /** Counts of three different values add up to at most the length. */
  lemma CountsBound3(s: seq<int>, a: int, b: int, c: int)
    requires a != b && a != c && b != c
    ensures Count(s, a) + Count(s, b) + Count(s, c) <= |s|
  {
    var ps := [a, b, c];
    CountAllBound(s, ps);
    assert ps[1..] == [b, c] && [b, c][1..] == [c] && [c][1..] == [];
    assert CountAll(s, [c]) == Count(s, c);
    assert CountAll(s, [b, c]) == Count(s, b) + CountAll(s, [c]);
  }

  /** Counts of four different values add up to at most the length. */
  lemma CountsBound4(s: seq<int>, a: int, b: int, c: int, d: int)
    requires a != b && a != c && a != d && b != c && b != d && c != d
    ensures Count(s, a) + Count(s, b) + Count(s, c) + Count(s, d) <= |s|
  {
    var ps := [a, b, c, d];
    CountAllBound(s, ps);
    assert ps[1..] == [b, c, d] && [b, c, d][1..] == [c, d] && [c, d][1..] == [d] && [d][1..] == [];
    assert CountAll(s, [d]) == Count(s, d);
    assert CountAll(s, [c, d]) == Count(s, c) + CountAll(s, [d]);
    assert CountAll(s, [b, c, d]) == Count(s, b) + CountAll(s, [c, d]);
  }

  /** Elements all equal to `a` or `b` are shared out between the two. */
  lemma CountsComplete2(s: seq<int>, a: int, b: int)
    requires a != b
    requires forall i :: 0 <= i < |s| ==> s[i] == a || s[i] == b
    ensures Count(s, a) + Count(s, b) == |s|
  {
    var ps := [a, b];
    CountAllComplete(s, ps);
    assert ps[1..] == [b] && [b][1..] == [];
    assert CountAll(s, [b]) == Count(s, b);
  }

  /** The first three elements of a strictly ascending sequence are members, in order. */
  lemma LeadingMembers(s: seq<int>)
    requires StrictlyAscending(s)
    ensures |s| > 0 ==> s[0] in s
    ensures |s| > 1 ==> s[1] in s && s[0] < s[1]
    ensures |s| > 2 ==> s[2] in s && s[1] < s[2]
  {
  }

  /** A strictly ascending sequence holding exactly `a` is `[a]`. */
  lemma StrictlyAscendingSingle(s: seq<int>, a: int)
    requires StrictlyAscending(s)
    requires forall x :: x in s <==> x == a
    ensures s == [a]
  {
    assert a in s;
    LeadingMembers(s);
  }

  /** A strictly ascending sequence holding exactly `a < b` is `[a, b]`. */
  lemma StrictlyAscendingPair(s: seq<int>, a: int, b: int)
    requires a < b && StrictlyAscending(s)
    requires forall x :: x in s <==> x == a || x == b
    ensures s == [a, b]
  {
    assert a in s && b in s;
    LeadingMembers(s);
  }

  /** Two sequences without repeats and with the same members are permutations
      of one another. */
  lemma SameMembersNoRepeats(a: seq<int>, b: seq<int>)
    requires forall x :: Count(a, x) <= 1 && Count(b, x) <= 1
    requires forall x :: x in a <==> x in b
    ensures multiset(a) == multiset(b)
  {
    forall x ensures multiset(a)[x] == multiset(b)[x] {
      CountIsMultiplicity(a, x);
      CountIsMultiplicity(b, x);
      CountPositive(a, x);
      CountPositive(b, x);
    }
  }

  /** In a sequence of length at most 5 over ranks, some rank below 6 is absent. */
  lemma SomeRankAbsent(s: seq<int>)
    requires |s| <= 5
    ensures exists t :: 0 <= t < 6 && Count(s, t) == 0
  {
    var ps := [0, 1, 2, 3, 4, 5];
    if forall k :: 0 <= k < |ps| ==> Count(s, ps[k]) >= 1 {
      CountAllLower(s, ps);
      CountAllBound(s, ps);
      assert false;
    }
  }

  // ---------------------------------------------------------------------
  // Sorting

  predicate Ascending(s: seq<int>) {
    forall i, j :: 0 <= i < j < |s| ==> s[i] <= s[j]
  }

  predicate Descending(s: seq<int>) {
    forall i, j :: 0 <= i < j < |s| ==> s[i] >= s[j]
  }

  predicate StrictlyAscending(s: seq<int>) {
    forall i, j :: 0 <= i < j < |s| ==> s[i] < s[j]
  }

  /** Places `x` before the first element not smaller than it. */
  function Insert(x: int, s: seq<int>): (r: seq<int>)
    ensures multiset(r) == multiset(s) + multiset{x}
    ensures |r| == |s| + 1
    ensures r[0] == x || (|s| > 0 && r[0] == s[0])
  {
    if s == [] || x <= s[0] then [x] + s
    else
      assert s == [s[0]] + s[1..];
      [s[0]] + Insert(x, s[1..])
  }

  /** Inserting into an ascending sequence keeps it ascending. */
  lemma {:induction false} InsertAscending(x: int, s: seq<int>)
    requires Ascending(s)
    ensures Ascending(Insert(x, s))
  {
    if s != [] && x > s[0] {
      AscendingTail(s);
      InsertAscending(x, s[1..]);
      var rest := Insert(x, s[1..]);
      assert s[0] <= rest[0];
      assert Insert(x, s) == [s[0]] + rest;
    }
  }

  /** Python's `sorted` on ranks: the ascending permutation. */
  function SortAsc(s: seq<int>): (r: seq<int>)
    ensures Ascending(r)
    ensures multiset(r) == multiset(s)
    ensures |r| == |s|
  {
    if s == [] then []
    else
      assert s == [s[0]] + s[1..];
      var rest := SortAsc(s[1..]);
      InsertAscending(s[0], rest);
      Insert(s[0], rest)
  }

  /** Python's `reversed`. */
  function Reverse(s: seq<int>): (r: seq<int>)
    ensures |r| == |s|
    ensures forall i :: 0 <= i < |s| ==> r[i] == s[|s| - 1 - i]
    ensures multiset(r) == multiset(s)
  {
    if s == [] then []
    else
      assert s == [s[0]] + s[1..];
      Reverse(s[1..]) + [s[0]]
  }

  /** `reversed(sorted(s))` and `sorted(s, reverse=True)` agree on ranks. */
  function SortDesc(s: seq<int>): (r: seq<int>)
    ensures Descending(r)
    ensures multiset(r) == multiset(s)
    ensures |r| == |s|
  {
    Reverse(SortAsc(s))
  }

  /** The head of an ascending sequence is below every member. */
  lemma HeadIsLeast(a: seq<int>, x: int)
    requires Ascending(a) && x in multiset(a)
    ensures a[0] <= x
  {
    assert x in a;
  }

  lemma TailMultiset(a: seq<int>)
    requires a != []
    ensures multiset(a[1..]) == multiset(a) - multiset{a[0]}
  {
    assert a == [a[0]] + a[1..];
  }

  lemma AscendingTail(a: seq<int>)
    requires Ascending(a) && a != []
    ensures Ascending(a[1..])
  {
  }

  /** Two ascending sequences with one multiset start alike. */
  lemma AscendingHeads(a: seq<int>, b: seq<int>)
    requires Ascending(a) && Ascending(b) && a != [] && b != []
    requires multiset(a) == multiset(b)
    ensures a[0] == b[0]
  {
    assert a[0] in multiset(a) && b[0] in multiset(b);
    HeadIsLeast(a, b[0]);
    HeadIsLeast(b, a[0]);
  }

  /** An ascending sequence is determined by its multiset. */
  lemma {:induction false} AscendingUnique(a: seq<int>, b: seq<int>)
    requires Ascending(a) && Ascending(b)
    requires multiset(a) == multiset(b)
    ensures a == b
  {
    assert |a| == |b| by {
      assert |multiset(a)| == |a| && |multiset(b)| == |b|;
    }
    if a != [] {
      AscendingHeads(a, b);
      TailMultiset(a);
      TailMultiset(b);
      AscendingTail(a);
      AscendingTail(b);
      AscendingUnique(a[1..], b[1..]);
      assert a == [a[0]] + a[1..] && b == [b[0]] + b[1..];
    }
  }

  /** A descending sequence is determined by its multiset. */
  lemma DescendingUnique(a: seq<int>, b: seq<int>)
    requires Descending(a) && Descending(b)
    requires multiset(a) == multiset(b)
    ensures a == b
  {
    var ra, rb := Reverse(a), Reverse(b);
    AscendingUnique(ra, rb);
    assert |a| == |b| by {
      assert |multiset(a)| == |a| && |multiset(b)| == |b|;
    }
    forall i | 0 <= i < |a| ensures a[i] == b[i] {
      assert a[i] == ra[|a| - 1 - i];
    }
  }

  /** Sorting keeps exactly the information of the multiset. */
  lemma SortDescIffSameMultiset(a: seq<int>, b: seq<int>)
    ensures SortDesc(a) == SortDesc(b) <==> multiset(a) == multiset(b)
  {
    if multiset(a) == multiset(b) {
      DescendingUnique(SortDesc(a), SortDesc(b));
    }
  }

  /** Python's `max` on a non-empty list of ranks. */
  function MaxOf(s: seq<int>): (m: int)
    requires |s| > 0
    ensures m in s
    ensures forall i :: 0 <= i < |s| ==> s[i] <= m
  {
    if |s| == 1 then s[0]
    else
      var rest := MaxOf(s[1..]);
      assert rest in s;
      if s[0] > rest then s[0] else rest
  }

  /** Python's `min` on a non-empty list of ranks. */
  function MinOf(s: seq<int>): (m: int)
    requires |s| > 0
    ensures m in s
    ensures forall i :: 0 <= i < |s| ==> m <= s[i]
  {
    if |s| == 1 then s[0]
    else
      var rest := MinOf(s[1..]);
      assert rest in s;
      if s[0] < rest then s[0] else rest
  }
}
