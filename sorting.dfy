/** `Array.prototype.sort` with a comparator, as the pages call it. A
    comparator is modelled by the relation `le(a, b)`: "the comparator does not
    put `b` before `a`". */
module Sorting {
  import opened Seqs

  /** A comparator that is consistent: any two elements are comparable and
      the relation is transitive. */
  ghost predicate TotalPreorder<T(!new)>(le: (T, T) -> bool)
  {
    && (forall x, y :: le(x, y) || le(y, x))
    && (forall x, y, z :: le(x, y) && le(y, z) ==> le(x, z))
  }

  /** No element is placed after one that the relation puts before it. */
  ghost predicate SortedBy<T>(s: seq<T>, le: (T, T) -> bool)
  {
    forall i, j :: 0 <= i < j < |s| ==> le(s[i], s[j])
  }

  /** Sorts `a` in place by insertion. */
  method InsertionSort<T(!new)>(a: array<T>, le: (T, T) -> bool)
    requires TotalPreorder(le)
    modifies a
    ensures SortedBy(a[..], le)
    ensures multiset(a[..]) == multiset(old(a[..]))
  {
    var i := 0;
    while i < a.Length
      invariant 0 <= i <= a.Length
      invariant forall p, q :: 0 <= p < q < i ==> le(a[p], a[q])
      invariant multiset(a[..]) == multiset(old(a[..]))
    {
      InsertLast(a, i, le);
      i := i + 1;
    }
  }

  /** Moves `a[i]` down into the sorted prefix `a[..i]`. */
  method InsertLast<T(!new)>(a: array<T>, i: int, le: (T, T) -> bool)
    requires TotalPreorder(le)
    requires 0 <= i < a.Length
    requires forall p, q :: 0 <= p < q < i ==> le(a[p], a[q])
    modifies a
    ensures forall p, q :: 0 <= p < q <= i ==> le(a[p], a[q])
    ensures multiset(a[..]) == multiset(old(a[..]))
  {
    var j := i;
    while j > 0 && !le(a[j - 1], a[j])
      invariant 0 <= j <= i
      invariant forall p, q :: 0 <= p < q <= i && p != j && q != j ==> le(a[p], a[q])
      invariant forall q :: j < q <= i ==> le(a[j], a[q])
      invariant multiset(a[..]) == multiset(old(a[..]))
    {
      a[j - 1], a[j] := a[j], a[j - 1];
      j := j - 1;
    }
  }

  /** `[...s].sort(cmp)`: a sorted copy of `s`. */
  method SortedCopy<T(!new)>(s: seq<T>, le: (T, T) -> bool) returns (r: seq<T>)
    requires TotalPreorder(le)
    ensures SortedBy(r, le)
    ensures multiset(r) == multiset(s)
  {
    var a := new T[|s|](i requires 0 <= i < |s| => s[i]);
    assert a[..] == s;
    InsertionSort(a, le);
    r := a[..];
  }

  /** The first `n` elements of a sorted sequence come before all the others. */
  lemma SortedPrefix<T>(s: seq<T>, le: (T, T) -> bool, n: nat)
    requires SortedBy(s, le) && n <= |s|
    ensures forall x, y :: x in s[..n] && y in s[n..] ==> le(x, y)
  {
    forall x, y | x in s[..n] && y in s[n..] ensures le(x, y) {
      var i :| 0 <= i < n && s[..n][i] == x;
      var j :| 0 <= j < |s| - n && s[n..][j] == y;
      assert s[i] == x && s[n + j] == y;
    }
  }

  /** Filtering a sorted sequence keeps it sorted. */
  lemma {:induction false} FilterSorted<T>(s: seq<T>, le: (T, T) -> bool, p: T -> bool)
    requires SortedBy(s, le)
    ensures SortedBy(Filter(s, p), le)
  {
    if s != [] {
      var init := s[..|s| - 1];
      var last := s[|s| - 1];
      assert s == init + [last];
      assert SortedBy(init, le);
      FilterSorted(init, le, p);
      if p(last) {
        var f := Filter(init, p);
        FilterSound(init, p);
        forall y | y in f ensures le(y, last) {
          var i :| 0 <= i < |init| && init[i] == y;
          assert s[i] == y;
        }
        assert Filter(s, p) == f + [last];
      }
    }
  }

  /** `s.filter(p).slice(0, n)` on a sorted `s`: an element satisfying `p`
      that is left out is left out because `n` elements that come no later
      were kept. */
  lemma TopOfFiltered<T>(s: seq<T>, le: (T, T) -> bool, p: T -> bool, n: nat, y: T)
    requires SortedBy(s, le)
    requires y in s && p(y) && y !in Take(Filter(s, p), n)
    ensures |Take(Filter(s, p), n)| == n
    ensures forall x :: x in Take(Filter(s, p), n) ==> le(x, y)
  {
    var f := Filter(s, p);
    FilterSorted(s, le, p);
    FilterKeeps(s, p, y);
    assert |f| > n;
    assert f == f[..n] + f[n..];
    assert y in f[n..];
    SortedPrefix(f, le, n);
  }
}
