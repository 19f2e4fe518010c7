/** Sequence helpers that mirror the JavaScript array operations the pages
    use: `filter`, `filter(...).length`, `slice(0, n)`, and the first-seen key
    order in which `Object.keys`/`Object.values` enumerate a dictionary. */
module Seqs {
  import opened Wrappers

  /** `s.filter(p)`. Defined from the back so that a loop that scans a
      sequence left to right extends it one element at a time. */
  function Filter<T>(s: seq<T>, p: T -> bool): (r: seq<T>)
    ensures |r| <= |s|
  {
    if s == [] then []
    else if p(s[|s| - 1]) then Filter(s[..|s| - 1], p) + [s[|s| - 1]]
    else Filter(s[..|s| - 1], p)
  }

  /** Only elements of `s` that satisfy `p` survive the filter, and no more
      often than they occur in `s`. */
  lemma {:induction false} FilterSound<T>(s: seq<T>, p: T -> bool)
    ensures forall x :: x in Filter(s, p) ==> x in s && p(x)
    ensures multiset(Filter(s, p)) <= multiset(s)
  {
    if s != [] {
      var init := s[..|s| - 1];
      assert s == init + [s[|s| - 1]];
      FilterSound(init, p);
    }
  }

  /** The prefix of length `n + 1` is the prefix of length `n` and one more
      element: the step of every left-to-right scan. */
  lemma PrefixSnoc<T>(s: seq<T>, n: nat)
    requires n < |s|
    ensures s[..n + 1] == s[..n] + [s[n]]
  {
  }

  /** `s.filter(p).length`. */
  function Count<T>(s: seq<T>, p: T -> bool): nat
  {
    |Filter(s, p)|
  }

  /** One more element at the end of the scanned prefix. */
  lemma FilterSnoc<T>(s: seq<T>, x: T, p: T -> bool)
    ensures Filter(s + [x], p) == if p(x) then Filter(s, p) + [x] else Filter(s, p)
  {
    assert (s + [x])[..|s|] == s;
  }

  /** Replacing one element changes a count by what the old and the new
      element contribute. */
  lemma {:induction false} CountUpdate<T>(s: seq<T>, i: nat, v: T, p: T -> bool)
    requires i < |s|
    ensures Count(s[i := v], p) + (if p(s[i]) then 1 else 0) == Count(s, p) + (if p(v) then 1 else 0)
  {
    var n := |s| - 1;
    var init := s[..n];
    assert s == init + [s[n]];
    if i == n {
      assert s[i := v] == init + [v];
      FilterSnoc(init, v, p);
      FilterSnoc(init, s[n], p);
    } else {
      assert s[i := v] == init[i := v] + [s[n]];
      CountUpdate(init, i, v, p);
      FilterSnoc(init[i := v], s[n], p);
      FilterSnoc(init, s[n], p);
    }
  }

  /** A weaker predicate counts at least as many elements. */
  lemma {:induction false} CountMono<T>(s: seq<T>, p: T -> bool, q: T -> bool)
    requires forall x :: p(x) ==> q(x)
    ensures Count(s, p) <= Count(s, q)
  {
    if s != [] {
      var init := s[..|s| - 1];
      assert s == init + [s[|s| - 1]];
      CountMono(init, p, q);
    }
  }

  /** Filtering by `p` and then by `q` is filtering by their conjunction. */
  lemma {:induction false} FilterOfFilter<T>(s: seq<T>, p: T -> bool, q: T -> bool, both: T -> bool)
    requires forall x :: both(x) == (p(x) && q(x))
    ensures Filter(Filter(s, p), q) == Filter(s, both)
  {
    if s != [] {
      var init, x := s[..|s| - 1], s[|s| - 1];
      assert s == init + [x];
      FilterOfFilter(init, p, q, both);
      FilterSnoc(Filter(init, p), x, q);
    }
  }

  /** Every element satisfying `p` survives the filter. */
  lemma {:induction false} FilterKeeps<T>(s: seq<T>, p: T -> bool, x: T)
    requires x in s && p(x)
    ensures x in Filter(s, p)
  {
    var init := s[..|s| - 1];
    assert s == init + [s[|s| - 1]];
    if x != s[|s| - 1] {
      FilterKeeps(init, p, x);
    }
  }

  /** Filtering distributes over concatenation. */
  lemma {:induction false} FilterAppend<T>(a: seq<T>, b: seq<T>, p: T -> bool)
    ensures Filter(a + b, p) == Filter(a, p) + Filter(b, p)
    decreases |b|
  {
    if b == [] {
      assert a + b == a;
    } else {
      var init := b[..|b| - 1];
      var last := b[|b| - 1];
      assert b == init + [last];
      assert a + b == (a + init) + [last];
      FilterAppend(a, init, p);
      FilterSnoc(a + init, last, p);
      FilterSnoc(init, last, p);
      if p(last) {
        calc {
          Filter(a + b, p);
          Filter(a + init, p) + [last];
          (Filter(a, p) + Filter(init, p)) + [last];
          Filter(a, p) + (Filter(init, p) + [last]);
          Filter(a, p) + Filter(b, p);
        }
      } else {
        calc {
          Filter(a + b, p);
          Filter(a + init, p);
          Filter(a, p) + Filter(init, p);
          Filter(a, p) + Filter(b, p);
        }
      }
    }
  }

  /** A filter that rejects nothing returns its input. */
  lemma {:induction false} FilterAll<T>(s: seq<T>, p: T -> bool)
    requires forall x :: x in s ==> p(x)
    ensures Filter(s, p) == s
  {
    if s != [] {
      var init := s[..|s| - 1];
      assert s == init + [s[|s| - 1]];
      FilterAll(init, p);
    }
  }

  /** Two predicates that agree on the elements give the same filter. */
  lemma {:induction false} FilterCongruent<T>(s: seq<T>, p: T -> bool, q: T -> bool)
    requires forall x :: x in s ==> p(x) == q(x)
    ensures Filter(s, p) == Filter(s, q)
  {
    if s != [] {
      var init := s[..|s| - 1];
      assert s == init + [s[|s| - 1]];
      FilterCongruent(init, p, q);
    }
  }

  /** A predicate and its negation split a sequence: `a + b == total` when `a`
      counts the elements satisfying `p` and `b` those that do not. */
  lemma {:induction false} CountSplit<T>(s: seq<T>, p: T -> bool, q: T -> bool)
    requires forall x :: x in s ==> q(x) == !p(x)
    ensures Count(s, p) + Count(s, q) == |s|
  {
    if s != [] {
      var init := s[..|s| - 1];
      assert s == init + [s[|s| - 1]];
      CountSplit(init, p, q);
    }
  }

  /** The predicate "has key `k`", shared by every use so that the same
      bucket is always described by the same term. */
  function KeyIs<T, K(==)>(key: T -> K, k: K): T -> bool
  {
    x => key(x) == k
  }

  /** No value occurs twice. */
  predicate Distinct<K(==)>(ks: seq<K>)
  {
    forall i, j :: 0 <= i < j < |ks| ==> ks[i] != ks[j]
  }

  /** The keys of `s`, each once, in order of first appearance: the order in
      which a dictionary filled by `s.forEach` enumerates its entries. */
  function KeysInOrder<T, K(==)>(s: seq<T>, key: T -> K): (r: seq<K>)
  {
    if s == [] then []
    else if key(s[|s| - 1]) in KeysInOrder(s[..|s| - 1], key) then KeysInOrder(s[..|s| - 1], key)
    else KeysInOrder(s[..|s| - 1], key) + [key(s[|s| - 1])]
  }

  /** Each key is listed once, every element's key is listed, and only keys
      of elements are listed. */
  lemma {:induction false} KeysInOrderSound<T, K>(s: seq<T>, key: T -> K)
    ensures Distinct(KeysInOrder(s, key))
    ensures forall x :: x in s ==> key(x) in KeysInOrder(s, key)
    ensures forall k :: k in KeysInOrder(s, key) ==> exists x :: x in s && key(x) == k
  {
    if s != [] {
      var init := s[..|s| - 1];
      assert s == init + [s[|s| - 1]];
      KeysInOrderSound(init, key);
    }
  }

  lemma KeysInOrderSnoc<T, K>(s: seq<T>, x: T, key: T -> K)
    ensures KeysInOrder(s + [x], key)
         == if key(x) in KeysInOrder(s, key) then KeysInOrder(s, key) else KeysInOrder(s, key) + [key(x)]
  {
    assert (s + [x])[..|s|] == s;
  }

  /** A key that no element has names an empty group. */
  lemma AbsentKeyGroup<T, K>(s: seq<T>, key: T -> K, k: K)
    requires k !in KeysInOrder(s, key)
    ensures Filter(s, KeyIs(key, k)) == []
  {
    KeysInOrderSound(s, key);
    FilterSound(s, KeyIs(key, k));
  }

  /** A key that some element has names a non-empty group. */
  lemma PresentKeyGroup<T, K>(s: seq<T>, key: T -> K, k: K)
    requires k in KeysInOrder(s, key)
    ensures |Filter(s, KeyIs(key, k))| >= 1
  {
    KeysInOrderSound(s, key);
    var x :| x in s && key(x) == k;
    FilterKeeps(s, KeyIs(key, k), x);
  }

  /** The sizes of the groups of `s` by `key`, summed over `ks`. */
  function GroupSizes<T, K(==)>(s: seq<T>, key: T -> K, ks: seq<K>): nat
  {
    if ks == [] then 0 else Count(s, KeyIs(key, ks[0])) + GroupSizes(s, key, ks[1..])
  }

  /** How many entries of `ks` equal `k`. */
  function Occurrences<K(==)>(ks: seq<K>, k: K): nat
  {
    if ks == [] then 0 else (if ks[0] == k then 1 else 0) + Occurrences(ks[1..], k)
  }

  lemma {:induction false} OccurrencesDistinct<K>(ks: seq<K>, k: K)
    requires Distinct(ks) && k in ks
    ensures Occurrences(ks, k) == 1
  {
    if ks[0] != k {
      assert k in ks[1..];
      OccurrencesDistinct(ks[1..], k);
    } else {
      OccurrencesAbsent(ks[1..], k);
    }
  }

  lemma {:induction false} OccurrencesAbsent<K>(ks: seq<K>, k: K)
    requires k !in ks
    ensures Occurrences(ks, k) == 0
  {
    if ks != [] {
      assert k !in ks[1..];
      OccurrencesAbsent(ks[1..], k);
    }
  }

  lemma {:induction false} GroupSizesSnoc<T, K>(s: seq<T>, x: T, key: T -> K, ks: seq<K>)
    ensures GroupSizes(s + [x], key, ks) == GroupSizes(s, key, ks) + Occurrences(ks, key(x))
  {
    if ks != [] {
      FilterSnoc(s, x, KeyIs(key, ks[0]));
      GroupSizesSnoc(s, x, key, ks[1..]);
    }
  }

  /** Grouping places every element in exactly one group: over a list of
      distinct keys that covers every element's key, the group sizes add up to
      the length of the input. */
  lemma {:induction false} GroupSizesPartition<T, K>(s: seq<T>, key: T -> K, ks: seq<K>)
    requires Distinct(ks)
    requires forall x :: x in s ==> key(x) in ks
    ensures GroupSizes(s, key, ks) == |s|
  {
    if s == [] {
      GroupSizesEmpty(key, ks);
    } else {
      var init := s[..|s| - 1];
      var last := s[|s| - 1];
      assert s == init + [last];
      GroupSizesPartition(init, key, ks);
      GroupSizesSnoc(init, last, key, ks);
      OccurrencesDistinct(ks, key(last));
    }
  }

  lemma {:induction false} GroupSizesEmpty<T, K>(key: T -> K, ks: seq<K>)
    ensures GroupSizes([], key, ks) == 0
  {
    if ks != [] {
      GroupSizesEmpty(key, ks[1..]);
    }
  }

  /** `s.slice(0, n)`. */
  function Take<T>(s: seq<T>, n: nat): (r: seq<T>)
    ensures |r| == if |s| < n then |s| else n
    ensures r == s[..|r|]
  {
    if |s| <= n then s else s[..n]
  }

  /** `s.find(p)`: the first element satisfying `p`, if any. */
  function FindFirst<T>(s: seq<T>, p: T -> bool): (r: Option<T>)
    ensures r.None? <==> forall x :: x in s ==> !p(x)
    ensures r.Some? ==> r.value in s && p(r.value)
  {
    if s == [] then None
    else if p(s[0]) then Some(s[0])
    else
      var r := FindFirst(s[1..], p);
      assert forall x :: x in s ==> x == s[0] || x in s[1..];
      r
  }

  /** What `find` returns sits at an index before which nothing satisfies
      `p`. */
  lemma {:induction false} FindFirstIsFirst<T>(s: seq<T>, p: T -> bool)
    requires FindFirst(s, p).Some?
    ensures exists i :: 0 <= i < |s| && s[i] == FindFirst(s, p).value && forall j :: 0 <= j < i ==> !p(s[j])
  {
    if !p(s[0]) {
      FindFirstIsFirst(s[1..], p);
      var i :| 0 <= i < |s[1..]| && s[1..][i] == FindFirst(s[1..], p).value
                && forall j :: 0 <= j < i ==> !p(s[1..][j]);
      assert s[i + 1] == FindFirst(s, p).value;
    } else {
      assert s[0] == FindFirst(s, p).value;
    }
  }
}
