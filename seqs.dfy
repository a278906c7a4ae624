/**
  Sequence operations shared by the handlers: Array.prototype.filter,
  deduplication through a Set (first occurrence wins, as Set iteration keeps
  insertion order), reduce-style sums, slice-based paging, and the
  comparator-driven sort every listing uses.
*/
module Seqs {
  import opened Strings

  // ---------------------------------------------------------------------------
  // filter (defined from the back, the order a loop appends in)

  function Filter<T(!new)>(s: seq<T>, p: T -> bool): (r: seq<T>)
    ensures |r| <= |s|
    ensures forall x :: x in r <==> x in s && p(x)
    decreases |s|
  {
    if s == [] then []
    else
      var init := Filter(s[..|s| - 1], p);
      if p(s[|s| - 1]) then init + [s[|s| - 1]] else init
  }

  /**
    r can be obtained from s by deleting elements; matching from the back
    greedily decides this.
  */
  predicate IsSubsequence<T(==,!new)>(r: seq<T>, s: seq<T>)
    decreases |s|
  {
    |r| == 0
    || (|s| > 0
        && if r[|r| - 1] == s[|s| - 1] then IsSubsequence(r[..|r| - 1], s[..|s| - 1])
           else IsSubsequence(r, s[..|s| - 1]))
  }

  /** Filtering only deletes elements: the order of what is kept is the order in s. */
  lemma {:induction false} FilterIsSubsequence<T(!new)>(s: seq<T>, p: T -> bool)
    ensures IsSubsequence(Filter(s, p), s)
    decreases |s|
  {
    if s != [] {
      var init := s[..|s| - 1];
      FilterIsSubsequence(init, p);
      var r := Filter(s, p);
      if p(s[|s| - 1]) {
        assert r[..|r| - 1] == Filter(init, p);
      } else {
        assert r == Filter(init, p);
      }
    }
  }

  lemma {:induction false} FilterAppend<T(!new)>(a: seq<T>, b: seq<T>, p: T -> bool)
    ensures Filter(a + b, p) == Filter(a, p) + Filter(b, p)
    decreases |b|
  {
    if b == [] {
      assert a + b == a;
    } else {
      var init := b[..|b| - 1];
      var x := b[|b| - 1];
      var tail := if p(x) then [x] else [];
      FilterAppend(a, init, p);
      assert (a + b)[..|a + b| - 1] == a + init;
      assert (a + b)[|a + b| - 1] == x;
      assert Filter(a + b, p) == Filter(a + init, p) + tail;
      assert Filter(b, p) == Filter(init, p) + tail;
    }
  }

  /** Filtering keeps everything exactly when everything satisfies the predicate. */
  lemma {:induction false} FilterAll<T(!new)>(s: seq<T>, p: T -> bool)
    requires forall x :: x in s ==> p(x)
    ensures Filter(s, p) == s
    decreases |s|
  {
    if s != [] {
      FilterAll(s[..|s| - 1], p);
      assert s[..|s| - 1] + [s[|s| - 1]] == s;
    }
  }

  /** Two successive filters are one filter on the conjunction. */
  lemma {:induction false} FilterFilter<T(!new)>(s: seq<T>, p: T -> bool, q: T -> bool)
    ensures Filter(Filter(s, p), q) == Filter(s, x => p(x) && q(x))
    decreases |s|
  {
    if s != [] {
      var init := s[..|s| - 1];
      FilterFilter(init, p, q);
      var last := s[|s| - 1];
      if p(last) {
        FilterAppend(Filter(init, p), [last], q);
        assert Filter(init, p) + [last] == Filter(s, p);
        assert [last][..0] == [];
      }
    }
  }

  /** Predicates that agree on the elements filter alike. */
  lemma {:induction false} FilterCongruent<T(!new)>(s: seq<T>, p: T -> bool, q: T -> bool)
    requires forall x :: x in s ==> p(x) == q(x)
    ensures Filter(s, p) == Filter(s, q)
    decreases |s|
  {
    if s != [] {
      FilterCongruent(s[..|s| - 1], p, q);
    }
  }

  /** Filtering drops something exactly when some element fails the predicate. */
  lemma {:induction false} FilterLength<T(!new)>(s: seq<T>, p: T -> bool)
    ensures |Filter(s, p)| == |s| <==> forall x :: x in s ==> p(x)
    decreases |s|
  {
    if s != [] {
      var init := s[..|s| - 1];
      FilterLength(init, p);
      assert forall x :: x in s <==> x in init || x == s[|s| - 1] by {
        assert s == init + [s[|s| - 1]];
      }
    }
  }

  // ---------------------------------------------------------------------------
  // Distinctness and [...new Set(xs)]

  /** A non-empty sequence holds its first element. */
  lemma HeadIn<T>(s: seq<T>)
    ensures s != [] ==> s[0] in s
  {
  }

  predicate NoDup<T(==,!new)>(s: seq<T>) {
    forall i, j :: 0 <= i < j < |s| ==> s[i] != s[j]
  }

  /** The elements of s in first-occurrence order, each once. */
  function Dedupe<T(==,!new)>(s: seq<T>): (r: seq<T>)
    ensures NoDup(r)
    ensures forall x :: x in r <==> x in s
    ensures |r| <= |s|
    decreases |s|
  {
    if s == [] then []
    else
      var init := Dedupe(s[..|s| - 1]);
      if s[|s| - 1] in init then init else init + [s[|s| - 1]]
  }

  /** Deduplicating a duplicate-free sequence changes nothing. */
  lemma {:induction false} DedupeNoDup<T(!new)>(s: seq<T>)
    requires NoDup(s)
    ensures Dedupe(s) == s
    decreases |s|
  {
    if s != [] {
      DedupeNoDup(s[..|s| - 1]);
      assert s[..|s| - 1] + [s[|s| - 1]] == s;
    }
  }

  /** Deduplication keeps the first-occurrence order of a prefix: Dedupe(a) starts Dedupe(a + b). */
  lemma {:induction false} DedupePrefix<T(!new)>(a: seq<T>, b: seq<T>)
    ensures |Dedupe(a)| <= |Dedupe(a + b)|
    ensures Dedupe(a + b)[..|Dedupe(a)|] == Dedupe(a)
    decreases |b|
  {
    if b == [] {
      assert a + b == a;
    } else {
      DedupePrefix(a, b[..|b| - 1]);
      assert (a + b)[..|a + b| - 1] == a + b[..|b| - 1];
    }
  }

  /** The length of a deduplication grows exactly when a new element appears. */
  lemma DedupeSameLength<T(!new)>(a: seq<T>, b: seq<T>)
    requires NoDup(a)
    ensures |Dedupe(a + b)| == |a| <==> forall x :: x in b ==> x in a
  {
    DedupeNoDup(a);
    DedupePrefix(a, b);
    var d := Dedupe(a + b);
    if |d| == |a| {
      assert d == a;
      forall x | x in b ensures x in a {
        assert x in a + b;
      }
    } else {
      assert |d| > |a|;
      var y := d[|a|];
      assert y in a + b;
      forall k | 0 <= k < |a| ensures a[k] != y {
        assert d[k] == a[k];
      }
      assert y in b;
    }
  }

  /** Appending one element to a sequence deduplicates by appending it when new. */
  lemma DedupeSnoc<T(!new)>(s: seq<T>, x: T)
    ensures Dedupe(s + [x]) == if x in s then Dedupe(s) else Dedupe(s) + [x]
  {
    assert (s + [x])[..|s|] == s;
  }

  /** A sequence is duplicate-free exactly when its multiset holds each element at most once. */
  lemma {:induction false} NoDupMultiset<T(!new)>(s: seq<T>)
    ensures NoDup(s) <==> forall x :: multiset(s)[x] <= 1
    decreases |s|
  {
    if s != [] {
      var init, y := s[..|s| - 1], s[|s| - 1];
      NoDupMultiset(init);
      assert s == init + [y];
      assert multiset(s) == multiset(init) + multiset{y};
      if NoDup(s) {
        assert NoDup(init);
        assert y !in init by {
          forall k | 0 <= k < |init| ensures init[k] != y {
            assert s[k] == init[k];
          }
        }
        assert multiset(init)[y] == 0;
      } else {
        var i, j :| 0 <= i < j < |s| && s[i] == s[j];
        if j < |s| - 1 {
          assert init[i] == init[j];
          var x :| multiset(init)[x] > 1;
          assert multiset(s)[x] > 1;
        } else {
          assert init[i] == y;
          assert multiset(s)[y] == multiset(init)[y] + 1;
        }
      }
    }
  }

  /** Reordering a duplicate-free sequence leaves it duplicate-free. */
  lemma PermutationNoDup<T(!new)>(a: seq<T>, b: seq<T>)
    requires multiset(a) == multiset(b) && NoDup(a)
    ensures NoDup(b)
  {
    NoDupMultiset(a);
    NoDupMultiset(b);
  }

  /** A duplicate-free sequence has as many elements as its set. */
  lemma {:induction false} NoDupCard<T(!new)>(s: seq<T>)
    requires NoDup(s)
    ensures |set x | x in s| == |s|
    decreases |s|
  {
    if s != [] {
      var init := s[..|s| - 1];
      NoDupCard(init);
      assert (set x | x in s) == (set x | x in init) + {s[|s| - 1]} by {
        assert s == init + [s[|s| - 1]];
      }
      assert s[|s| - 1] !in init;
    }
  }

  // ---------------------------------------------------------------------------
  // Sums and counts (Array.prototype.reduce)

  function SumOf<T(!new)>(s: seq<T>, f: T -> int): int
    decreases |s|
  {
    if s == [] then 0 else SumOf(s[..|s| - 1], f) + f(s[|s| - 1])
  }

  lemma {:induction false} SumOfAppend<T(!new)>(a: seq<T>, b: seq<T>, f: T -> int)
    ensures SumOf(a + b, f) == SumOf(a, f) + SumOf(b, f)
    decreases |b|
  {
    if b == [] {
      assert a + b == a;
    } else {
      SumOfAppend(a, b[..|b| - 1], f);
      assert (a + b)[..|a + b| - 1] == a + b[..|b| - 1];
    }
  }

  lemma {:induction false} SumOfNonNegative<T(!new)>(s: seq<T>, f: T -> int)
    requires forall x :: x in s ==> f(x) >= 0
    ensures SumOf(s, f) >= 0
    decreases |s|
  {
    if s != [] {
      SumOfNonNegative(s[..|s| - 1], f);
    }
  }

  function Count<T(!new)>(s: seq<T>, p: T -> bool): nat {
    |Filter(s, p)|
  }

  /** Nothing is counted exactly when no element satisfies the predicate. */
  lemma CountZeroIff<T(!new)>(s: seq<T>, p: T -> bool)
    ensures Count(s, p) == 0 <==> forall x :: x in s ==> !p(x)
  {
    var f := Filter(s, p);
    if |f| > 0 {
      assert f[0] in f;
    }
  }

  function Not<T(!new)>(p: T -> bool): T -> bool {
    x => !p(x)
  }

  /** Every element is counted by exactly one of a predicate and its negation. */
  lemma {:induction false} CountComplement<T(!new)>(s: seq<T>, p: T -> bool)
    ensures Count(s, p) + Count(s, Not(p)) == |s|
    decreases |s|
  {
    if s != [] {
      CountComplement(s[..|s| - 1], p);
    }
  }

  /** Splitting by a predicate and its negation keeps every element, each as often. */
  lemma {:induction false} FilterPartition<T(!new)>(s: seq<T>, p: T -> bool)
    ensures multiset(Filter(s, p)) + multiset(Filter(s, Not(p))) == multiset(s)
    decreases |s|
  {
    if s != [] {
      FilterPartition(s[..|s| - 1], p);
      assert s == s[..|s| - 1] + [s[|s| - 1]];
    }
  }

  // ---------------------------------------------------------------------------
  // slice

  /** s.slice(0, n) for a natural n. */
  function Take<T(!new)>(s: seq<T>, n: nat): (r: seq<T>)
    ensures |r| == if n < |s| then n else |s|
    ensures r == s[..|r|]
  {
    if n < |s| then s[..n] else s
  }

  /** A prefix of a duplicate-free sequence is duplicate-free. */
  lemma TakeNoDup<T(!new)>(s: seq<T>, n: nat)
    requires NoDup(s)
    ensures NoDup(Take(s, n))
  {
  }

  /** An element a prefix leaves out comes after the prefix's last element, and the prefix is full. */
  lemma TakeOmits<T(!new)>(s: seq<T>, n: nat, x: T, le: (T, T) -> bool)
    requires Sorted(s, le) && x in s && x !in Take(s, n)
    ensures |Take(s, n)| == n
    ensures n > 0 ==> le(Take(s, n)[n - 1], x)
  {
    var k :| 0 <= k < |s| && s[k] == x;
    assert n < |s|;
    forall j | 0 <= j < n ensures s[j] != x {
      assert Take(s, n)[j] == s[j];
    }
  }

  /** s.slice(offset, offset + limit) for natural offset and limit. */
  function Page<T(!new)>(s: seq<T>, offset: nat, limit: nat): (r: seq<T>)
    ensures |r| <= limit
    ensures offset <= |s| ==> |r| == (if offset + limit <= |s| then limit else |s| - offset)
    ensures offset >= |s| ==> r == []
    ensures forall k :: 0 <= k < |r| ==> offset + k < |s| && r[k] == s[offset + k]
  {
    var lo := if offset < |s| then offset else |s|;
    var hi := if offset + limit < |s| then offset + limit else |s|;
    s[lo..hi]
  }

  /** Consecutive pages cover the listing without gaps or overlap. */
  lemma PagesAdjoin<T(!new)>(s: seq<T>, offset: nat, limit: nat)
    ensures Page(s, offset, limit) + Page(s, offset + limit, limit) == Page(s, offset, 2 * limit)
  {
  }

  // ---------------------------------------------------------------------------
  // Sorting by a comparator

  /** le(a, b): a may come before b (the comparator returned a value <= 0). */
  ghost predicate TotalPreorder<T(!new)>(le: (T, T) -> bool) {
    && (forall a, b :: le(a, b) || le(b, a))
    && (forall a, b, c :: le(a, b) && le(b, c) ==> le(a, c))
  }

  predicate Sorted<T(!new)>(s: seq<T>, le: (T, T) -> bool) {
    forall i, j :: 0 <= i < j < |s| ==> le(s[i], s[j])
  }

  /** Places x before the first element it may precede. */
  function Insert<T(!new)>(x: T, s: seq<T>, le: (T, T) -> bool): (r: seq<T>)
    ensures multiset(r) == multiset(s) + multiset{x}
    ensures |r| == |s| + 1
  {
    if s == [] then [x]
    else if le(x, s[0]) then [x] + s
    else
      assert s == [s[0]] + s[1..];
      [s[0]] + Insert(x, s[1..], le)
  }

  /**
    Insertion sort. Inserting each element in front of the elements it may
    precede keeps equal elements in their original order, so this is the
    stable sort Array.prototype.sort is.
  */
  function Sort<T(!new)>(s: seq<T>, le: (T, T) -> bool): (r: seq<T>)
    ensures multiset(r) == multiset(s)
    ensures |r| == |s|
  {
    if s == [] then []
    else
      assert s == [s[0]] + s[1..];
      Insert(s[0], Sort(s[1..], le), le)
  }

  lemma {:induction false} InsertSorted<T(!new)>(x: T, s: seq<T>, le: (T, T) -> bool)
    requires TotalPreorder(le) && Sorted(s, le)
    ensures Sorted(Insert(x, s, le), le)
    decreases |s|
  {
    if s != [] && !le(x, s[0]) {
      InsertSorted(x, s[1..], le);
      var r := Insert(x, s[1..], le);
      forall y | y in r ensures le(s[0], y) {
        assert y in multiset(r);
        if y != x {
          assert y in multiset(s[1..]);
          var j :| 0 <= j < |s[1..]| && s[1..][j] == y;
          assert s[j + 1] == y;
        }
      }
    }
  }

  /** Under a total preorder the sort's result is in order. */
  lemma {:induction false} SortSorted<T(!new)>(s: seq<T>, le: (T, T) -> bool)
    requires TotalPreorder(le)
    ensures Sorted(Sort(s, le), le)
    decreases |s|
  {
    if s != [] {
      SortSorted(s[1..], le);
      InsertSorted(s[0], Sort(s[1..], le), le);
    }
  }

  /** Sorting under a total preorder orders the sequence and keeps exactly its elements. */
  lemma SortFacts<T(!new)>(s: seq<T>, le: (T, T) -> bool)
    requires TotalPreorder(le)
    ensures Sorted(Sort(s, le), le)
    ensures forall x :: x in Sort(s, le) <==> x in s
  {
    var r := Sort(s, le);
    SortSorted(s, le);
    forall x ensures x in r <==> x in s {
      assert x in r <==> x in multiset(r);
      assert x in s <==> x in multiset(s);
    }
  }

  /** ... and a duplicate-free sequence stays duplicate-free. */
  lemma SortDistinct<T(!new)>(s: seq<T>, le: (T, T) -> bool)
    requires TotalPreorder(le) && NoDup(s)
    ensures Sorted(Sort(s, le), le)
    ensures NoDup(Sort(s, le))
    ensures forall x :: x in Sort(s, le) <==> x in s
  {
    SortFacts(s, le);
    PermutationNoDup(s, Sort(s, le));
  }

  /** Sorting keeps exactly the elements, whatever the comparator. */
  lemma SortSameElements<T(!new)>(s: seq<T>, le: (T, T) -> bool)
    ensures forall x :: x in Sort(s, le) <==> x in s
  {
    var r := Sort(s, le);
    forall x ensures x in r <==> x in s {
      assert x in r <==> x in multiset(r);
      assert x in s <==> x in multiset(s);
    }
  }

  /** Comparators that agree on the elements involved insert alike. */
  lemma {:induction false} InsertCongruent<T(!new)>(x: T, s: seq<T>, le1: (T, T) -> bool, le2: (T, T) -> bool)
    requires forall y :: y in s ==> le1(x, y) == le2(x, y)
    ensures Insert(x, s, le1) == Insert(x, s, le2)
    decreases |s|
  {
    if s != [] && !le1(x, s[0]) {
      InsertCongruent(x, s[1..], le1, le2);
    }
  }

  /** Comparators that agree on every pair of elements of s sort s alike. */
  lemma {:induction false} SortCongruent<T(!new)>(s: seq<T>, le1: (T, T) -> bool, le2: (T, T) -> bool)
    requires forall x, y :: x in s && y in s ==> le1(x, y) == le2(x, y)
    ensures Sort(s, le1) == Sort(s, le2)
    decreases |s|
  {
    if s != [] {
      SortCongruent(s[1..], le1, le2);
      var r := Sort(s[1..], le1);
      forall y | y in r ensures le1(s[0], y) == le2(s[0], y) {
        assert y in multiset(r);
        assert y in multiset(s[1..]);
      }
      InsertCongruent(s[0], r, le1, le2);
    }
  }

  /** In a sorted sequence every element of a prefix may precede every later element. */
  lemma SortedSplit<T(!new)>(s: seq<T>, k: nat, x: T, y: T, le: (T, T) -> bool)
    requires Sorted(s, le) && k <= |s|
    requires x in s[..k] && y in s[k..]
    ensures le(x, y)
  {
    var i :| 0 <= i < k && s[..k][i] == x;
    var j :| 0 <= j < |s| - k && s[k..][j] == y;
    assert s[i] == x && s[k + j] == y;
  }

  /** Descending order on an integer key, as the comparator (a, b) => key(b) - key(a). */
  function ByKeyDesc<T(!new)>(key: T -> int): (le: (T, T) -> bool)
  {
    (a: T, b: T) => key(a) >= key(b)
  }

  lemma ByKeyDescTotal<T(!new)>(key: T -> int)
    ensures TotalPreorder(ByKeyDesc(key))
  {
  }

  /** Sorting by a descending key puts larger keys first. */
  lemma SortByKeyDesc<T(!new)>(s: seq<T>, key: T -> int)
    ensures forall i, j :: 0 <= i < j < |Sort(s, ByKeyDesc(key))| ==>
              key(Sort(s, ByKeyDesc(key))[i]) >= key(Sort(s, ByKeyDesc(key))[j])
  {
    ByKeyDescTotal(key);
    SortSorted(s, ByKeyDesc(key));
  }

  /** The default sort order on strings (code-unit order), also used for localeCompare. */
  function StrOrder(): (string, string) -> bool {
    (a: string, b: string) => StrLe(a, b)
  }

  lemma StrOrderTotal()
    ensures TotalPreorder(StrOrder())
  {
    forall a: string, b: string ensures StrLe(a, b) || StrLe(b, a) {
      StrLeTotal(a, b);
    }
    forall a: string, b: string, c: string | StrLe(a, b) && StrLe(b, c) ensures StrLe(a, c) {
      StrLeTrans(a, b, c);
    }
  }

  // ---------------------------------------------------------------------------
  // Lexicographic keys: two integers, then a name, then a tie-breaking name

  datatype SortKey = SortKey(major: int, minor: int, name: string, tie: string)

  predicate KeyLe(a: SortKey, b: SortKey) {
    a.major < b.major
    || (a.major == b.major
        && (a.minor < b.minor
            || (a.minor == b.minor
                && (if a.name != b.name then StrLe(a.name, b.name) else StrLe(a.tie, b.tie)))))
  }

  lemma KeyLeTotal(a: SortKey, b: SortKey)
    ensures KeyLe(a, b) || KeyLe(b, a)
  {
    StrLeTotal(a.name, b.name);
    StrLeTotal(a.tie, b.tie);
  }

  lemma KeyLeTrans(a: SortKey, b: SortKey, c: SortKey)
    requires KeyLe(a, b) && KeyLe(b, c)
    ensures KeyLe(a, c)
  {
    if a.major == b.major == c.major && a.minor == b.minor == c.minor {
      if a.name != b.name && b.name != c.name {
        StrLeTrans(a.name, b.name, c.name);
        if a.name == c.name {
          StrLeAntisym(a.name, b.name);
        }
      } else if a.name == b.name && b.name == c.name {
        StrLeTrans(a.tie, b.tie, c.tie);
      }
    }
  }

  /** The order of a key function, as a comparator. */
  function ByKey<T(!new)>(key: T -> SortKey): (le: (T, T) -> bool) {
    (x: T, y: T) => KeyLe(key(x), key(y))
  }

  lemma ByKeyTotal<T(!new)>(key: T -> SortKey)
    ensures TotalPreorder(ByKey(key))
  {
    forall x: T, y: T ensures ByKey(key)(x, y) || ByKey(key)(y, x) {
      KeyLeTotal(key(x), key(y));
    }
    forall x: T, y: T, z: T | ByKey(key)(x, y) && ByKey(key)(y, z) ensures ByKey(key)(x, z) {
      KeyLeTrans(key(x), key(y), key(z));
    }
  }
}
