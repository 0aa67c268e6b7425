/** Order-preserving filters and Python's sorting semantics.

    Python's list.sort, sorted() and pandas' multi-column sort_values are
    stable: items whose keys tie keep their input order, and reverse=True
    keeps ties in input order too. SortBy below is a stable insertion sort,
    and SortByIsTheStableSort shows that every stable sort of a sequence
    yields exactly SortBy's output, so the model does not depend on which
    algorithm the library uses. */
module Ordering {

  // ---------------------------------------------------------------- filters

  /** The order-preserving subsequence of s whose elements satisfy p. */
  function Filter<T>(s: seq<T>, p: T -> bool): seq<T> {
    if s == [] then [] else (if p(s[0]) then [s[0]] else []) + Filter(s[1..], p)
  }

  /** Filter keeps exactly the elements satisfying p, and drops none of them. */
  lemma {:induction false} FilterMembers<T>(s: seq<T>, p: T -> bool)
    ensures |Filter(s, p)| <= |s|
    ensures forall i :: 0 <= i < |Filter(s, p)| ==> Filter(s, p)[i] in s && p(Filter(s, p)[i])
    ensures forall i :: 0 <= i < |s| && p(s[i]) ==> s[i] in Filter(s, p)
  {
    if s != [] {
      FilterMembers(s[1..], p);
      var head := if p(s[0]) then [s[0]] else [];
      assert Filter(s, p) == head + Filter(s[1..], p);
      forall i | 0 <= i < |s| && p(s[i]) ensures s[i] in Filter(s, p) {
        if i > 0 { assert s[i] == s[1..][i - 1]; }
      }
    }
  }

  lemma {:induction false} FilterConcat<T>(a: seq<T>, b: seq<T>, p: T -> bool)
    ensures Filter(a + b, p) == Filter(a, p) + Filter(b, p)
  {
    if a == [] {
      assert a + b == b;
    } else {
      var head := if p(a[0]) then [a[0]] else [];
      var fa, fb := Filter(a[1..], p), Filter(b, p);
      assert Filter(a + b, p) == head + Filter(a[1..] + b, p) by {
        assert (a + b)[0] == a[0];
        assert (a + b)[1..] == a[1..] + b;
      }
      FilterConcat(a[1..], b, p);
      assert head + (fa + fb) == (head + fa) + fb;
    }
  }

  /** An element is kept exactly when it occurs and satisfies p. */
  lemma {:induction false} FilterIn<T>(s: seq<T>, p: T -> bool)
    ensures forall x :: x in Filter(s, p) <==> x in s && p(x)
  {
    if s != [] {
      FilterIn(s[1..], p);
      assert s == [s[0]] + s[1..];
    }
  }

  lemma {:induction false} FilterAll<T>(s: seq<T>, p: T -> bool)
    requires forall i :: 0 <= i < |s| ==> p(s[i])
    ensures Filter(s, p) == s
  {
    if s != [] { FilterAll(s[1..], p); }
  }

  /** Filtering by a predicate and by its negation splits the sequence into
      two parts that together hold every element exactly once. */
  lemma {:induction false} FilterPartition<T>(s: seq<T>, p: T -> bool, q: T -> bool)
    requires forall x :: q(x) == !p(x)
    ensures multiset(Filter(s, p)) + multiset(Filter(s, q)) == multiset(s)
    ensures |Filter(s, p)| + |Filter(s, q)| == |s|
  {
    if s != [] {
      FilterPartition(s[1..], p, q);
      assert s == [s[0]] + s[1..];
    }
  }

  // ---------------------------------------------------------------- distinct

  predicate Distinct<T(==)>(s: seq<T>) {
    forall i, j :: 0 <= i < j < |s| ==> s[i] != s[j]
  }

  /** Appending an element not yet present keeps the elements distinct. */
  lemma DistinctSnoc<T>(s: seq<T>, x: T)
    requires Distinct(s) && x !in s
    ensures Distinct(s + [x])
  {
  }

  lemma {:induction false} DistinctCounts<T>(s: seq<T>)
    ensures Distinct(s) <==> forall x :: multiset(s)[x] <= 1
  {
    if s != [] {
      DistinctCounts(s[1..]);
      assert s == [s[0]] + s[1..];
      if Distinct(s) {
        assert s[0] !in s[1..];
        assert Distinct(s[1..]);
      }
      if forall x :: multiset(s)[x] <= 1 {
        assert multiset(s[1..])[s[0]] == 0;
        assert forall x :: multiset(s[1..])[x] <= multiset(s)[x];
        forall i, j | 0 <= i < j < |s| ensures s[i] != s[j] {
          if i == 0 {
            assert s[j] in s[1..];
          } else {
            assert s[1..][i - 1] != s[1..][j - 1];
          }
        }
      }
    }
  }

  /** Rearranging a sequence without repetitions yields one without repetitions. */
  lemma PermutationKeepsDistinct<T>(a: seq<T>, b: seq<T>)
    requires multiset(a) == multiset(b) && Distinct(a)
    ensures Distinct(b)
  {
    DistinctCounts(a);
    DistinctCounts(b);
  }

  // ---------------------------------------------------------------- orders

  /** A comparison usable as Python sort key order: total and transitive
      (ties allowed). */
  ghost predicate TotalPreorder<T(!new)>(le: (T, T) -> bool) {
    && (forall a, b :: le(a, b) || le(b, a))
    && (forall a, b, c :: le(a, b) && le(b, c) ==> le(a, c))
  }

  ghost predicate StrictTotalOrder<T(!new)>(lt: (T, T) -> bool) {
    && (forall a :: !lt(a, a))
    && (forall a, b, c :: lt(a, b) && lt(b, c) ==> lt(a, c))
    && (forall a, b :: a != b ==> lt(a, b) || lt(b, a))
  }

  predicate Sorted<T>(s: seq<T>, le: (T, T) -> bool) {
    forall i, j :: 0 <= i < j < |s| ==> le(s[i], s[j])
  }

  /** The comparison of reverse=True: Python sorts as if every comparison
      were reversed, and still keeps ties in input order. */
  function Flip<T>(le: (T, T) -> bool): (T, T) -> bool {
    (a: T, b: T) => le(b, a)
  }

  lemma FlipTotalPreorder<T(!new)>(le: (T, T) -> bool)
    requires TotalPreorder(le)
    ensures TotalPreorder(Flip(le))
  {
  }

  predicate Equivalent<T>(a: T, b: T, le: (T, T) -> bool) { le(a, b) && le(b, a) }

  /** The elements of s whose key ties with y's, in their order in s. */
  function Peers<T>(s: seq<T>, y: T, le: (T, T) -> bool): seq<T> {
    if s == [] then []
    else (if Equivalent(s[0], y, le) then [s[0]] else []) + Peers(s[1..], y, le)
  }

  /** A stable sort: the output is sorted and every class of tying elements
      appears in the order it had in the input. */
  ghost predicate IsStableSortOf<T(!new)>(r: seq<T>, s: seq<T>, le: (T, T) -> bool) {
    && multiset(r) == multiset(s)
    && Sorted(r, le)
    && forall y :: Peers(r, y, le) == Peers(s, y, le)
  }

  // ---------------------------------------------------------------- stable insertion sort

  /** Inserts x before the first element it does not exceed. */
  function Insert<T>(x: T, s: seq<T>, le: (T, T) -> bool): seq<T> {
    if s == [] then [x]
    else if le(x, s[0]) then [x] + s
    else [s[0]] + Insert(x, s[1..], le)
  }

  function SortBy<T>(s: seq<T>, le: (T, T) -> bool): seq<T> {
    if s == [] then [] else Insert(s[0], SortBy(s[1..], le), le)
  }

  lemma {:induction false} InsertPermutation<T>(x: T, s: seq<T>, le: (T, T) -> bool)
    ensures multiset(Insert(x, s, le)) == multiset{x} + multiset(s)
  {
    if s != [] && !le(x, s[0]) {
      InsertPermutation(x, s[1..], le);
      assert s == [s[0]] + s[1..];
    }
  }

  lemma {:induction false} InsertSorted<T(!new)>(x: T, s: seq<T>, le: (T, T) -> bool)
    requires TotalPreorder(le) && Sorted(s, le)
    ensures Sorted(Insert(x, s, le), le)
  {
    if s != [] && !le(x, s[0]) {
      InsertSorted(x, s[1..], le);
      InsertPermutation(x, s[1..], le);
      var r := Insert(x, s, le);
      var tail := Insert(x, s[1..], le);
      assert r == [s[0]] + tail;
      forall j | 0 < j < |r| ensures le(s[0], r[j]) {
        assert r[j] in multiset(tail);
        assert r[j] == x || r[j] in s[1..];
      }
    }
  }

  lemma {:induction false} InsertPeers<T(!new)>(x: T, s: seq<T>, y: T, le: (T, T) -> bool)
    requires TotalPreorder(le)
    ensures Peers(Insert(x, s, le), y, le) ==
      (if Equivalent(x, y, le) then [x] + Peers(s, y, le) else Peers(s, y, le))
  {
    if s == [] {
    } else if le(x, s[0]) {
      assert Insert(x, s, le)[1..] == s;
    } else {
      InsertPeers(x, s[1..], y, le);
      var r := Insert(x, s, le);
      assert r[1..] == Insert(x, s[1..], le);
      if Equivalent(x, y, le) {
        assert !Equivalent(s[0], y, le);
      }
    }
  }

  lemma {:induction false} SortByPermutation<T>(s: seq<T>, le: (T, T) -> bool)
    ensures multiset(SortBy(s, le)) == multiset(s)
  {
    if s != [] {
      SortByPermutation(s[1..], le);
      InsertPermutation(s[0], SortBy(s[1..], le), le);
      assert s == [s[0]] + s[1..];
    }
  }

  lemma {:induction false} SortBySorted<T(!new)>(s: seq<T>, le: (T, T) -> bool)
    requires TotalPreorder(le)
    ensures Sorted(SortBy(s, le), le)
  {
    if s != [] {
      SortBySorted(s[1..], le);
      InsertSorted(s[0], SortBy(s[1..], le), le);
    }
  }

  lemma {:induction false} SortByPeers<T(!new)>(s: seq<T>, y: T, le: (T, T) -> bool)
    requires TotalPreorder(le)
    ensures Peers(SortBy(s, le), y, le) == Peers(s, y, le)
  {
    if s != [] {
      SortByPeers(s[1..], y, le);
      InsertPeers(s[0], SortBy(s[1..], le), y, le);
    }
  }

  /** SortBy is a stable sort: a sorted permutation of its input that keeps
      every class of ties in input order. */
  lemma SortByIsStable<T(!new)>(s: seq<T>, le: (T, T) -> bool)
    requires TotalPreorder(le)
    ensures IsStableSortOf(SortBy(s, le), s, le)
  {
    SortByPermutation(s, le);
    SortBySorted(s, le);
    forall y ensures Peers(SortBy(s, le), y, le) == Peers(s, y, le) {
      SortByPeers(s, y, le);
    }
  }

  lemma {:induction false} PeersOfSortedHead<T(!new)>(r: seq<T>, le: (T, T) -> bool)
    requires TotalPreorder(le) && Sorted(r, le) && r != []
    ensures forall y :: (Peers(r[1..], y, le) ==
      if Equivalent(r[0], y, le) then Peers(r, y, le)[1..] else Peers(r, y, le))
  {
  }

  lemma {:induction false} PeersNonEmpty<T(!new)>(r: seq<T>, y: T, le: (T, T) -> bool)
    requires Peers(r, y, le) != []
    ensures exists k :: 0 <= k < |r| && Equivalent(r[k], y, le) && r[k] == Peers(r, y, le)[0]
  {
    if !Equivalent(r[0], y, le) {
      PeersNonEmpty(r[1..], y, le);
      var k :| 0 <= k < |r[1..]| && Equivalent(r[1..][k], y, le) && r[1..][k] == Peers(r[1..], y, le)[0];
      assert r[k + 1] == r[1..][k];
    }
  }

  /** Two sorted sequences in which every class of ties appears in the same
      order are equal. */
  lemma {:induction false} SortedWithSamePeersAreEqual<T(!new)>(r: seq<T>, t: seq<T>, le: (T, T) -> bool)
    requires TotalPreorder(le) && Sorted(r, le) && Sorted(t, le)
    requires forall y :: Peers(r, y, le) == Peers(t, y, le)
    ensures r == t
    decreases |r| + |t|
  {
    // a nonempty side has a nonempty class of ties for its head
    if r != [] { assert Peers(r, r[0], le) != []; }
    if t != [] { assert Peers(t, t[0], le) != []; }
    if r == [] && t == [] {
    } else if r == [] || t == [] {
      assert false;
    } else {
      SameHeads(r, t, le);
      SortedWithSamePeersAreEqual(r[1..], t[1..], le);
      assert r == [r[0]] + r[1..] && t == [t[0]] + t[1..];
    }
  }

  /** The step of SortedWithSamePeersAreEqual: the heads are equal, and the
      tails again have the same classes of ties. */
  lemma SameHeads<T(!new)>(r: seq<T>, t: seq<T>, le: (T, T) -> bool)
    requires TotalPreorder(le) && Sorted(r, le) && Sorted(t, le)
    requires forall y :: Peers(r, y, le) == Peers(t, y, le)
    requires r != [] && t != []
    ensures r[0] == t[0]
    ensures Sorted(r[1..], le) && Sorted(t[1..], le)
    ensures forall y :: Peers(r[1..], y, le) == Peers(t[1..], y, le)
  {
    // the heads tie, and then each is the first of its class in both
    assert Peers(r, r[0], le)[0] == r[0];
    assert Peers(t, t[0], le)[0] == t[0];
    PeersNonEmpty(t, r[0], le);
    PeersNonEmpty(r, t[0], le);
    assert Equivalent(r[0], t[0], le);
    assert Peers(t, r[0], le)[0] == t[0];
    PeersOfSortedHead(r, le);
    PeersOfSortedHead(t, le);
    forall y ensures Peers(r[1..], y, le) == Peers(t[1..], y, le) {
      if Equivalent(r[0], y, le) {
        assert Equivalent(t[0], y, le);
      } else {
        assert !Equivalent(t[0], y, le);
      }
    }
  }

  /** Any stable sort of s (Python's Timsort, pandas' lexsort, ...) yields
      exactly SortBy(s, le). */
  lemma SortByIsTheStableSort<T(!new)>(r: seq<T>, s: seq<T>, le: (T, T) -> bool)
    requires TotalPreorder(le) && IsStableSortOf(r, s, le)
    ensures r == SortBy(s, le)
  {
    SortByIsStable(s, le);
    SortedWithSamePeersAreEqual(r, SortBy(s, le), le);
  }

  /** sorted(some_set, key=...): the elements of a set, each once, in key
      order. Which of two tying elements comes first follows the set's
      iteration order, which the program does not control; the loop below
      picks the elements in an arbitrary order for that reason. */
  method SortedElements<T(!new)>(s: set<T>, le: (T, T) -> bool) returns (r: seq<T>)
    requires TotalPreorder(le)
    ensures Sorted(r, le) && Distinct(r)
    ensures forall x :: x in r <==> x in s
    ensures |r| == |s|
  {
    var rest := s;
    var enumerated: seq<T> := [];
    while rest != {}
      invariant rest <= s
      invariant forall x :: x in enumerated <==> x in s - rest
      invariant Distinct(enumerated)
      invariant |enumerated| + |rest| == |s|
      decreases rest
    {
      var x :| x in rest;
      enumerated := enumerated + [x];
      rest := rest - {x};
    }
    r := SortBy(enumerated, le);
    SortByIsStable(enumerated, le);
    PermutationKeepsDistinct(enumerated, r);
    assert |r| == |multiset(r)| == |multiset(enumerated)| == |enumerated|;
    forall x ensures x in r <==> x in s {
      assert x in r <==> x in multiset(r);
      assert x in enumerated <==> x in multiset(enumerated);
    }
  }

  // ---------------------------------------------------------------- lexicographic order

  /** Python's `<` on two lists (or two strings): the first position where
      they differ decides, and a proper prefix is smaller. */
  function LexLess<T(==)>(a: seq<T>, b: seq<T>, lt: (T, T) -> bool): bool {
    if a == [] then b != []
    else if b == [] then false
    else if a[0] == b[0] then LexLess(a[1..], b[1..], lt)
    else lt(a[0], b[0])
  }

  lemma {:induction false} LexIrreflexive<T(!new)>(a: seq<T>, lt: (T, T) -> bool)
    ensures !LexLess(a, a, lt)
  {
    if a != [] { LexIrreflexive(a[1..], lt); }
  }

  lemma {:induction false} LexTransitive<T(!new)>(a: seq<T>, b: seq<T>, c: seq<T>, lt: (T, T) -> bool)
    requires StrictTotalOrder(lt)
    requires LexLess(a, b, lt) && LexLess(b, c, lt)
    ensures LexLess(a, c, lt)
  {
    if a != [] && a[0] == b[0] && b[0] == c[0] {
      LexTransitive(a[1..], b[1..], c[1..], lt);
    }
  }

  lemma {:induction false} LexTrichotomy<T(!new)>(a: seq<T>, b: seq<T>, lt: (T, T) -> bool)
    requires StrictTotalOrder(lt)
    ensures a == b || LexLess(a, b, lt) || LexLess(b, a, lt)
  {
    if a != [] && b != [] && a[0] == b[0] {
      LexTrichotomy(a[1..], b[1..], lt);
      if a[1..] == b[1..] {
        assert a == [a[0]] + a[1..] && b == [b[0]] + b[1..];
      }
    }
  }

  lemma LexAsymmetric<T(!new)>(a: seq<T>, b: seq<T>, lt: (T, T) -> bool)
    requires StrictTotalOrder(lt)
    ensures !(LexLess(a, b, lt) && LexLess(b, a, lt))
  {
    if LexLess(a, b, lt) && LexLess(b, a, lt) {
      LexTransitive(a, b, a, lt);
      LexIrreflexive(a, lt);
    }
  }

  /** The non-strict comparison Python derives from a lexicographic `<`. */
  function LexLe<T(==)>(lt: (T, T) -> bool): (seq<T>, seq<T>) -> bool {
    (a: seq<T>, b: seq<T>) => !LexLess(b, a, lt)
  }

  /** Lexicographic comparison over a strict total order is a total order:
      total, transitive and antisymmetric. */
  lemma LexLeTotalOrder<T(!new)>(lt: (T, T) -> bool)
    requires StrictTotalOrder(lt)
    ensures TotalPreorder(LexLe(lt))
    ensures forall a, b :: LexLe(lt)(a, b) && LexLe(lt)(b, a) ==> a == b
  {
    var le := LexLe(lt);
    forall a, b ensures le(a, b) || le(b, a) {
      LexAsymmetric(a, b, lt);
    }
    forall a, b, c | le(a, b) && le(b, c) ensures le(a, c) {
      if LexLess(c, a, lt) {
        LexTrichotomy(a, b, lt);
        if LexLess(a, b, lt) {
          LexTransitive(c, a, b, lt);
        }
      }
    }
    forall a, b | le(a, b) && le(b, a) ensures a == b {
      LexTrichotomy(a, b, lt);
    }
  }

  /** Sorting by a key: comparing keys with a total preorder orders the
      values by a total preorder. */
  lemma KeyedTotalPreorder<T(!new), K(!new)>(key: T -> K, le: (K, K) -> bool)
    requires TotalPreorder(le)
    ensures TotalPreorder((a: T, b: T) => le(key(a), key(b)))
  {
  }

  // ---------------------------------------------------------------- strings

  function CharLess(a: char, b: char): bool { a < b }

  /** Python's `<` on str: code point by code point. */
  function StrLess(a: string, b: string): bool { LexLess(a, b, CharLess) }

  function StrLe(a: string, b: string): bool { !StrLess(b, a) }

  lemma CharLessStrictTotal()
    ensures StrictTotalOrder(CharLess)
  {
  }

  /** String comparison is a total order: total, transitive and
      antisymmetric, so equal keys are equal strings. */
  lemma StrLeTotalOrder()
    ensures TotalPreorder(StrLe)
    ensures forall a, b :: StrLe(a, b) && StrLe(b, a) ==> a == b
  {
    CharLessStrictTotal();
    LexLeTotalOrder(CharLess);
    assert forall a, b :: StrLe(a, b) == LexLe(CharLess)(a, b);
  }
}
