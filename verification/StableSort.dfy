/**
 Stable sorting by a key, as sort.SliceStable does it. A sorted sequence is
 determined by its subsequences of equal keys, so the function below is the
 result of every stable sorting algorithm.
 */
module StableSort {
  import opened Orders

  ghost predicate TotalOrder<K(!new)>(lt: (K, K) -> bool) {
    && (forall a :: !lt(a, a))
    && (forall a, b, c :: lt(a, b) && lt(b, c) ==> lt(a, c))
    && (forall a, b :: a == b || lt(a, b) || lt(b, a))
  }

  ghost predicate Asymmetric<K(!new)>(lt: (K, K) -> bool) {
    forall a, b :: lt(a, b) ==> !lt(b, a)
  }

  lemma TotalIsAsymmetric<K(!new)>(lt: (K, K) -> bool)
    requires TotalOrder(lt)
    ensures Asymmetric(lt)
  {
    forall a, b | lt(a, b) ensures !lt(b, a) {
      assert lt(b, a) ==> lt(a, a);
    }
  }

  predicate StringGreater(a: string, b: string) {
    StringLess(b, a)
  }

  lemma StringsAreTotallyOrdered()
    ensures TotalOrder(StringLess) && TotalOrder(StringGreater)
  {
    forall a, b
      ensures !StringLess(a, a) && (a == b || StringLess(a, b) || StringLess(b, a))
    {
      StringOrder(a, b);
    }
    forall a, b, c | StringLess(a, b) && StringLess(b, c) ensures StringLess(a, c) { StringTransitive(a, b, c); }
  }

  ghost predicate Sorted<T, K>(lt: (K, K) -> bool, key: T -> K, s: seq<T>) {
    forall i, j :: 0 <= i < j < |s| ==> !lt(key(s[j]), key(s[i]))
  }

  // ---------------------------------------------------- elements of one key

  /** The elements with key `k`, in order. */
  function Select<T, K(==)>(key: T -> K, s: seq<T>, k: K): seq<T> {
    if s == [] then []
    else (if key(s[0]) == k then [s[0]] else []) + Select(key, s[1..], k)
  }

  lemma SelectCons<T, K>(key: T -> K, x: T, s: seq<T>, k: K)
    ensures Select(key, [x] + s, k) == (if key(x) == k then [x] else []) + Select(key, s, k)
  {
    assert ([x] + s)[1..] == s;
  }

  lemma {:induction false} SelectMember<T, K>(key: T -> K, s: seq<T>, k: K)
    ensures forall x :: x in Select(key, s, k) <==> x in s && key(x) == k
  {
    if s != [] {
      SelectMember(key, s[1..], k);
      assert s == [s[0]] + s[1..];
    }
  }

  lemma {:induction false} SelectConcat<T, K>(key: T -> K, a: seq<T>, b: seq<T>, k: K)
    ensures Select(key, a + b, k) == Select(key, a, k) + Select(key, b, k)
  {
    if a == [] {
      assert a + b == b;
    } else {
      SelectConcat(key, a[1..], b, k);
      assert a + b == [a[0]] + (a[1..] + b);
      SelectCons(key, a[0], a[1..] + b, k);
      var head, x, y := if key(a[0]) == k then [a[0]] else [], Select(key, a[1..], k), Select(key, b, k);
      assert head + (x + y) == (head + x) + y;
    }
  }

  // ---------------------------------------------------------------- sorting

  function Insert<T, K>(lt: (K, K) -> bool, key: T -> K, x: T, s: seq<T>): (r: seq<T>)
    ensures multiset(r) == multiset{x} + multiset(s)
  {
    if s == [] || !lt(key(s[0]), key(x)) then [x] + s
    else
      assert s == [s[0]] + s[1..];
      [s[0]] + Insert(lt, key, x, s[1..])
  }

  function Sort<T, K>(lt: (K, K) -> bool, key: T -> K, s: seq<T>): (r: seq<T>)
    ensures multiset(r) == multiset(s)
  {
    if s == [] then []
    else
      assert s == [s[0]] + s[1..];
      Insert(lt, key, s[0], Sort(lt, key, s[1..]))
  }

  lemma {:induction false} InsertSorted<T, K(!new)>(lt: (K, K) -> bool, key: T -> K, x: T, s: seq<T>)
    requires TotalOrder(lt) && Sorted(lt, key, s)
    ensures Sorted(lt, key, Insert(lt, key, x, s))
  {
    if s != [] && lt(key(s[0]), key(x)) {
      InsertSorted(lt, key, x, s[1..]);
      var r := Insert(lt, key, x, s[1..]);
      forall i | 0 <= i < |r| ensures !lt(key(r[i]), key(s[0])) {
        assert r[i] in multiset(r);
        if r[i] != x {
          assert r[i] in multiset(s[1..]);
          var j :| 0 <= j < |s[1..]| && s[1..][j] == r[i];
          assert s[j + 1] == r[i];
        }
      }
    }
  }

  lemma {:induction false} InsertSelects<T, K>(lt: (K, K) -> bool, key: T -> K, x: T, s: seq<T>, k: K)
    requires !lt(key(x), key(x))
    ensures Select(key, Insert(lt, key, x, s), k) == (if key(x) == k then [x] else []) + Select(key, s, k)
  {
    if s == [] || !lt(key(s[0]), key(x)) {
      SelectCons(key, x, s, k);
    } else {
      InsertSelects(lt, key, x, s[1..], k);
      SelectCons(key, s[0], Insert(lt, key, x, s[1..]), k);
    }
  }

  /** Sorting sorts and keeps the order of elements with equal keys. */
  lemma {:induction false} SortIsStable<T, K(!new)>(lt: (K, K) -> bool, key: T -> K, s: seq<T>)
    requires TotalOrder(lt)
    ensures Sorted(lt, key, Sort(lt, key, s))
    ensures forall k :: Select(key, Sort(lt, key, s), k) == Select(key, s, k)
  {
    if s != [] {
      var r := Sort(lt, key, s[1..]);
      SortIsStable(lt, key, s[1..]);
      InsertSorted(lt, key, s[0], r);
      forall k ensures Select(key, Sort(lt, key, s), k) == Select(key, s, k) {
        InsertSelects(lt, key, s[0], r, k);
      }
    }
  }

  /** Two sorted sequences with the same elements, in the same order, for every key are equal. */
  lemma {:induction false} SortedUnique<T, K(!new)>(lt: (K, K) -> bool, key: T -> K, a: seq<T>, b: seq<T>)
    requires TotalOrder(lt) && Sorted(lt, key, a) && Sorted(lt, key, b)
    requires forall k :: Select(key, a, k) == Select(key, b, k)
    ensures a == b
    decreases |a|
  {
    SameElements(key, a, b);
    SameElements(key, b, a);
    if a != [] && b != [] {
      FirstNotAfter(lt, key, a, b);
      FirstNotAfter(lt, key, b, a);
      var k := key(a[0]);
      assert key(b[0]) == k;
      assert Select(key, a, k)[0] == a[0] && Select(key, b, k)[0] == b[0];
      forall l ensures Select(key, a[1..], l) == Select(key, b[1..], l) {
        assert Select(key, a, l) == Select(key, b, l);
        var n := if l == k then 1 else 0;
        assert Select(key, a[1..], l) == Select(key, a, l)[n..];
        assert Select(key, b[1..], l) == Select(key, b, l)[n..];
      }
      SortedUnique(lt, key, a[1..], b[1..]);
      assert a == [a[0]] + a[1..] && b == [b[0]] + b[1..];
    }
  }

  lemma SameElements<T, K(!new)>(key: T -> K, a: seq<T>, b: seq<T>)
    requires forall k :: Select(key, a, k) == Select(key, b, k)
    ensures forall i :: 0 <= i < |a| ==> a[i] in b
    ensures a != [] ==> b != []
  {
    forall i | 0 <= i < |a| ensures a[i] in b {
      SelectMember(key, a, key(a[i]));
      SelectMember(key, b, key(a[i]));
      assert a[i] in Select(key, a, key(a[i]));
    }
    if a != [] { assert a[0] in b; }
  }

  lemma FirstNotAfter<T, K(!new)>(lt: (K, K) -> bool, key: T -> K, a: seq<T>, b: seq<T>)
    requires TotalOrder(lt) && Sorted(lt, key, a) && a != [] && b != []
    requires forall k :: Select(key, a, k) == Select(key, b, k)
    ensures !lt(key(b[0]), key(a[0]))
  {
    SameElements(key, b, a);
    var i :| 0 <= i < |a| && a[i] == b[0];
  }

  // ---------------------------------------------------------- distinct keys

  ghost predicate DistinctKeys<T, K>(key: T -> K, s: seq<T>) {
    forall i, j :: 0 <= i < j < |s| ==> key(s[i]) != key(s[j])
  }

  lemma {:induction false} DistinctCount<T, K>(key: T -> K, s: seq<T>, x: T)
    requires DistinctKeys(key, s)
    ensures multiset(s)[x] == if x in s then 1 else 0
  {
    if s != [] {
      DistinctCount(key, s[1..], x);
      assert s == [s[0]] + s[1..];
    }
  }

  lemma SameMultiset<T(!new), K>(key: T -> K, a: seq<T>, b: seq<T>)
    requires DistinctKeys(key, a) && DistinctKeys(key, b) && forall x :: x in a <==> x in b
    ensures multiset(a) == multiset(b)
  {
    forall x ensures multiset(a)[x] == multiset(b)[x] {
      DistinctCount(key, a, x);
      DistinctCount(key, b, x);
    }
  }

  lemma RepeatedCounts<T>(a: seq<T>, i: nat, j: nat)
    requires i < j < |a|
    ensures a[i] == a[j] ==> multiset(a)[a[i]] >= 2
  {
    assert a == a[..j] + [a[j]] + a[j + 1..];
    assert a[..j][i] == a[i];
  }

  lemma PermutedDistinct<T, K>(key: T -> K, a: seq<T>, b: seq<T>)
    requires multiset(a) == multiset(b) && DistinctKeys(key, b)
    ensures DistinctKeys(key, a)
  {
    forall i, j | 0 <= i < j < |a| ensures key(a[i]) != key(a[j]) {
      assert a[i] in multiset(b) && a[j] in multiset(b);
      var k :| 0 <= k < |b| && b[k] == a[i];
      var l :| 0 <= l < |b| && b[l] == a[j];
      DistinctCount(key, b, a[i]);
      RepeatedCounts(a, i, j);
    }
  }

  ghost predicate StrictlySorted<T, K>(lt: (K, K) -> bool, key: T -> K, s: seq<T>) {
    forall i, j :: 0 <= i < j < |s| ==> lt(key(s[i]), key(s[j]))
  }

  lemma SortedDistinctIsStrict<T, K(!new)>(lt: (K, K) -> bool, key: T -> K, s: seq<T>)
    requires TotalOrder(lt) && Sorted(lt, key, s) && DistinctKeys(key, s)
    ensures StrictlySorted(lt, key, s)
  {
  }

  /** Strictly sorted sequences of the same elements are equal. */
  lemma {:induction false} StrictUnique<T, K(!new)>(lt: (K, K) -> bool, key: T -> K, a: seq<T>, b: seq<T>)
    requires Asymmetric(lt) && StrictlySorted(lt, key, a) && StrictlySorted(lt, key, b) && multiset(a) == multiset(b)
    ensures a == b
  {
    assert |a| == |multiset(a)| == |multiset(b)| == |b|;
    if a != [] {
      StrictFirst(lt, key, a, b);
      assert a == [a[0]] + a[1..] && b == [b[0]] + b[1..];
      assert multiset(a[1..]) == multiset(a) - multiset{a[0]} && multiset(b[1..]) == multiset(b) - multiset{b[0]};
      StrictUnique(lt, key, a[1..], b[1..]);
    }
  }

  lemma StrictFirst<T, K(!new)>(lt: (K, K) -> bool, key: T -> K, a: seq<T>, b: seq<T>)
    requires Asymmetric(lt) && StrictlySorted(lt, key, a) && StrictlySorted(lt, key, b)
    requires multiset(a) == multiset(b) && a != [] && b != []
    ensures a[0] == b[0]
  {
    assert a[0] in multiset(b) && b[0] in multiset(a);
    var i :| 0 <= i < |b| && b[i] == a[0];
    var j :| 0 <= j < |a| && a[j] == b[0];
  }
}
