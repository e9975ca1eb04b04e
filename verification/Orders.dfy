/**
 The dictionary order that Go uses for strings, and what sort.Interface asks of
 a Less function: a strict weak order.
 */
module Orders {

  /** Dictionary order; a proper prefix comes first. */
  predicate LexLess(a: seq<int>, b: seq<int>)
    decreases |a|
  {
    if b == [] then false
    else if a == [] then true
    else if a[0] != b[0] then a[0] < b[0]
    else LexLess(a[1..], b[1..])
  }

  lemma {:induction false} LexIrreflexive(a: seq<int>)
    ensures !LexLess(a, a)
    decreases |a|
  {
    if a != [] { LexIrreflexive(a[1..]); }
  }

  lemma {:induction false} LexTransitive(a: seq<int>, b: seq<int>, c: seq<int>)
    requires LexLess(a, b) && LexLess(b, c)
    ensures LexLess(a, c)
    decreases |a|
  {
    if a != [] && a[0] == b[0] == c[0] { LexTransitive(a[1..], b[1..], c[1..]); }
  }

  lemma {:induction false} LexTotal(a: seq<int>, b: seq<int>)
    ensures a == b || LexLess(a, b) || LexLess(b, a)
    decreases |a|
  {
    if a != [] && b != [] && a[0] == b[0] {
      LexTotal(a[1..], b[1..]);
      assert a == [a[0]] + a[1..] && b == [b[0]] + b[1..];
    }
  }

  lemma {:induction false} LexPrefix(a: seq<int>, b: seq<int>)
    requires a < b
    ensures LexLess(a, b)
    decreases |a|
  {
    if a != [] { LexPrefix(a[1..], b[1..]); }
  }

  function Codes(s: string): seq<int> {
    seq(|s|, i requires 0 <= i < |s| => s[i] as int)
  }

  predicate StringLess(a: string, b: string) {
    LexLess(Codes(a), Codes(b))
  }

  /** Go's < on strings is a strict total order. */
  lemma StringOrder(a: string, b: string)
    ensures !StringLess(a, a)
    ensures StringLess(a, b) ==> !StringLess(b, a)
    ensures a == b || StringLess(a, b) || StringLess(b, a)
  {
    LexIrreflexive(Codes(a));
    LexTotal(Codes(a), Codes(b));
    if StringLess(a, b) && StringLess(b, a) {
      LexTransitive(Codes(a), Codes(b), Codes(a));
    }
    if Codes(a) == Codes(b) {
      assert a == b by {
        forall i | 0 <= i < |a| ensures a[i] == b[i] { assert Codes(a)[i] == Codes(b)[i]; }
      }
    }
  }

  lemma StringTransitive(a: string, b: string, c: string)
    requires StringLess(a, b) && StringLess(b, c)
    ensures StringLess(a, c)
  {
    LexTransitive(Codes(a), Codes(b), Codes(c));
  }

  lemma PrefixIsLess(a: string, b: string)
    requires a < b
    ensures StringLess(a, b)
  {
    assert Codes(a) < Codes(b);
    LexPrefix(Codes(a), Codes(b));
  }

  ghost predicate Irreflexive<T(!new)>(less: (T, T) -> bool) {
    forall a :: !less(a, a)
  }

  ghost predicate Transitive<T(!new)>(less: (T, T) -> bool) {
    forall a, b, c :: less(a, b) && less(b, c) ==> less(a, c)
  }

  predicate Tied<T>(less: (T, T) -> bool, a: T, b: T) {
    !less(a, b) && !less(b, a)
  }

  ghost predicate StrictWeakOrder<T(!new)>(less: (T, T) -> bool) {
    && Irreflexive(less)
    && Transitive(less)
    && forall a, b, c :: Tied(less, a, b) && Tied(less, b, c) ==> Tied(less, a, c)
  }

  /** Comparing by the dictionary order of a rank is a strict weak order whose
      ties are the pairs of equal rank. */
  lemma RankedIsStrictWeak<T(!new)>(less: (T, T) -> bool, rank: T -> seq<int>)
    requires forall a, b :: less(a, b) == LexLess(rank(a), rank(b))
    ensures StrictWeakOrder(less)
    ensures forall a, b :: Tied(less, a, b) <==> rank(a) == rank(b)
  {
    forall a ensures !less(a, a) { LexIrreflexive(rank(a)); }
    forall a, b, c | less(a, b) && less(b, c) ensures less(a, c) { LexTransitive(rank(a), rank(b), rank(c)); }
    forall a, b ensures Tied(less, a, b) <==> rank(a) == rank(b) {
      LexTotal(rank(a), rank(b));
      LexIrreflexive(rank(a));
    }
  }
}
