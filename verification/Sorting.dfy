/** Sorting a list by a string key, as a stable sort does it, and the one fact about
    it that canonicalisation rests on: under a key that tells the elements apart, the
    sorted arrangement of a multiset is unique. */
module Sorting {

  /** Code-point order of strings. */
  predicate Le(a: string, b: string) {
    a == "" || (b != "" && (a[0] < b[0] || (a[0] == b[0] && Le(a[1..], b[1..]))))
  }

  lemma {:induction false} LeTotal(a: string, b: string)
    ensures Le(a, b) || Le(b, a)
  {
    if a != "" && b != "" && a[0] == b[0] {
      LeTotal(a[1..], b[1..]);
    }
  }

  lemma {:induction false} LeAntisymmetric(a: string, b: string)
    requires Le(a, b) && Le(b, a)
    ensures a == b
  {
    if a != "" && b != "" {
      LeAntisymmetric(a[1..], b[1..]);
      assert a == [a[0]] + a[1..];
      assert b == [b[0]] + b[1..];
    }
  }

  lemma {:induction false} LeTransitive(a: string, b: string, c: string)
    requires Le(a, b) && Le(b, c)
    ensures Le(a, c)
  {
    if a != "" && a[0] == b[0] && b[0] == c[0] {
      LeTransitive(a[1..], b[1..], c[1..]);
    }
  }

  /** One string comes before another at their first difference, or as its prefix. */
  lemma {:induction false} LeIsLexicographic(a: string, b: string)
    ensures Le(a, b) <==> a <= b || exists k | 0 <= k < |a| && k < |b| :: a[..k] == b[..k] && a[k] < b[k]
  {
    if a != "" && b != "" {
      if a[0] == b[0] {
        LeIsLexicographic(a[1..], b[1..]);
        if k :| 0 <= k < |a| - 1 && k < |b| - 1 && a[1..][..k] == b[1..][..k] && a[1..][k] < b[1..][k] {
          assert a[..k + 1] == [a[0]] + a[1..][..k] && b[..k + 1] == [b[0]] + b[1..][..k];
        }
        if k :| 0 <= k < |a| && k < |b| && a[..k] == b[..k] && a[k] < b[k] {
          assert a[1..][..k - 1] == a[..k][1..] && b[1..][..k - 1] == b[..k][1..];
          assert a[1..][k - 1] == a[k] && b[1..][k - 1] == b[k];
        }
        assert a <= b <==> a[1..] <= b[1..] by {
          assert a == [a[0]] + a[1..] && b == [b[0]] + b[1..];
        }
      } else if a[0] < b[0] {
        assert a[..0] == b[..0];
      }
    }
  }

  type Key<!T> = T -> string

  function Insert<T>(key: Key<T>, x: T, xs: seq<T>): seq<T> {
    if xs == [] || Le(key(x), key(xs[0])) then [x] + xs else [xs[0]] + Insert(key, x, xs[1..])
  }

  function SortBy<T>(key: Key<T>, xs: seq<T>): seq<T> {
    if xs == [] then [] else Insert(key, xs[0], SortBy(key, xs[1..]))
  }

  predicate SortedBy<T>(key: Key<T>, xs: seq<T>) {
    forall i, j | 0 <= i < j < |xs| :: Le(key(xs[i]), key(xs[j]))
  }

  /** The key tells apart the elements of `xs`. */
  predicate Distinguishes<T(==)>(key: Key<T>, xs: seq<T>) {
    forall i, j | 0 <= i < |xs| && 0 <= j < |xs| && key(xs[i]) == key(xs[j]) :: xs[i] == xs[j]
  }

  lemma {:induction false} InsertKeeps<T>(key: Key<T>, x: T, xs: seq<T>)
    ensures multiset(Insert(key, x, xs)) == multiset{x} + multiset(xs)
  {
    if xs != [] && !Le(key(x), key(xs[0])) {
      InsertKeeps(key, x, xs[1..]);
      assert xs == [xs[0]] + xs[1..];
    }
  }

  lemma {:induction false} InsertSorted<T>(key: Key<T>, x: T, xs: seq<T>)
    requires SortedBy(key, xs)
    ensures SortedBy(key, Insert(key, x, xs))
  {
    if xs != [] {
      if Le(key(x), key(xs[0])) {
        forall i | 0 <= i < |xs| ensures Le(key(x), key(xs[i])) {
          if i > 0 {
            LeTransitive(key(x), key(xs[0]), key(xs[i]));
          }
        }
      } else {
        LeTotal(key(x), key(xs[0]));
        InsertSorted(key, x, xs[1..]);
        InsertKeeps(key, x, xs[1..]);
        var rest := Insert(key, x, xs[1..]);
        forall i | 0 <= i < |rest| ensures Le(key(xs[0]), key(rest[i])) {
          assert rest[i] in multiset(rest);
          assert rest[i] == x || rest[i] in xs[1..];
        }
      }
    }
  }

  /** Sorting rearranges, and the result is in order. */
  lemma {:induction false} SortSorts<T>(key: Key<T>, xs: seq<T>)
    ensures multiset(SortBy(key, xs)) == multiset(xs)
    ensures SortedBy(key, SortBy(key, xs))
  {
    if xs != [] {
      SortSorts(key, xs[1..]);
      InsertKeeps(key, xs[0], SortBy(key, xs[1..]));
      InsertSorted(key, xs[0], SortBy(key, xs[1..]));
      assert xs == [xs[0]] + xs[1..];
    }
  }

  lemma FirstIsLeast<T>(key: Key<T>, a: seq<T>, b: seq<T>)
    requires multiset(a) == multiset(b) && a != [] && b != []
    requires SortedBy(key, a)
    ensures Le(key(a[0]), key(b[0]))
  {
    assert b[0] in multiset(a);
    var i :| 0 <= i < |a| && a[i] == b[0];
    LeTotal(key(a[0]), key(a[0]));
  }

  lemma HeadsAgree<T>(key: Key<T>, a: seq<T>, b: seq<T>)
    requires multiset(a) == multiset(b) && a != [] && b != []
    requires SortedBy(key, a) && SortedBy(key, b)
    requires Distinguishes(key, a)
    ensures a[0] == b[0]
  {
    FirstIsLeast(key, a, b);
    FirstIsLeast(key, b, a);
    LeAntisymmetric(key(a[0]), key(b[0]));
    assert b[0] in multiset(a);
  }

  lemma RestOf<T>(a: seq<T>)
    requires a != []
    ensures multiset(a[1..]) == multiset(a) - multiset{a[0]}
  {
    assert a == [a[0]] + a[1..];
  }

  lemma TailSorted<T>(key: Key<T>, a: seq<T>)
    requires SortedBy(key, a) && a != []
    ensures SortedBy(key, a[1..])
    ensures Distinguishes(key, a) ==> Distinguishes(key, a[1..])
  {}

  lemma TailsAgree<T>(key: Key<T>, a: seq<T>, b: seq<T>)
    requires multiset(a) == multiset(b) && a != [] && b != []
    requires SortedBy(key, a) && SortedBy(key, b) && Distinguishes(key, a)
    ensures a[0] == b[0] && multiset(a[1..]) == multiset(b[1..])
    ensures SortedBy(key, a[1..]) && SortedBy(key, b[1..]) && Distinguishes(key, a[1..])
  {
    HeadsAgree(key, a, b);
    RestOf(a);
    RestOf(b);
    TailSorted(key, a);
    TailSorted(key, b);
  }

  lemma HeadAndTail<T>(a: seq<T>, b: seq<T>)
    requires a != [] && b != [] && a[0] == b[0] && a[1..] == b[1..]
    ensures a == b
  {
    assert a == [a[0]] + a[1..] && b == [b[0]] + b[1..];
  }

  lemma SameSize<T>(a: seq<T>, b: seq<T>)
    requires multiset(a) == multiset(b)
    ensures |a| == |b|
  {
    assert |a| == |multiset(a)| == |multiset(b)| == |b|;
  }

  /** Two sorted arrangements of the same elements are the same arrangement. */
  lemma {:induction false} SortedIsUnique<T>(key: Key<T>, a: seq<T>, b: seq<T>)
    requires multiset(a) == multiset(b)
    requires SortedBy(key, a) && SortedBy(key, b)
    requires Distinguishes(key, a)
    ensures a == b
    decreases |a|
  {
    SameSize(a, b);
    if a != [] {
      TailsAgree(key, a, b);
      SortedIsUnique(key, a[1..], b[1..]);
      HeadAndTail(a, b);
    }
  }

  /** So what is sorted depends on the elements alone, not on their order. */
  lemma SortDependsOnElements<T>(key: Key<T>, a: seq<T>, b: seq<T>)
    requires Distinguishes(key, a)
    ensures SortBy(key, a) == SortBy(key, b) <==> multiset(a) == multiset(b)
  {
    SortSorts(key, a);
    SortSorts(key, b);
    if multiset(a) == multiset(b) {
      var s := SortBy(key, a);
      forall i, j | 0 <= i < |s| && 0 <= j < |s| && key(s[i]) == key(s[j]) ensures s[i] == s[j] {
        assert s[i] in multiset(a) && s[j] in multiset(a);
      }
      SortedIsUnique(key, s, SortBy(key, b));
    }
  }

  // --- stability

  function WithKey<T>(key: Key<T>, k: string, xs: seq<T>): seq<T> {
    if xs == [] then [] else (if key(xs[0]) == k then [xs[0]] else []) + WithKey(key, k, xs[1..])
  }

  lemma {:induction false} InsertIsStable<T>(key: Key<T>, x: T, xs: seq<T>, k: string)
    ensures WithKey(key, k, Insert(key, x, xs)) == (if key(x) == k then [x] else []) + WithKey(key, k, xs)
  {
    if xs != [] && !Le(key(x), key(xs[0])) {
      InsertIsStable(key, x, xs[1..], k);
      var r := Insert(key, x, xs);
      assert r[1..] == Insert(key, x, xs[1..]);
      LeTotal(key(x), key(xs[0]));
      assert key(x) != key(xs[0]);
    } else {
      assert ([x] + xs)[1..] == xs;
    }
  }

  /** Elements with equal keys stay in the order they came in. */
  lemma {:induction false} SortIsStable<T>(key: Key<T>, xs: seq<T>, k: string)
    ensures WithKey(key, k, SortBy(key, xs)) == WithKey(key, k, xs)
  {
    if xs != [] {
      SortIsStable(key, xs[1..], k);
      InsertIsStable(key, xs[0], SortBy(key, xs[1..]), k);
    }
  }
}
