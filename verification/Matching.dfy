/** Matching two lists element by element, whatever their order, and how it compares
    to the elements' images under a function. */
module Matching {

  function Without<T>(s: seq<T>, i: nat): seq<T>
    requires i < |s|
  {
    s[..i] + s[i + 1..]
  }

  function Map<T, U>(f: T -> U, xs: seq<T>): (r: seq<U>)
    ensures |r| == |xs| && forall i | 0 <= i < |xs| :: r[i] == f(xs[i])
  {
    seq(|xs|, i requires 0 <= i < |xs| => f(xs[i]))
  }

  /** Each element of `xs` has a partner of its own in `ys`, and none is left over. */
  predicate Matched<T>(rel: (T, T) -> bool, xs: seq<T>, ys: seq<T>) {
    if xs == [] then ys == []
    else exists j | 0 <= j < |ys| :: rel(xs[0], ys[j]) && Matched(rel, xs[1..], Without(ys, j))
  }

  lemma WithoutElement<T>(s: seq<T>, j: nat)
    requires j < |s|
    ensures multiset(s) == multiset{s[j]} + multiset(Without(s, j))
  {
    assert s == s[..j] + [s[j]] + s[j + 1..];
  }

  lemma WithoutOfMap<T, U>(f: T -> U, ys: seq<T>, j: nat)
    requires j < |ys|
    ensures Map(f, Without(ys, j)) == Without(Map(f, ys), j)
  {}

  lemma MapWithout<T, U>(f: T -> U, ys: seq<T>, j: nat)
    requires j < |ys|
    ensures multiset(Map(f, ys)) == multiset{f(ys[j])} + multiset(Map(f, Without(ys, j)))
  {
    WithoutOfMap(f, ys, j);
    WithoutElement(Map(f, ys), j);
  }

  lemma MapHead<T, U>(f: T -> U, xs: seq<T>)
    requires xs != []
    ensures multiset(Map(f, xs)) == multiset{f(xs[0])} + multiset(Map(f, xs[1..]))
  {
    assert Map(f, xs) == [f(xs[0])] + Map(f, xs[1..]);
  }

  lemma Cancel<T>(x: T, a: multiset<T>, b: multiset<T>)
    requires multiset{x} + a == multiset{x} + b
    ensures a == b
  {
    assert a == multiset{x} + a - multiset{x};
    assert b == multiset{x} + b - multiset{x};
  }

  lemma ImageIn<T, U>(f: T -> U, ys: seq<T>, u: U) returns (j: nat)
    requires u in multiset(Map(f, ys))
    ensures j < |ys| && f(ys[j]) == u
  {
    j :| 0 <= j < |ys| && Map(f, ys)[j] == u;
  }

  /** `f` gives related elements, and no others, the same image. */
  predicate Respects<T, U(==)>(rel: (T, T) -> bool, f: T -> U, xs: seq<T>, ys: seq<T>) {
    forall i, j | 0 <= i < |xs| && 0 <= j < |ys| :: rel(xs[i], ys[j]) <==> f(xs[i]) == f(ys[j])
  }

  lemma {:induction false} MatchedAgree<T, U>(rel: (T, T) -> bool, f: T -> U, xs: seq<T>, ys: seq<T>)
    requires Respects(rel, f, xs, ys)
    requires Matched(rel, xs, ys)
    ensures multiset(Map(f, xs)) == multiset(Map(f, ys))
  {
    if xs != [] {
      var j :| 0 <= j < |ys| && rel(xs[0], ys[j]) && Matched(rel, xs[1..], Without(ys, j));
      MatchedAgree(rel, f, xs[1..], Without(ys, j));
      MapWithout(f, ys, j);
      MapHead(f, xs);
    }
  }

  lemma {:induction false} AgreeingMatched<T, U>(rel: (T, T) -> bool, f: T -> U, xs: seq<T>, ys: seq<T>)
    requires Respects(rel, f, xs, ys)
    requires multiset(Map(f, xs)) == multiset(Map(f, ys))
    ensures Matched(rel, xs, ys)
  {
    assert |Map(f, xs)| == |multiset(Map(f, xs))| == |Map(f, ys)|;
    if xs != [] {
      MapHead(f, xs);
      var j := ImageIn(f, ys, f(xs[0]));
      MapWithout(f, ys, j);
      Cancel(f(xs[0]), multiset(Map(f, xs[1..])), multiset(Map(f, Without(ys, j))));
      AgreeingMatched(rel, f, xs[1..], Without(ys, j));
    }
  }

  /** Lists match exactly when their images are the same up to order. */
  lemma MatchedIsAgreement<T, U>(rel: (T, T) -> bool, f: T -> U, xs: seq<T>, ys: seq<T>)
    requires Respects(rel, f, xs, ys)
    ensures Matched(rel, xs, ys) <==> multiset(Map(f, xs)) == multiset(Map(f, ys))
  {
    if Matched(rel, xs, ys) {
      MatchedAgree(rel, f, xs, ys);
    }
    if multiset(Map(f, xs)) == multiset(Map(f, ys)) {
      AgreeingMatched(rel, f, xs, ys);
    }
  }
}
