/** Canonical form of a JSON tree: object keys sorted, list items canonicalised and
    then sorted by their serialisation, at every depth. */
module Canonical {
  import opened Matching
  import opened Sorting

  /** Numbers keep the text they are printed with. An object is its entries in the
      order they were inserted. */
  datatype Json =
    | Null
    | Bool(b: bool)
    | Num(text: string)
    | Str(s: string)
    | Arr(items: seq<Json>)
    | Obj(entries: seq<Entry>)

  datatype Entry = Entry(key: string, value: Json)

  type Serializer = Json -> string

  predicate NumberText(t: string) {
    t != "" && forall i | 0 <= i < |t| :: ('0' <= t[i] <= '9') || t[i] in "+-.eE"
  }

  predicate UniqueKeys(es: seq<Entry>) {
    forall i, j | 0 <= i < j < |es| :: es[i].key != es[j].key
  }

  predicate Valid(v: Json) {
    match v
    case Num(t) => NumberText(t)
    case Arr(xs) => forall i | 0 <= i < |xs| :: Valid(xs[i])
    case Obj(es) => UniqueKeys(es) && forall i | 0 <= i < |es| :: Valid(es[i].value)
    case _ => true
  }

  ghost predicate Injective(ser: Serializer) {
    forall a, b | Valid(a) && Valid(b) && ser(a) == ser(b) :: a == b
  }

  function KeyOf(e: Entry): string { e.key }

  function Items(ser: Serializer, xs: seq<Json>): seq<Json> {
    if xs == [] then [] else [Canonicalize(ser, xs[0])] + Items(ser, xs[1..])
  }

  function Entries(ser: Serializer, es: seq<Entry>): seq<Entry> {
    if es == [] then [] else [Entry(es[0].key, Canonicalize(ser, es[0].value))] + Entries(ser, es[1..])
  }

  function Canonicalize(ser: Serializer, v: Json): Json {
    match v
    case Arr(xs) => Arr(SortBy(ser, Items(ser, xs)))
    case Obj(es) => Obj(SortBy(KeyOf, Entries(ser, es)))
    case _ => v
  }

  // --- equality up to the order of list items and of object keys, at every depth

  predicate SameItems(xs: seq<Json>, ys: seq<Json>) {
    if xs == [] then ys == []
    else exists j | 0 <= j < |ys| :: Same(xs[0], ys[j]) && SameItems(xs[1..], Without(ys, j))
  }

  predicate SameEntries(es: seq<Entry>, fs: seq<Entry>) {
    if es == [] then fs == []
    else exists j | 0 <= j < |fs| ::
           es[0].key == fs[j].key && Same(es[0].value, fs[j].value) && SameEntries(es[1..], Without(fs, j))
  }

  predicate Same(a: Json, b: Json) {
    match (a, b)
    case (Arr(xs), Arr(ys)) => SameItems(xs, ys)
    case (Obj(es), Obj(fs)) => SameEntries(es, fs)
    case _ => a == b
  }

  // --- the recursive definitions as instances of mapping and matching

  function OnItem(ser: Serializer): Json -> Json { x => Canonicalize(ser, x) }

  function OnEntry(ser: Serializer): Entry -> Entry { (e: Entry) => Entry(e.key, Canonicalize(ser, e.value)) }

  predicate SameEntry(e: Entry, f: Entry) { e.key == f.key && Same(e.value, f.value) }

  lemma {:induction false} ItemsMap(ser: Serializer, xs: seq<Json>)
    ensures Items(ser, xs) == Map(OnItem(ser), xs)
  {
    if xs != [] {
      ItemsMap(ser, xs[1..]);
    }
  }

  lemma {:induction false} EntriesMap(ser: Serializer, es: seq<Entry>)
    ensures Entries(ser, es) == Map(OnEntry(ser), es)
  {
    if es != [] {
      EntriesMap(ser, es[1..]);
    }
  }

  lemma {:induction false} SameItemsMatched(xs: seq<Json>, ys: seq<Json>)
    ensures SameItems(xs, ys) <==> Matched(Same, xs, ys)
  {
    if xs != [] {
      forall j | 0 <= j < |ys| ensures SameItems(xs[1..], Without(ys, j)) <==> Matched(Same, xs[1..], Without(ys, j)) {
        SameItemsMatched(xs[1..], Without(ys, j));
      }
    }
  }

  lemma {:induction false} SameEntriesMatched(es: seq<Entry>, fs: seq<Entry>)
    ensures SameEntries(es, fs) <==> Matched(SameEntry, es, fs)
  {
    if es != [] {
      forall j | 0 <= j < |fs| ensures SameEntries(es[1..], Without(fs, j)) <==> Matched(SameEntry, es[1..], Without(fs, j)) {
        SameEntriesMatched(es[1..], Without(fs, j));
      }
    }
  }

  // --- canonical forms are valid

  lemma OnceOnly(a: seq<Entry>, e: Entry)
    requires UniqueKeys(a)
    ensures multiset(a)[e] <= 1
  {
    if e in multiset(a) {
      var k :| 0 <= k < |a| && a[k] == e;
      WithoutElement(a, k);
    }
  }

  lemma Twice(b: seq<Entry>, i: nat, j: nat)
    requires i < j < |b| && b[i] == b[j]
    ensures multiset(b)[b[i]] >= 2
  {
    WithoutElement(b, i);
    assert Without(b, i)[j - 1] == b[j];
  }

  /** Rearranging entries with unique keys leaves the keys unique. */
  lemma UniqueKeysRearranged(a: seq<Entry>, b: seq<Entry>)
    requires multiset(a) == multiset(b) && UniqueKeys(a)
    ensures UniqueKeys(b)
  {
    forall i, j | 0 <= i < j < |b| ensures b[i].key != b[j].key {
      assert b[i] in multiset(a) && b[j] in multiset(a);
      OnceOnly(a, b[i]);
      if b[i] == b[j] {
        Twice(b, i, j);
      }
    }
  }

  lemma SortedFrom<T, U>(key: Key<U>, f: T -> U, xs: seq<T>, i: nat) returns (k: nat)
    requires i < |SortBy(key, Map(f, xs))|
    ensures k < |xs| && SortBy(key, Map(f, xs))[i] == f(xs[k])
  {
    SortSorts(key, Map(f, xs));
    assert SortBy(key, Map(f, xs))[i] in multiset(Map(f, xs));
    k :| 0 <= k < |xs| && Map(f, xs)[k] == SortBy(key, Map(f, xs))[i];
  }

  /** A canonical form is again a tree with unique keys. */
  lemma {:induction false} CanonicalValid(ser: Serializer, v: Json)
    requires Valid(v)
    ensures Valid(Canonicalize(ser, v))
  {
    match v {
      case Arr(xs) =>
        ItemsMap(ser, xs);
        var s := SortBy(ser, Map(OnItem(ser), xs));
        forall i | 0 <= i < |s| ensures Valid(s[i]) {
          var k := SortedFrom(ser, OnItem(ser), xs, i);
          CanonicalValid(ser, xs[k]);
        }
      case Obj(es) =>
        EntriesMap(ser, es);
        SortSorts(KeyOf, Entries(ser, es));
        var s := SortBy(KeyOf, Map(OnEntry(ser), es));
        UniqueKeysRearranged(Entries(ser, es), s);
        forall i | 0 <= i < |s| ensures Valid(s[i].value) {
          var k := SortedFrom(KeyOf, OnEntry(ser), es, i);
          CanonicalValid(ser, es[k].value);
        }
      case _ =>
    }
  }

  // --- completeness

  lemma ItemsDistinguished(ser: Serializer, xs: seq<Json>)
    requires Injective(ser) && forall i | 0 <= i < |xs| :: Valid(xs[i])
    ensures Distinguishes(ser, Map(OnItem(ser), xs))
  {
    forall i | 0 <= i < |xs| ensures Valid(Map(OnItem(ser), xs)[i]) {
      CanonicalValid(ser, xs[i]);
    }
  }

  lemma EntriesDistinguished(ser: Serializer, es: seq<Entry>)
    requires UniqueKeys(es)
    ensures Distinguishes(KeyOf, Map(OnEntry(ser), es))
  {
    var s := Map(OnEntry(ser), es);
    forall i | 0 <= i < |es| ensures s[i].key == es[i].key {}
  }

  /** Sorted images are equal exactly when the lists match. */
  lemma SortedAgree<T, U>(key: Key<U>, rel: (T, T) -> bool, f: T -> U, xs: seq<T>, ys: seq<T>)
    requires Respects(rel, f, xs, ys)
    requires Distinguishes(key, Map(f, xs))
    ensures SortBy(key, Map(f, xs)) == SortBy(key, Map(f, ys)) <==> Matched(rel, xs, ys)
  {
    MatchedIsAgreement(rel, f, xs, ys);
    SortDependsOnElements(key, Map(f, xs), Map(f, ys));
  }

  lemma {:induction false} ItemsComplete(ser: Serializer, xs: seq<Json>, ys: seq<Json>)
    requires Injective(ser) && Valid(Arr(xs)) && Valid(Arr(ys))
    ensures Canonicalize(ser, Arr(xs)) == Canonicalize(ser, Arr(ys)) <==> Same(Arr(xs), Arr(ys))
    decreases xs, 0
  {
    ItemsMap(ser, xs);
    ItemsMap(ser, ys);
    SameItemsMatched(xs, ys);
    ItemsDistinguished(ser, xs);
    forall i, j | 0 <= i < |xs| && 0 <= j < |ys| ensures Same(xs[i], ys[j]) <==> OnItem(ser)(xs[i]) == OnItem(ser)(ys[j]) {
      CanonicalIsComplete(ser, xs[i], ys[j]);
    }
    SortedAgree(ser, Same, OnItem(ser), xs, ys);
  }

  lemma {:induction false} EntriesComplete(ser: Serializer, es: seq<Entry>, fs: seq<Entry>)
    requires Injective(ser) && Valid(Obj(es)) && Valid(Obj(fs))
    ensures Canonicalize(ser, Obj(es)) == Canonicalize(ser, Obj(fs)) <==> Same(Obj(es), Obj(fs))
    decreases es, 0
  {
    EntriesMap(ser, es);
    EntriesMap(ser, fs);
    SameEntriesMatched(es, fs);
    EntriesDistinguished(ser, es);
    forall i, j | 0 <= i < |es| && 0 <= j < |fs| ensures SameEntry(es[i], fs[j]) <==> OnEntry(ser)(es[i]) == OnEntry(ser)(fs[j]) {
      CanonicalIsComplete(ser, es[i].value, fs[j].value);
    }
    SortedAgree(KeyOf, SameEntry, OnEntry(ser), es, fs);
  }

  /** Two trees have the same canonical form exactly when they are equal up to the
      order of list items and object keys at every depth, whatever injective
      serialisation orders the items. */
  lemma {:induction false} CanonicalIsComplete(ser: Serializer, a: Json, b: Json)
    requires Injective(ser) && Valid(a) && Valid(b)
    ensures Canonicalize(ser, a) == Canonicalize(ser, b) <==> Same(a, b)
    decreases a, 1
  {
    if a.Arr? && b.Arr? {
      ItemsComplete(ser, a.items, b.items);
    } else if a.Obj? && b.Obj? {
      EntriesComplete(ser, a.entries, b.entries);
    }
  }

  // --- idempotence

  lemma SortingTwice<T>(key: Key<T>, xs: seq<T>)
    requires Distinguishes(key, xs)
    ensures SortBy(key, SortBy(key, xs)) == SortBy(key, xs)
  {
    SortSorts(key, xs);
    SortDependsOnElements(key, xs, SortBy(key, xs));
  }

  /** A canonical form is its own canonical form. */
  lemma {:induction false} CanonicalizeIsIdempotent(ser: Serializer, v: Json)
    requires Injective(ser) && Valid(v)
    ensures Canonicalize(ser, Canonicalize(ser, v)) == Canonicalize(ser, v)
  {
    match v {
      case Arr(xs) =>
        ItemsMap(ser, xs);
        var s := SortBy(ser, Map(OnItem(ser), xs));
        forall i | 0 <= i < |s| ensures OnItem(ser)(s[i]) == s[i] {
          var k := SortedFrom(ser, OnItem(ser), xs, i);
          CanonicalizeIsIdempotent(ser, xs[k]);
        }
        ItemsMap(ser, s);
        assert Map(OnItem(ser), s) == s;
        ItemsDistinguished(ser, xs);
        SortingTwice(ser, Map(OnItem(ser), xs));
      case Obj(es) =>
        EntriesMap(ser, es);
        var s := SortBy(KeyOf, Map(OnEntry(ser), es));
        forall i | 0 <= i < |s| ensures OnEntry(ser)(s[i]) == s[i] {
          var k := SortedFrom(KeyOf, OnEntry(ser), es, i);
          CanonicalizeIsIdempotent(ser, es[k].value);
        }
        EntriesMap(ser, s);
        assert Map(OnEntry(ser), s) == s;
        EntriesDistinguished(ser, es);
        SortingTwice(KeyOf, Map(OnEntry(ser), es));
      case _ =>
    }
  }

  /** And it differs from the tree it was computed from in nothing but order. */
  lemma CanonicalIsSame(ser: Serializer, v: Json)
    requires Injective(ser) && Valid(v)
    ensures Same(Canonicalize(ser, v), v)
  {
    CanonicalValid(ser, v);
    CanonicalizeIsIdempotent(ser, v);
    CanonicalIsComplete(ser, Canonicalize(ser, v), v);
  }

  // --- the canonical forms

  /** Items ascend by their serialisation and keys ascend, at every depth. */
  predicate InOrder(ser: Serializer, v: Json) {
    match v
    case Arr(xs) => SortedBy(ser, xs) && forall i | 0 <= i < |xs| :: InOrder(ser, xs[i])
    case Obj(es) => SortedBy(KeyOf, es) && forall i | 0 <= i < |es| :: InOrder(ser, es[i].value)
    case _ => true
  }

  lemma {:induction false} CanonicalInOrder(ser: Serializer, v: Json)
    ensures InOrder(ser, Canonicalize(ser, v))
  {
    match v {
      case Arr(xs) =>
        ItemsMap(ser, xs);
        SortSorts(ser, Items(ser, xs));
        var s := SortBy(ser, Map(OnItem(ser), xs));
        forall i | 0 <= i < |s| ensures InOrder(ser, s[i]) {
          var k := SortedFrom(ser, OnItem(ser), xs, i);
          CanonicalInOrder(ser, xs[k]);
        }
      case Obj(es) =>
        EntriesMap(ser, es);
        SortSorts(KeyOf, Entries(ser, es));
        var s := SortBy(KeyOf, Map(OnEntry(ser), es));
        forall i | 0 <= i < |s| ensures InOrder(ser, s[i].value) {
          var k := SortedFrom(KeyOf, OnEntry(ser), es, i);
          CanonicalInOrder(ser, es[k].value);
        }
      case _ =>
    }
  }

  lemma SortingSorted<T>(key: Key<T>, xs: seq<T>)
    requires SortedBy(key, xs) && Distinguishes(key, xs)
    ensures SortBy(key, xs) == xs
  {
    SortSorts(key, xs);
    SortedIsUnique(key, xs, SortBy(key, xs));
  }

  lemma ValidDistinguished(ser: Serializer, v: Json)
    requires Injective(ser) && Valid(v)
    ensures v.Arr? ==> Distinguishes(ser, v.items)
    ensures v.Obj? ==> Distinguishes(KeyOf, v.entries)
  {}

  lemma {:induction false} OrderedIsCanonical(ser: Serializer, v: Json)
    requires Injective(ser) && Valid(v) && InOrder(ser, v)
    ensures Canonicalize(ser, v) == v
  {
    ValidDistinguished(ser, v);
    match v {
      case Arr(xs) =>
        ItemsMap(ser, xs);
        forall i | 0 <= i < |xs| ensures OnItem(ser)(xs[i]) == xs[i] {
          OrderedIsCanonical(ser, xs[i]);
        }
        assert Map(OnItem(ser), xs) == xs;
        SortingSorted(ser, xs);
      case Obj(es) =>
        EntriesMap(ser, es);
        forall i | 0 <= i < |es| ensures OnEntry(ser)(es[i]) == es[i] {
          OrderedIsCanonical(ser, es[i].value);
        }
        assert Map(OnEntry(ser), es) == es;
        SortingSorted(KeyOf, es);
      case _ =>
    }
  }

  /** The canonical forms are exactly the trees in order, and there is one of them for
      every tree: the tree in order that it equals up to order. */
  lemma CanonicalFormsExactly(ser: Serializer, v: Json, c: Json)
    requires Injective(ser) && Valid(v) && Valid(c)
    ensures Canonicalize(ser, v) == c <==> InOrder(ser, c) && Same(v, c)
  {
    CanonicalInOrder(ser, v);
    CanonicalIsComplete(ser, v, c);
    CanonicalizeIsIdempotent(ser, v);
    if InOrder(ser, c) {
      OrderedIsCanonical(ser, c);
    }
  }
}
