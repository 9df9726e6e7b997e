/** The compact ASCII serialisation of JSON by which list items are ordered, and that
    it never prints two different trees alike. */
module Serialization {
  import opened Canonical

  function Digit(d: int): char
    requires 0 <= d < 16
  {
    "0123456789abcdef"[d]
  }

  function Hex(n: int): string
    requires 0 <= n < 0x10000
  {
    [Digit(n / 0x1000), Digit(n / 0x100 % 0x10), Digit(n / 0x10 % 0x10), Digit(n % 0x10)]
  }

  /** A code point outside printable ASCII, as one UTF-16 unit or as a surrogate pair. */
  function Units(n: int): string
    requires 0 <= n < 0x110000
  {
    if n < 0x10000 then "\\u" + Hex(n)
    else "\\u" + Hex(0xD800 + (n - 0x10000) / 0x400) + "\\u" + Hex(0xDC00 + (n - 0x10000) % 0x400)
  }

  function Escape(c: char): string {
    if c == '\"' then "\\\""
    else if c == '\\' then "\\\\"
    else if c == '\n' then "\\n"
    else if c == '\r' then "\\r"
    else if c == '\t' then "\\t"
    else if c == '\U{0008}' then "\\b"
    else if c == '\U{000C}' then "\\f"
    else if ' ' <= c <= '~' then [c]
    else Units(c as int)
  }

  /** How one character of a string is printed. */
  type Code = char -> string

  function Quoted(esc: Code, s: string): string {
    if s == "" then "\"" else esc(s[0]) + Quoted(esc, s[1..])
  }

  function Serialize(esc: Code, v: Json): string {
    match v
    case Null => "null"
    case Bool(b) => if b then "true" else "false"
    case Num(t) => t
    case Str(s) => "\"" + Quoted(esc, s)
    case Arr(xs) => "[" + SerializeItems(esc, xs, true)
    case Obj(es) => "{" + SerializeEntries(esc, es, true)
  }

  function SerializeItems(esc: Code, xs: seq<Json>, first: bool): string {
    if xs == [] then "]"
    else (if first then "" else ",") + (Serialize(esc, xs[0]) + SerializeItems(esc, xs[1..], false))
  }

  function SerializeEntries(esc: Code, es: seq<Entry>, first: bool): string {
    if es == [] then "}"
    else
      (if first then "\"" else ",\"") +
      (Quoted(esc, es[0].key) + (":" + (Serialize(esc, es[0].value) + SerializeEntries(esc, es[1..], false))))
  }

  // --- a printed character is read back in one way

  lemma DigitsDiffer(d: int, e: int)
    requires 0 <= d < 16 && 0 <= e < 16 && Digit(d) == Digit(e)
    ensures d == e
  {
    var s := "0123456789abcdef";
    assert forall i, j | 0 <= i < j < 16 :: s[i] != s[j];
  }

  lemma HexUnique(n: int, m: int)
    requires 0 <= n < 0x10000 && 0 <= m < 0x10000 && Hex(n) == Hex(m)
    ensures n == m
  {
    DigitsDiffer(n / 0x1000, m / 0x1000);
    DigitsDiffer(n / 0x100 % 0x10, m / 0x100 % 0x10);
    DigitsDiffer(n / 0x10 % 0x10, m / 0x10 % 0x10);
    DigitsDiffer(n % 0x10, m % 0x10);
    Positional(n);
    Positional(m);
  }

  lemma Positional(n: int)
    requires 0 <= n < 0x10000
    ensures n == (n / 0x1000) * 0x1000 + (n / 0x100 % 0x10) * 0x100 + (n / 0x10 % 0x10) * 0x10 + n % 0x10
  {
    assert n / 0x100 == (n / 0x1000) * 0x10 + n / 0x100 % 0x10;
    assert n / 0x10 == (n / 0x100) * 0x10 + n / 0x10 % 0x10;
  }

  /** Two strings that agree when continued, and have the same length, are the same. */
  lemma SameLength(a: string, x: string, b: string, y: string)
    requires a + x == b + y && |a| == |b|
    ensures a == b && x == y
  {
    assert a == (a + x)[..|a|] && b == (b + y)[..|b|];
    assert x == (a + x)[|a|..] && y == (b + y)[|b|..];
  }

  predicate Scalar(n: int) { 0 <= n < 0xD800 || 0xE000 <= n < 0x110000 }

  function FirstUnit(n: int): int { if n < 0x10000 then n else 0xD800 + (n - 0x10000) / 0x400 }

  lemma UnitsStart(n: int, x: string)
    requires Scalar(n)
    ensures 0 <= FirstUnit(n) < 0x10000
    ensures |Units(n) + x| >= 6 && (Units(n) + x)[2..6] == Hex(FirstUnit(n))
  {}

  function LowUnit(n: int): int { 0xDC00 + (n - 0x10000) % 0x400 }

  lemma UnitsEnd(n: int)
    requires 0x10000 <= n < 0x110000
    ensures |Units(n)| == 12 && Units(n)[8..] == Hex(LowUnit(n))
  {}

  lemma QuotientAndRemainder(n: int, m: int)
    requires 0x10000 <= n && 0x10000 <= m
    requires FirstUnit(n) == FirstUnit(m) && LowUnit(n) == LowUnit(m)
    ensures n == m
  {
    assert n - 0x10000 == (n - 0x10000) / 0x400 * 0x400 + (n - 0x10000) % 0x400;
    assert m - 0x10000 == (m - 0x10000) / 0x400 * 0x400 + (m - 0x10000) % 0x400;
  }

  lemma UnitsUnique(n: int, x: string, m: int, y: string)
    requires Scalar(n) && Scalar(m) && Units(n) + x == Units(m) + y
    ensures n == m && x == y
  {
    UnitsStart(n, x);
    UnitsStart(m, y);
    HexUnique(FirstUnit(n), FirstUnit(m));
    SameLength(Units(n), x, Units(m), y);
    if n >= 0x10000 {
      UnitsEnd(n);
      UnitsEnd(m);
      HexUnique(LowUnit(n), LowUnit(m));
      QuotientAndRemainder(n, m);
    }
  }

  function Short(c: char): char {
    if c == '\"' then '\"'
    else if c == '\\' then '\\'
    else if c == '\n' then 'n'
    else if c == '\r' then 'r'
    else if c == '\t' then 't'
    else if c == '\U{0008}' then 'b'
    else if c == '\U{000C}' then 'f'
    else 'u'
  }

  predicate Plain(c: char) { ' ' <= c <= '~' && c != '\"' && c != '\\' }

  /** What the first two printed characters tell. */
  lemma EscapeStart(c: char, x: string)
    ensures var s := Escape(c) + x;
            if Plain(c) then s == [c] + x && c != '\\' && c != '\"'
            else |s| >= 2 && s[0] == '\\' && s[1] == Short(c)
    ensures !Plain(c) && Short(c) != 'u' ==> Escape(c) == ['\\', Short(c)]
    ensures !Plain(c) && Short(c) == 'u' ==> Escape(c) == Units(c as int)
  {}

  lemma EscapeUnique(c: char, x: string, d: char, y: string)
    requires Escape(c) + x == Escape(d) + y
    ensures c == d && x == y
  {
    EscapeStart(c, x);
    EscapeStart(d, y);
    if !Plain(c) && Short(c) == 'u' {
      UnitsUnique(c as int, x, d as int, y);
    } else {
      SameLength(Escape(c), x, Escape(d), y);
    }
  }

  /** Every printed character is recognisable where it starts, and none looks like
      the closing quote. */
  ghost predicate ReadOneWay(esc: Code) {
    && (forall c :: esc(c) != "" && esc(c)[0] != '\"')
    && (forall c, x, d, y | esc(c) + x == esc(d) + y :: c == d && x == y)
  }

  lemma EscapeReadOneWay()
    ensures ReadOneWay(Escape)
  {
    forall c ensures Escape(c) != "" && Escape(c)[0] != '\"' {
      EscapeStart(c, "");
      assert Escape(c) + "" == Escape(c);
    }
    forall c, x, d, y | Escape(c) + x == Escape(d) + y ensures c == d && x == y {
      EscapeUnique(c, x, d, y);
    }
  }

  // --- for any such printing of characters

  lemma QuotedStart(esc: Code, s: string, x: string)
    requires ReadOneWay(esc)
    ensures s == "" ==> Quoted(esc, s) + x == "\"" + x
    ensures s != "" ==> Quoted(esc, s) + x == esc(s[0]) + (Quoted(esc, s[1..]) + x)
    ensures (Quoted(esc, s) + x)[0] == '\"' <==> s == ""
  {}

  lemma {:induction false} QuotedUnique(esc: Code, s: string, x: string, t: string, y: string)
    requires ReadOneWay(esc)
    requires Quoted(esc, s) + x == Quoted(esc, t) + y
    ensures s == t && x == y
  {
    QuotedStart(esc, s, x);
    QuotedStart(esc, t, y);
    if s == "" {
      SameLength("\"", x, "\"", y);
    } else {
      QuotedUnique(esc, s[1..], x, t[1..], y);
      assert s == [s[0]] + s[1..] && t == [t[0]] + t[1..];
    }
  }

  /** What may follow a value: nothing, or the punctuation that closes or separates. */
  predicate Ends(x: string) { x == "" || x[0] in ",]}" }

  predicate NumberChar(c: char) { ('0' <= c <= '9') || c in "+-.eE" }

  lemma Crossing(t: string, x: string, u: string, y: string)
    requires t + x == u + y && |t| < |u|
    ensures x != "" && x[0] == u[|t|]
  {
    assert |t + x| == |u + y|;
    assert (t + x)[|t|] == (u + y)[|t|];
  }

  lemma NotLonger(t: string, x: string, u: string, y: string)
    requires NumberText(u) && Ends(x) && t + x == u + y
    ensures |u| <= |t|
  {
    if |t| < |u| {
      Crossing(t, x, u, y);
      assert false;
    }
  }

  lemma NumbersUnique(t: string, x: string, u: string, y: string)
    requires NumberText(t) && NumberText(u) && Ends(x) && Ends(y)
    requires t + x == u + y
    ensures t == u && x == y
  {
    NotLonger(t, x, u, y);
    NotLonger(u, y, t, x);
    SameLength(t, x, u, y);
  }

  /** The first printed character tells what kind of value is printed. */
  predicate Head(v: Json, c: char) {
    match v
    case Null => c == 'n'
    case Bool(b) => c == if b then 't' else 'f'
    case Num(_) => NumberChar(c)
    case Str(_) => c == '\"'
    case Arr(_) => c == '['
    case Obj(_) => c == '{'
  }

  lemma Starts(esc: Code, v: Json, x: string)
    requires Valid(v)
    ensures var s := Serialize(esc, v) + x; s != "" && Head(v, s[0])
  {}

  lemma AfterFirst(c: string, a: string, x: string, b: string, y: string)
    requires c + a + x == c + b + y
    ensures a + x == b + y
  {
    assert c + a + x == c + (a + x) && c + b + y == c + (b + y);
    SameLength(c, a + x, c, b + y);
  }

  lemma ItemsEnd(esc: Code, xs: seq<Json>, x: string)
    ensures var s := SerializeItems(esc, xs, false) + x; s[0] == if xs == [] then ']' else ','
  {}

  lemma EntriesEnd(esc: Code, es: seq<Entry>, x: string)
    ensures var s := SerializeEntries(esc, es, false) + x; s[0] == if es == [] then '}' else ','
  {}

  predicate AllValid(xs: seq<Json>) { forall i | 0 <= i < |xs| :: Valid(xs[i]) }

  predicate ValuesValid(es: seq<Entry>) { forall i | 0 <= i < |es| :: Valid(es[i].value) }

  /** One item and what is printed after it. */
  lemma ItemsUnfold(esc: Code, xs: seq<Json>, first: bool, x: string)
    requires xs != []
    ensures SerializeItems(esc, xs, first) + x ==
            (if first then "" else ",") + (Serialize(esc, xs[0]) + (SerializeItems(esc, xs[1..], false) + x))
  {}

  lemma EntriesUnfold(esc: Code, es: seq<Entry>, first: bool, x: string)
    requires es != []
    ensures SerializeEntries(esc, es, first) + x ==
            (if first then "\"" else ",\"") +
            (Quoted(esc, es[0].key) + (":" + (Serialize(esc, es[0].value) + (SerializeEntries(esc, es[1..], false) + x))))
  {}

  lemma ItemsStart(esc: Code, xs: seq<Json>, first: bool, x: string)
    requires AllValid(xs)
    ensures var s := SerializeItems(esc, xs, first) + x; s != "" && (s[0] == ']' <==> xs == [])
  {
    if xs != [] {
      ItemsUnfold(esc, xs, first, x);
      Starts(esc, xs[0], SerializeItems(esc, xs[1..], false) + x);
    }
  }

  lemma EntriesStart(esc: Code, es: seq<Entry>, first: bool, x: string)
    ensures (SerializeEntries(esc, es, first) + x)[0] == '}' <==> es == []
  {}

  lemma {:induction false} ItemsUnique(esc: Code, xs: seq<Json>, first: bool, x: string, ys: seq<Json>, y: string)
    requires ReadOneWay(esc) && AllValid(xs) && AllValid(ys)
    requires SerializeItems(esc, xs, first) + x == SerializeItems(esc, ys, first) + y
    ensures xs == ys && x == y
    decreases xs, 0
  {
    ItemsStart(esc, xs, first, x);
    ItemsStart(esc, ys, first, y);
    if xs == [] {
      SameLength("]", x, "]", y);
    } else {
      ItemsUnfold(esc, xs, first, x);
      ItemsUnfold(esc, ys, first, y);
      var restX, restY := SerializeItems(esc, xs[1..], false) + x, SerializeItems(esc, ys[1..], false) + y;
      var comma := if first then "" else ",";
      SameLength(comma, Serialize(esc, xs[0]) + restX, comma, Serialize(esc, ys[0]) + restY);
      ItemsEnd(esc, xs[1..], x);
      ItemsEnd(esc, ys[1..], y);
      SerializeUnique(esc, xs[0], restX, ys[0], restY);
      ItemsUnique(esc, xs[1..], false, x, ys[1..], y);
      assert xs == [xs[0]] + xs[1..] && ys == [ys[0]] + ys[1..];
    }
  }

  lemma {:induction false} EntriesUnique(esc: Code, es: seq<Entry>, first: bool, x: string, fs: seq<Entry>, y: string)
    requires ReadOneWay(esc) && ValuesValid(es) && ValuesValid(fs)
    requires SerializeEntries(esc, es, first) + x == SerializeEntries(esc, fs, first) + y
    ensures es == fs && x == y
    decreases es, 0
  {
    EntriesStart(esc, es, first, x);
    EntriesStart(esc, fs, first, y);
    if es == [] {
      SameLength("}", x, "}", y);
    } else {
      EntriesUnfold(esc, es, first, x);
      EntriesUnfold(esc, fs, first, y);
      var restX, restY := SerializeEntries(esc, es[1..], false) + x, SerializeEntries(esc, fs[1..], false) + y;
      var valueX, valueY := Serialize(esc, es[0].value) + restX, Serialize(esc, fs[0].value) + restY;
      var open := if first then "\"" else ",\"";
      SameLength(open, Quoted(esc, es[0].key) + (":" + valueX), open, Quoted(esc, fs[0].key) + (":" + valueY));
      QuotedUnique(esc, es[0].key, ":" + valueX, fs[0].key, ":" + valueY);
      SameLength(":", valueX, ":", valueY);
      EntriesEnd(esc, es[1..], x);
      EntriesEnd(esc, fs[1..], y);
      SerializeUnique(esc, es[0].value, restX, fs[0].value, restY);
      EntriesUnique(esc, es[1..], false, x, fs[1..], y);
      assert es == [es[0]] + es[1..] && fs == [fs[0]] + fs[1..];
    }
  }

  lemma {:induction false} SerializeUnique(esc: Code, a: Json, x: string, b: Json, y: string)
    requires ReadOneWay(esc) && Valid(a) && Valid(b) && Ends(x) && Ends(y)
    requires Serialize(esc, a) + x == Serialize(esc, b) + y
    ensures a == b && x == y
    decreases a, 1
  {
    Starts(esc, a, x);
    Starts(esc, b, y);
    match a {
      case Num(t) => NumbersUnique(t, x, b.text, y);
      case Str(s) =>
        AfterFirst("\"", Quoted(esc, s), x, Quoted(esc, b.s), y);
        QuotedUnique(esc, s, x, b.s, y);
      case Arr(xs) =>
        AfterFirst("[", SerializeItems(esc, xs, true), x, SerializeItems(esc, b.items, true), y);
        ItemsUnique(esc, xs, true, x, b.items, y);
      case Obj(es) =>
        AfterFirst("{", SerializeEntries(esc, es, true), x, SerializeEntries(esc, b.entries, true), y);
        EntriesUnique(esc, es, true, x, b.entries, y);
      case _ => SameLength(Serialize(esc, a), x, Serialize(esc, b), y);
    }
  }

  function Compact(v: Json): string { Serialize(Escape, v) }

  /** The compact ASCII serialisation tells any two trees apart. */
  lemma CompactIsInjective()
    ensures Injective(Compact)
  {
    EscapeReadOneWay();
    forall a, b | Valid(a) && Valid(b) && Compact(a) == Compact(b) ensures a == b {
      SerializeUnique(Escape, a, "", b, "");
    }
  }

  /** So the canonical form ordered by that serialisation is a complete invariant:
      equal exactly for trees that differ in order alone. */
  lemma CompactCanonicalIsComplete(a: Json, b: Json)
    requires Valid(a) && Valid(b)
    ensures Canonicalize(Compact, a) == Canonicalize(Compact, b) <==> Same(a, b)
    ensures Compact(Canonicalize(Compact, a)) == Compact(Canonicalize(Compact, b)) <==> Same(a, b)
  {
    CompactIsInjective();
    CanonicalIsComplete(Compact, a, b);
    CanonicalValid(Compact, a);
    CanonicalValid(Compact, b);
  }
}
