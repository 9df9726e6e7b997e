/** Reading JSON text back, as the grammar of RFC 8259 prescribes it for text without
    insignificant space, and that this inverts the compact serialisation. */
module JsonReader {
  import opened Canonical
  import opened Serialization

  datatype Option<T> = None | Some(value: T)

  // --- strings: sections 7 and 8.2 of RFC 8259

  function HexDigit(c: char): Option<nat> {
    if '0' <= c <= '9' then Some(c as int - '0' as int)
    else if 'a' <= c <= 'f' then Some(c as int - 'a' as int + 10)
    else if 'A' <= c <= 'F' then Some(c as int - 'A' as int + 10)
    else None
  }

  /** The code unit that four hexadecimal digits denote. */
  function Unit(s: string): (r: Option<nat>)
    requires |s| == 4
    ensures r.Some? ==> r.value < 0x10000
  {
    var a, b, c, d := HexDigit(s[0]), HexDigit(s[1]), HexDigit(s[2]), HexDigit(s[3]);
    if a.None? || b.None? || c.None? || d.None? then None
    else Some(a.value * 0x1000 + b.value * 0x100 + c.value * 0x10 + d.value)
  }

  /** What stands after `\u`: a character, or the two surrogates of one. */
  function ReadUnits(s: string): (r: Option<(char, string)>)
    ensures r.Some? ==> |r.value.1| < |s|
  {
    if |s| < 4 then None
    else
      match Unit(s[..4])
      case None => None
      case Some(u) =>
        if u < 0xD800 || u >= 0xE000 then Some((u as char, s[4..]))
        else if u >= 0xDC00 || |s| < 10 || s[4] != '\\' || s[5] != 'u' then None
        else
          match Unit(s[6..10])
          case None => None
          case Some(low) =>
            if 0xDC00 <= low < 0xE000 then Some(((0x10000 + (u - 0xD800) * 0x400 + (low - 0xDC00)) as char, s[10..])) else None
  }

  function Meaning(c: char): Option<char> {
    match c
    case '\"' => Some('\"')
    case '\\' => Some('\\')
    case '/' => Some('/')
    case 'b' => Some('\U{0008}')
    case 'f' => Some('\U{000C}')
    case 'n' => Some('\n')
    case 'r' => Some('\r')
    case 't' => Some('\t')
    case _ => None
  }

  /** One character of a string. Control characters must be escaped. */
  function ReadChar(s: string): (r: Option<(char, string)>)
    ensures r.Some? ==> |r.value.1| < |s|
  {
    if s == "" || s[0] as int < 0x20 then None
    else if s[0] != '\\' then Some((s[0], s[1..]))
    else if |s| < 2 then None
    else if s[1] == 'u' then ReadUnits(s[2..])
    else
      match Meaning(s[1])
      case None => None
      case Some(c) => Some((c, s[2..]))
  }

  /** What stands after the opening quote. */
  function ReadString(s: string): (r: Option<(string, string)>)
    ensures r.Some? ==> |r.value.1| < |s|
    decreases |s|
  {
    if s == "" then None
    else if s[0] == '\"' then Some(("", s[1..]))
    else
      match ReadChar(s)
      case None => None
      case Some((c, rest)) =>
        match ReadString(rest)
        case None => None
        case Some((cs, after)) => Some(([c] + cs, after))
  }

  // --- values: sections 3 to 6

  function NumberLength(s: string): (n: nat)
    ensures n <= |s|
  {
    if s != "" && NumberChar(s[0]) then 1 + NumberLength(s[1..]) else 0
  }

  function Literal(s: string, word: string, v: Json): (r: Option<(Json, string)>)
    requires word != ""
    ensures r.Some? ==> |r.value.1| < |s|
  {
    if |word| <= |s| && s[..|word|] == word then Some((v, s[|word|..])) else None
  }

  function ReadValue(s: string): (r: Option<(Json, string)>)
    ensures r.Some? ==> |r.value.1| < |s|
    decreases |s|, 0
  {
    if s == "" then None
    else if s[0] == 'n' then Literal(s, "null", Null)
    else if s[0] == 't' then Literal(s, "true", Bool(true))
    else if s[0] == 'f' then Literal(s, "false", Bool(false))
    else if s[0] == '\"' then
      match ReadString(s[1..])
      case None => None
      case Some((text, rest)) => Some((Str(text), rest))
    else if s[0] == '[' then
      match ReadItems(s[1..], true)
      case None => None
      case Some((xs, rest)) => Some((Arr(xs), rest))
    else if s[0] == '{' then
      match ReadEntries(s[1..], true)
      case None => None
      case Some((es, rest)) => Some((Obj(es), rest))
    else if NumberChar(s[0]) then Some((Num(s[..NumberLength(s)]), s[NumberLength(s)..]))
    else None
  }

  function ReadItems(s: string, first: bool): (r: Option<(seq<Json>, string)>)
    ensures r.Some? ==> |r.value.1| < |s|
    decreases |s|, 1
  {
    if s == "" then None
    else if s[0] == ']' then Some(([], s[1..]))
    else if !first && s[0] != ',' then None
    else
      match ReadValue(if first then s else s[1..])
      case None => None
      case Some((v, rest)) =>
        match ReadItems(rest, false)
        case None => None
        case Some((vs, after)) => Some(([v] + vs, after))
  }

  /** A member from its opening quote to the end of its value. */
  function ReadEntry(s: string): (r: Option<(Entry, string)>)
    ensures r.Some? ==> |r.value.1| < |s|
    decreases |s|, 1
  {
    if s == "" || s[0] != '\"' then None
    else
      match ReadString(s[1..])
      case None => None
      case Some((key, rest)) =>
        if rest == "" || rest[0] != ':' then None
        else
          match ReadValue(rest[1..])
          case None => None
          case Some((v, after)) => Some((Entry(key, v), after))
  }

  function ReadEntries(s: string, first: bool): (r: Option<(seq<Entry>, string)>)
    ensures r.Some? ==> |r.value.1| < |s|
    decreases |s|, 2
  {
    if s == "" then None
    else if s[0] == '}' then Some(([], s[1..]))
    else if !first && s[0] != ',' then None
    else
      match ReadEntry(if first then s else s[1..])
      case None => None
      case Some((e, rest)) =>
        match ReadEntries(rest, false)
        case None => None
        case Some((es, after)) => Some(([e] + es, after))
  }

  // --- the inverse

  lemma DigitReads(d: int)
    requires 0 <= d < 16
    ensures HexDigit(Digit(d)) == Some(d)
  {
    var h := "0123456789abcdef";
    assert forall i | 0 <= i < 10 :: h[i] == ('0' as int + i) as char;
    assert forall i | 10 <= i < 16 :: h[i] == ('a' as int + i - 10) as char;
  }

  lemma HexReads(n: int)
    requires 0 <= n < 0x10000
    ensures Unit(Hex(n)) == Some(n)
  {
    DigitReads(n / 0x1000);
    DigitReads(n / 0x100 % 0x10);
    DigitReads(n / 0x10 % 0x10);
    DigitReads(n % 0x10);
    Positional(n);
  }

  lemma Combined(n: int)
    requires 0x10000 <= n < 0x110000
    ensures 0xD800 <= FirstUnit(n) < 0xDC00 && 0xDC00 <= LowUnit(n) < 0xE000
    ensures 0x10000 + (FirstUnit(n) - 0xD800) * 0x400 + (LowUnit(n) - 0xDC00) == n
  {
    assert n - 0x10000 == (n - 0x10000) / 0x400 * 0x400 + (n - 0x10000) % 0x400;
  }

  lemma Associates(a: string, b: string, x: string)
    ensures a + b + x == a + (b + x)
  {}

  lemma AfterTwo(p: string, a: string, q: string, b: string, x: string)
    requires |p| == 2
    ensures (p + a + x)[2..] == a + x
    ensures (p + a + q + b + x)[2..] == a + (q + (b + x))
  {
    assert p + a + x == p + (a + x);
    assert p + a + q + b + x == p + (a + (q + (b + x)));
  }

  /** Two surrogates are one character. */
  lemma PairReads(a: string, b: string, x: string, u: nat, low: nat)
    requires |a| == |b| == 4 && Unit(a) == Some(u) && Unit(b) == Some(low)
    requires 0xD800 <= u < 0xDC00 && 0xDC00 <= low < 0xE000
    ensures ReadUnits(a + ("\\u" + (b + x))) == Some(((0x10000 + (u - 0xD800) * 0x400 + (low - 0xDC00)) as char, x))
  {
    var s := a + ("\\u" + (b + x));
    assert s[..4] == a && s[4] == '\\' && s[5] == 'u';
    assert s[6..10] == b && s[10..] == x;
  }

  lemma UnitsRead(n: int, x: string)
    requires Scalar(n)
    ensures ReadUnits((Units(n) + x)[2..]) == Some((n as char, x))
  {
    HexReads(FirstUnit(n));
    if n < 0x10000 {
      AfterTwo("\\u", Hex(n), "", "", x);
      Parts(Hex(n), x);
    } else {
      Combined(n);
      HexReads(LowUnit(n));
      AfterTwo("\\u", Hex(FirstUnit(n)), "\\u", Hex(LowUnit(n)), x);
      PairReads(Hex(FirstUnit(n)), Hex(LowUnit(n)), x, FirstUnit(n), LowUnit(n));
    }
  }

  /** A string that starts with `a`, and what comes after. */
  lemma Parts(a: string, x: string)
    ensures (a + x)[..|a|] == a && (a + x)[|a|..] == x
  {}

  lemma CharReads(c: char, x: string)
    ensures (Escape(c) + x)[0] != '\"' && ReadChar(Escape(c) + x) == Some((c, x))
  {
    var s := Escape(c) + x;
    EscapeStart(c, x);
    if Plain(c) {
      assert s[1..] == x;
    } else if Short(c) == 'u' {
      UnitsRead(c as int, x);
    } else {
      assert s[2..] == x;
    }
  }

  lemma {:induction false} QuotedReads(t: string, x: string)
    ensures ReadString(Quoted(Escape, t) + x) == Some((t, x))
  {
    if t == "" {
      Parts("\"", x);
    } else {
      var rest := Quoted(Escape, t[1..]) + x;
      Associates(Escape(t[0]), Quoted(Escape, t[1..]), x);
      CharReads(t[0], rest);
      QuotedReads(t[1..], x);
      assert t == [t[0]] + t[1..];
    }
  }

  lemma {:induction false} NumberReads(t: string, x: string)
    requires Ends(x) && forall i | 0 <= i < |t| :: NumberChar(t[i])
    ensures NumberLength(t + x) == |t|
  {
    if t != "" {
      assert (t + x)[1..] == t[1..] + x;
      NumberReads(t[1..], x);
    } else {
      assert t + x == x;
    }
  }

  lemma {:induction false} ItemsRead(xs: seq<Json>, first: bool, x: string)
    requires AllValid(xs)
    ensures ReadItems(SerializeItems(Escape, xs, first) + x, first) == Some((xs, x))
    decreases xs, 0
  {
    var s := SerializeItems(Escape, xs, first) + x;
    ItemsStart(Escape, xs, first, x);
    if xs == [] {
      Parts("]", x);
    } else {
      var rest := SerializeItems(Escape, xs[1..], false) + x;
      ItemsUnfold(Escape, xs, first, x);
      Parts(if first then "" else ",", Serialize(Escape, xs[0]) + rest);
      ItemsEnd(Escape, xs[1..], x);
      ValueReads(xs[0], rest);
      ItemsRead(xs[1..], false, x);
      assert xs == [xs[0]] + xs[1..];
    }
  }

  /** A member and what is printed after it. */
  function EntryText(e: Entry, x: string): string {
    "\"" + (Quoted(Escape, e.key) + (":" + (Serialize(Escape, e.value) + x)))
  }

  lemma Opened(first: bool, text: string)
    ensures (if first then "\"" else ",\"") + text == (if first then "" else ",") + ("\"" + text)
  {
    if first {
      assert "\"" + text == "" + ("\"" + text);
    } else {
      Associates(",", "\"", text);
    }
  }

  lemma EntriesText(es: seq<Entry>, first: bool, x: string)
    requires es != []
    ensures SerializeEntries(Escape, es, first) + x ==
            (if first then "" else ",") + EntryText(es[0], SerializeEntries(Escape, es[1..], false) + x)
  {
    EntriesUnfold(Escape, es, first, x);
    var text := Quoted(Escape, es[0].key) + (":" + (Serialize(Escape, es[0].value) + (SerializeEntries(Escape, es[1..], false) + x)));
    Opened(first, text);
  }

  lemma ReadsNextEntry(text: string, first: bool, e: Entry, rest: string, es: seq<Entry>, x: string)
    requires ReadEntry(text) == Some((e, rest)) && ReadEntries(rest, false) == Some((es, x))
    ensures ReadEntries((if first then "" else ",") + text, first) == Some(([e] + es, x))
  {
    Parts(if first then "" else ",", text);
  }

  lemma {:induction false} EntriesRead(es: seq<Entry>, first: bool, x: string)
    requires ValuesValid(es)
    ensures ReadEntries(SerializeEntries(Escape, es, first) + x, first) == Some((es, x))
    decreases es, 0
  {
    if es == [] {
      Parts("}", x);
    } else {
      var rest := SerializeEntries(Escape, es[1..], false) + x;
      EntriesText(es, first, x);
      EntriesEnd(Escape, es[1..], x);
      EntryReads(es[0], rest);
      EntriesRead(es[1..], false, x);
      ReadsNextEntry(EntryText(es[0], rest), first, es[0], rest, es[1..], x);
      assert es == [es[0]] + es[1..];
    }
  }

  lemma {:induction false} EntryReads(e: Entry, x: string)
    requires Valid(e.value) && Ends(x)
    ensures ReadEntry(EntryText(e, x)) == Some((e, x))
    decreases e, 2
  {
    var value := Serialize(Escape, e.value) + x;
    Parts("\"", Quoted(Escape, e.key) + (":" + value));
    QuotedReads(e.key, ":" + value);
    Parts(":", value);
    ValueReads(e.value, x);
  }

  lemma StringReads(t: string, x: string)
    ensures ReadValue(Serialize(Escape, Str(t)) + x) == Some((Str(t), x))
  {
    Associates("\"", Quoted(Escape, t), x);
    Parts("\"", Quoted(Escape, t) + x);
    QuotedReads(t, x);
  }

  lemma NumberValueReads(t: string, x: string)
    requires NumberText(t) && Ends(x)
    ensures ReadValue(t + x) == Some((Num(t), x))
  {
    NumberReads(t, x);
    Parts(t, x);
  }

  lemma WordReads(v: Json, x: string)
    requires v.Null? || v.Bool?
    ensures ReadValue(Serialize(Escape, v) + x) == Some((v, x))
  {
    Parts(Serialize(Escape, v), x);
  }

  lemma Bracketed(v: Json, inner: string, x: string)
    requires v.Arr? ==> inner == SerializeItems(Escape, v.items, true) && ReadItems(inner + x, true) == Some((v.items, x))
    requires v.Obj? ==> inner == SerializeEntries(Escape, v.entries, true) && ReadEntries(inner + x, true) == Some((v.entries, x))
    ensures v.Arr? || v.Obj? ==> ReadValue(Serialize(Escape, v) + x) == Some((v, x))
  {
    if v.Arr? {
      Associates("[", inner, x);
      Parts("[", inner + x);
    } else if v.Obj? {
      Associates("{", inner, x);
      Parts("{", inner + x);
    }
  }

  /** A printed value is read back as itself, up to the punctuation that follows it. */
  lemma {:induction false} ValueReads(v: Json, x: string)
    requires Valid(v) && Ends(x)
    ensures ReadValue(Serialize(Escape, v) + x) == Some((v, x))
    decreases v, 1
  {
    match v {
      case Num(t) => NumberValueReads(t, x);
      case Str(t) => StringReads(t, x);
      case Arr(xs) =>
        ItemsRead(xs, true, x);
        Bracketed(v, SerializeItems(Escape, xs, true), x);
      case Obj(es) =>
        EntriesRead(es, true, x);
        Bracketed(v, SerializeEntries(Escape, es, true), x);
      case _ => WordReads(v, x);
    }
  }

  // --- main results

  lemma {:induction false} EscapedIsAscii(s: string)
    ensures forall c <- Quoted(Escape, s) :: ' ' <= c <= '~'
  {
    if s != "" {
      CharIsAscii(s[0]);
      EscapedIsAscii(s[1..]);
    }
  }

  lemma DigitIsAscii(d: int)
    requires 0 <= d < 16
    ensures ' ' <= Digit(d) <= '~'
  {
    DigitReads(d);
  }

  lemma HexIsAscii(n: int)
    requires 0 <= n < 0x10000
    ensures forall c <- Hex(n) :: ' ' <= c <= '~'
  {
    DigitIsAscii(n / 0x1000);
    DigitIsAscii(n / 0x100 % 0x10);
    DigitIsAscii(n / 0x10 % 0x10);
    DigitIsAscii(n % 0x10);
  }

  lemma CharIsAscii(c: char)
    ensures forall d <- Escape(c) :: ' ' <= d <= '~'
  {
    EscapeStart(c, "");
    if !Plain(c) && Short(c) == 'u' {
      var n := c as int;
      HexIsAscii(FirstUnit(n));
      if n >= 0x10000 {
        HexIsAscii(LowUnit(n));
      }
    }
  }

  /** The compact text of a tree is JSON text of that tree. */
  lemma CompactReadsBack(v: Json)
    requires Valid(v)
    ensures ReadValue(Compact(v)) == Some((v, ""))
  {
    ValueReads(v, "");
    assert Compact(v) + "" == Compact(v);
  }
}
