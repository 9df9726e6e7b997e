/** The header of one object in the framed stream: `<oid> blob <size>`. */
module ObjectHeader {
  import opened ObjectBatch

  predicate AllDigits(s: bytes) { forall i | 0 <= i < |s| :: 48 <= s[i] < 58 }

  /** The value of the first `n` digits. */
  function DecimalValue(s: bytes, n: nat): nat
    requires AllDigits(s) && n <= |s|
  {
    if n == 0 then 0 else DecimalValue(s, n - 1) * 10 + (s[n - 1] as int - 48)
  }

  /** Decimal text with an optional sign. */
  function ParseInt(s: bytes): Option<int> {
    var signed := s != [] && (s[0] == 43 || s[0] == 45);
    var digits := if signed then s[1..] else s;
    if digits == [] || !AllDigits(digits) then None
    else if signed && s[0] == 45 then Some(-(DecimalValue(digits, |digits|) as int))
    else Some(DecimalValue(digits, |digits|))
  }

  predicate Ascii(s: bytes) { forall i | 0 <= i < |s| :: s[i] < 128 }

  /** The text after the expected object id and the word blob, in a header of
      exactly three fields separated by single spaces. */
  function SizeText(header: bytes, oid: bytes): Option<bytes> {
    match Index(header, SPACE, 0)
    case None => None
    case Some(i) =>
      match Index(header, SPACE, i + 1)
      case None => None
      case Some(j) =>
        if !Ascii(header) || Index(header, SPACE, j + 1).Some? || header[..i] != oid || header[i + 1..j] != BLOB then None
        else Some(header[j + 1..])
  }

  function HeaderSize(header: bytes, oid: bytes): Option<int> {
    match SizeText(header, oid)
    case None => None
    case Some(text) => ParseInt(text)
  }

  lemma {:induction false} DecimalPrefix(a: bytes, b: bytes, n: nat)
    requires AllDigits(a) && AllDigits(b) && n <= |a| && n <= |b| && forall i | 0 <= i < n :: a[i] == b[i]
    ensures DecimalValue(a, n) == DecimalValue(b, n)
  {
    if n > 0 { DecimalPrefix(a, b, n - 1); }
  }

  lemma {:induction false} DecimalInverse(n: nat)
    ensures var d := Decimal(n); d != [] && AllDigits(d) && DecimalValue(d, |d|) == n
  {
    if n >= 10 {
      var d, h := Decimal(n), Decimal(n / 10);
      DecimalInverse(n / 10);
      DecimalPrefix(d, h, |h|);
    }
  }

  lemma HeaderFields(o: Object)
    ensures var h, d, i := Header(o), Decimal(|o.contents|), |o.oid|;
            && |h| == i + 6 + |d| && h[i] == SPACE && h[i + 5] == SPACE
            && h[..i] == o.oid && h[i + 1..i + 5] == BLOB && h[i + 6..] == d
  {
    var h, d, i := Header(o), Decimal(|o.contents|), |o.oid|;
    assert h == o.oid + ([SPACE] + BLOB + [SPACE] + d);
    assert h[..i] == o.oid;
    assert h[i..] == [SPACE] + BLOB + [SPACE] + d;
    assert h[i + 1..i + 5] == h[i..][1..5] == BLOB;
    assert h[i + 6..] == h[i..][6..] == d;
  }

  lemma FirstSpace(o: Object)
    requires ValidOid(o.oid)
    ensures Index(Header(o), SPACE, 0) == Some(|o.oid|)
  {
    var h, i := Header(o), |o.oid|;
    HeaderFields(o);
    assert forall k | 0 <= k < i :: h[k] == h[..i][k];
  }

  lemma SecondSpace(o: Object)
    ensures Index(Header(o), SPACE, |o.oid| + 1) == Some(|o.oid| + 5)
  {
    var h, i := Header(o), |o.oid|;
    HeaderFields(o);
    assert forall k | i + 1 <= k < i + 5 :: h[k] == h[i + 1..i + 5][k - i - 1];
  }

  lemma NoThirdSpace(o: Object)
    ensures Index(Header(o), SPACE, |o.oid| + 6).None?
  {
    var h, i := Header(o), |o.oid|;
    HeaderFields(o);
    DecimalBytes(|o.contents|);
    assert forall k | i + 6 <= k < |h| :: h[k] == h[i + 6..][k - i - 6];
  }

  lemma SizeTextFound(o: Object)
    requires ValidOid(o.oid)
    ensures SizeText(Header(o), o.oid) == Some(Decimal(|o.contents|))
  {
    HeaderBytes(o);
    HeaderFields(o);
    FirstSpace(o);
    SecondSpace(o);
    NoThirdSpace(o);
  }

  /** Header reading inverts header printing, so the framing results apply to it. */
  lemma HeaderSizeReads()
    ensures ReadsHeaders(HeaderSize)
  {
    forall o: Object | ValidOid(o.oid) ensures HeaderSize(Header(o), o.oid) == Some(|o.contents|) {
      SizeTextFound(o);
      DecimalInverse(|o.contents|);
    }
  }
}
