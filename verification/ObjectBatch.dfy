/** Parsing the framed object stream `<oid> blob <size>\n<bytes>\n`, one object
    after another, with byte contents that may themselves contain newlines. */
module ObjectBatch {

  datatype Option<T> = None | Some(value: T)

  type byte = x: int | 0 <= x < 256
  type bytes = seq<byte>

  const NL: byte := 10
  const SPACE: byte := 32
  const BLOB: bytes := [98, 108, 111, 98]

  // --- slices and searches with the source language's treatment of negative bounds

  function Bound(i: int, n: nat): nat {
    if i < 0 then if i + n < 0 then 0 else i + n else if i > n then n else i
  }

  function Slice(s: bytes, i: int, j: int): bytes {
    var a, b := Bound(i, |s|), Bound(j, |s|);
    if a < b then s[a..b] else []
  }

  /** The first occurrence of `b` at or after `from`. */
  function Index(s: bytes, b: byte, from: nat): (r: Option<nat>)
    ensures r.Some? ==> from <= r.value < |s| && s[r.value] == b && forall k | from <= k < r.value :: s[k] != b
    ensures r.None? ==> forall k | from <= k < |s| :: s[k] != b
    decreases |s| - from
  {
    if from >= |s| then None
    else if s[from] == b then Some(from)
    else Index(s, b, from + 1)
  }

  // ---------------------------------------------------------------------------
  // Framing, for any reading of headers

  /** Reads the size out of a header, given the object id expected there. */
  type HeaderReader = (bytes, bytes) -> Option<int>

  /** The body that starts after the header, closed by a newline. */
  function Body(batch: bytes, start: nat, size: int): Option<(bytes, int)> {
    var end := start + size;
    if end >= |batch| || Slice(batch, end, end + 1) != [NL] then None
    else Some((Slice(batch, start, end), end + 1))
  }

  /** One object at `offset`: its contents and the offset after it. */
  function ParseOne(read: HeaderReader, batch: bytes, oid: bytes, offset: int): Option<(bytes, int)> {
    match Index(batch, NL, Bound(offset, |batch|))
    case None => None
    case Some(headerEnd) =>
      match read(Slice(batch, offset, headerEnd), oid)
      case None => None
      case Some(size) => Body(batch, headerEnd + 1, size)
  }

  function After(done: seq<bytes>, rest: Option<seq<bytes>>): Option<seq<bytes>> {
    if rest.None? then None else Some(done + rest.value)
  }

  function Parse(read: HeaderReader, batch: bytes, oids: seq<bytes>, offset: int): Option<seq<bytes>>
    decreases |oids|
  {
    if oids == [] then Some([])
    else
      match ParseOne(read, batch, oids[0], offset)
      case None => None
      case Some((contents, next)) => After([contents], Parse(read, batch, oids[1..], next))
  }

  /** The parsing loop over a moving offset. */
  method ParseBatch(read: HeaderReader, batch: bytes, oids: seq<bytes>) returns (r: Option<seq<bytes>>)
    ensures r == Parse(read, batch, oids, 0)
  {
    var objects: seq<bytes> := [];
    var offset := 0;
    assert oids[0..] == oids;
    ghost var all := Parse(read, batch, oids, 0);
    assert all.Some? ==> [] + all.value == all.value;
    for i := 0 to |oids|
      invariant all == After(objects, Parse(read, batch, oids[i..], offset))
    {
      var one := ParseOne(read, batch, oids[i], offset);
      assert oids[i..][0] == oids[i] && oids[i..][1..] == oids[i + 1..];
      if one.None? {
        return None;
      }
      ghost var rest := Parse(read, batch, oids[i + 1..], one.value.1);
      if rest.Some? {
        assert objects + ([one.value.0] + rest.value) == (objects + [one.value.0]) + rest.value;
      }
      objects := objects + [one.value.0];
      offset := one.value.1;
    }
    assert oids[|oids|..] == [] && objects + [] == objects;
    r := Some(objects);
  }

  // ---------------------------------------------------------------------------
  // Printing

  function Decimal(n: nat): bytes {
    if n < 10 then [48 + n] else Decimal(n / 10) + [48 + n % 10]
  }

  datatype Object = Object(oid: bytes, contents: bytes)

  /** Object ids are ASCII without spaces or newlines. */
  predicate ValidOid(oid: bytes) { forall i | 0 <= i < |oid| :: oid[i] < 128 && oid[i] != SPACE && oid[i] != NL }

  function Header(o: Object): bytes { o.oid + [SPACE] + BLOB + [SPACE] + Decimal(|o.contents|) }

  function PrintOne(o: Object): bytes { Header(o) + [NL] + o.contents + [NL] }

  function Print(objects: seq<Object>): bytes {
    if objects == [] then [] else PrintOne(objects[0]) + Print(objects[1..])
  }

  function Oids(objects: seq<Object>): seq<bytes> { seq(|objects|, i requires 0 <= i < |objects| => objects[i].oid) }

  function Contents(objects: seq<Object>): seq<bytes> { seq(|objects|, i requires 0 <= i < |objects| => objects[i].contents) }

  /** All that framing needs of the header reader: it reads back printed headers. */
  ghost predicate ReadsHeaders(read: HeaderReader) {
    forall o: Object | ValidOid(o.oid) :: read(Header(o), o.oid) == Some(|o.contents|)
  }

  lemma {:induction false} DecimalBytes(n: nat)
    ensures Decimal(n) != [] && forall i | 0 <= i < |Decimal(n)| :: 48 <= Decimal(n)[i] < 58
  {
    if n >= 10 { DecimalBytes(n / 10); }
  }

  lemma HeaderBytes(o: Object)
    requires ValidOid(o.oid)
    ensures forall i | 0 <= i < |Header(o)| :: Header(o)[i] < 128 && Header(o)[i] != NL
  {
    DecimalBytes(|o.contents|);
  }

  lemma PrintedParts(o: Object)
    ensures var p, h := PrintOne(o), |Header(o)|;
            && |p| == h + |o.contents| + 2 && p[h] == NL && p[|p| - 1] == NL
            && p[..h] == Header(o) && p[h + 1..h + 1 + |o.contents|] == o.contents
  {
    var p, h := PrintOne(o), |Header(o)|;
    assert p[..h] == Header(o);
    assert p[h + 1..h + 1 + |o.contents|] == o.contents;
  }

  /** The stream carries `p` at `offset`, up to its own end. */
  predicate Carries(batch: bytes, offset: nat, p: bytes) {
    && offset <= |batch|
    && forall i | 0 <= i < |p| && offset + i < |batch| :: batch[offset + i] == p[i]
  }

  lemma HeaderFound(batch: bytes, offset: nat, o: Object)
    requires ValidOid(o.oid) && Carries(batch, offset, PrintOne(o)) && offset + |Header(o)| < |batch|
    ensures Index(batch, NL, offset) == Some(offset + |Header(o)|)
    ensures Slice(batch, offset, offset + |Header(o)|) == Header(o)
  {
    PrintedParts(o);
    HeaderBytes(o);
    var p, h := PrintOne(o), |Header(o)|;
    assert forall i | 0 <= i < h :: p[i] == p[..h][i];
    assert batch[offset + h] == p[h];
    assert forall k | offset <= k < offset + h :: batch[k] == p[k - offset];
    assert batch[offset..offset + h] == Header(o);
  }

  lemma HeaderMissing(batch: bytes, offset: nat, o: Object)
    requires ValidOid(o.oid) && Carries(batch, offset, PrintOne(o)) && |batch| <= offset + |Header(o)|
    ensures Index(batch, NL, offset) == None
  {
    PrintedParts(o);
    HeaderBytes(o);
    var p, h := PrintOne(o), |Header(o)|;
    assert forall i | 0 <= i < h :: p[i] == p[..h][i];
    assert forall k | offset <= k < |batch| :: batch[k] == p[k - offset];
  }

  lemma SliceCarried(batch: bytes, offset: nat, p: bytes, i: nat, j: nat)
    requires Carries(batch, offset, p) && i <= j <= |p| && offset + j <= |batch|
    ensures batch[offset + i..offset + j] == p[i..j]
  {
    forall k | i <= k < j ensures batch[offset + k] == p[k] {}
  }

  lemma BodyFound(batch: bytes, offset: nat, o: Object)
    requires Carries(batch, offset, PrintOne(o)) && offset + |Header(o)| < |batch|
    ensures Body(batch, offset + |Header(o)| + 1, |o.contents|) ==
            if offset + |PrintOne(o)| <= |batch| then Some((o.contents, offset + |PrintOne(o)|)) else None
  {
    PrintedParts(o);
    var p, h := PrintOne(o), |Header(o)|;
    if offset + |p| <= |batch| {
      SliceCarried(batch, offset, p, h + 1, h + 1 + |o.contents|);
      SliceCarried(batch, offset, p, |p| - 1, |p|);
      assert p[|p| - 1..|p|] == [NL];
    }
  }

  /** The next object is read back whole, whatever stands before and after it, and
      refused when it is cut anywhere short of its last byte. */
  lemma ParsesOnePrinted(read: HeaderReader, batch: bytes, offset: nat, o: Object)
    requires ReadsHeaders(read) && ValidOid(o.oid) && Carries(batch, offset, PrintOne(o))
    ensures ParseOne(read, batch, o.oid, offset) ==
            if offset + |PrintOne(o)| <= |batch| then Some((o.contents, offset + |PrintOne(o)|)) else None
  {
    PrintedParts(o);
    if offset + |Header(o)| < |batch| {
      HeaderFound(batch, offset, o);
      BodyFound(batch, offset, o);
    } else {
      HeaderMissing(batch, offset, o);
    }
  }

  lemma CarriesParts(batch: bytes, offset: nat, objects: seq<Object>)
    requires objects != [] && Carries(batch, offset, Print(objects))
    ensures Carries(batch, offset, PrintOne(objects[0]))
    ensures offset + |PrintOne(objects[0])| <= |batch| ==>
              Carries(batch, offset + |PrintOne(objects[0])|, Print(objects[1..]))
  {
    var p, one, rest := Print(objects), PrintOne(objects[0]), Print(objects[1..]);
    assert forall i | 0 <= i < |one| :: p[i] == one[i];
    assert forall i | 0 <= i < |rest| :: p[|one| + i] == rest[i];
    if offset + |one| <= |batch| {
      forall i | 0 <= i < |rest| && offset + |one| + i < |batch| ensures batch[offset + |one| + i] == rest[i] {
        assert batch[offset + (|one| + i)] == p[|one| + i];
      }
    }
  }

  lemma ParseUnfolds(read: HeaderReader, batch: bytes, offset: nat, objects: seq<Object>)
    requires objects != []
    ensures var one := ParseOne(read, batch, objects[0].oid, offset);
            Parse(read, batch, Oids(objects), offset) ==
            if one.None? then None else After([one.value.0], Parse(read, batch, Oids(objects[1..]), one.value.1))
  {
    assert Oids(objects)[1..] == Oids(objects[1..]);
  }

  lemma ContentsUnfold(objects: seq<Object>)
    requires objects != []
    ensures Contents(objects) == [objects[0].contents] + Contents(objects[1..])
  {}

  /** From the first object, which ends at `next`, and the rest, which ends at `end`. */
  lemma ParsesBoth(read: HeaderReader, batch: bytes, offset: nat, objects: seq<Object>, next: nat, end: nat)
    requires objects != [] && next <= end
    requires ParseOne(read, batch, objects[0].oid, offset) == if next <= |batch| then Some((objects[0].contents, next)) else None
    requires next <= |batch| ==>
               Parse(read, batch, Oids(objects[1..]), next) == if end <= |batch| then Some(Contents(objects[1..])) else None
    ensures Parse(read, batch, Oids(objects), offset) == if end <= |batch| then Some(Contents(objects)) else None
  {
    ParseUnfolds(read, batch, offset, objects);
    ContentsUnfold(objects);
  }

  lemma ParsesNothing(read: HeaderReader, batch: bytes, offset: nat)
    ensures Parse(read, batch, Oids([]), offset) == Some(Contents([]))
  {
    assert Oids([]) == [] && Contents([]) == [];
  }

  /** Parsing answers the contents exactly when the whole print is there. */
  lemma {:induction false} ParsesFrom(read: HeaderReader, batch: bytes, offset: nat, objects: seq<Object>)
    requires ReadsHeaders(read)
    requires (forall o <- objects :: ValidOid(o.oid)) && Carries(batch, offset, Print(objects))
    ensures Parse(read, batch, Oids(objects), offset) ==
            if offset + |Print(objects)| <= |batch| then Some(Contents(objects)) else None
    decreases |objects|
  {
    if objects == [] {
      ParsesNothing(read, batch, offset);
    } else {
      var next := offset + |PrintOne(objects[0])|;
      CarriesParts(batch, offset, objects);
      ParsesOnePrinted(read, batch, offset, objects[0]);
      if next <= |batch| {
        ParsesFrom(read, batch, next, objects[1..]);
      }
      ParsesBoth(read, batch, offset, objects, next, offset + |Print(objects)|);
    }
  }

  /** Parsing inverts printing for every sequence of objects and arbitrary
      contents; bytes after the last expected object are not looked at. */
  lemma ParseInvertsPrint(read: HeaderReader, objects: seq<Object>, after: bytes)
    requires ReadsHeaders(read) && forall o <- objects :: ValidOid(o.oid)
    ensures Parse(read, Print(objects) + after, Oids(objects), 0) == Some(Contents(objects))
  {
    ParsesFrom(read, Print(objects) + after, 0, objects);
  }

  /** Every strict prefix of a printed stream is refused. */
  lemma TruncatedRefused(read: HeaderReader, objects: seq<Object>, k: nat)
    requires ReadsHeaders(read) && forall o <- objects :: ValidOid(o.oid)
    requires k < |Print(objects)|
    ensures Parse(read, Print(objects)[..k], Oids(objects), 0) == None
  {
    ParsesFrom(read, Print(objects)[..k], 0, objects);
  }
}
