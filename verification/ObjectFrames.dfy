/** Which streams the object parser accepts: those made of frames, but for headers with
    a negative size, which it takes for objects that are not there. */
module ObjectFrames {
  import opened ObjectBatch
  import opened ObjectHeader

  const MINUS: byte := 45
  const PLUS: byte := 43

  function HeaderOf(oid: bytes, text: bytes): bytes { oid + [SPACE] + BLOB + [SPACE] + text }

  function FrameOf(oid: bytes, text: bytes, contents: bytes): bytes { HeaderOf(oid, text) + [NL] + contents + [NL] }

  /** Both parts of a header are ASCII without spaces or line ends. */
  predicate Fields(oid: bytes, text: bytes) { ValidOid(oid) && ValidOid(text) }

  predicate At(batch: bytes, offset: nat, part: bytes) { offset + |part| <= |batch| && batch[offset..offset + |part|] == part }

  // --- integer texts

  /** A decimal text, with or without a sign, is the number it shows, and nothing else is
      taken for one. */
  lemma IntegerText(n: nat, s: bytes)
    ensures ParseInt(Decimal(n)) == Some(n) && ParseInt([PLUS] + Decimal(n)) == Some(n) && ParseInt([MINUS] + Decimal(n)) == Some(-(n as int))
    ensures ParseInt(s).Some? <==>
              var digits := if s != [] && (s[0] == PLUS || s[0] == MINUS) then s[1..] else s;
              digits != [] && forall i | 0 <= i < |digits| :: 48 <= digits[i] <= 57
  {
    DecimalInverse(n);
    DecimalBytes(n);
    assert ([PLUS] + Decimal(n))[1..] == Decimal(n) && ([MINUS] + Decimal(n))[1..] == Decimal(n);
  }

  // --- headers

  lemma SplitAtSpaces(header: bytes, i: nat, j: nat)
    requires i < j < |header| && header[i] == header[j] == SPACE
    ensures header == header[..i] + [SPACE] + header[i + 1..j] + [SPACE] + header[j + 1..]
  {}

  lemma HeaderParts(oid: bytes, text: bytes)
    ensures var h, i := HeaderOf(oid, text), |oid|;
            && |h| == i + 6 + |text| && h[i] == SPACE && h[i + 5] == SPACE
            && h[..i] == oid && h[i + 1..i + 5] == BLOB && h[i + 6..] == text
  {
    var h, i := HeaderOf(oid, text), |oid|;
    assert h == oid + ([SPACE] + BLOB + [SPACE] + text);
    assert h[i..] == [SPACE] + BLOB + [SPACE] + text;
    assert h[i + 1..i + 5] == h[i..][1..5] == BLOB;
    assert h[i + 6..] == h[i..][6..] == text;
  }

  lemma HeaderFieldsPlain(oid: bytes, text: bytes, k: nat)
    requires k < |HeaderOf(oid, text)|
    ensures var h := HeaderOf(oid, text);
            if k < |oid| then h[k] == oid[k] else if k < |oid| + 6 then h[k] == ([SPACE] + BLOB + [SPACE])[k - |oid|] else h[k] == text[k - |oid| - 6]
  {}

  lemma SizeTextOf(oid: bytes, text: bytes)
    requires Fields(oid, text)
    ensures SizeText(HeaderOf(oid, text), oid) == Some(text)
    ensures forall k | 0 <= k < |HeaderOf(oid, text)| :: HeaderOf(oid, text)[k] != NL
  {
    var h, i := HeaderOf(oid, text), |oid|;
    HeaderParts(oid, text);
    forall k | 0 <= k < |h| ensures h[k] < 128 && h[k] != NL && (h[k] == SPACE <==> k == i || k == i + 5) {
      HeaderFieldsPlain(oid, text, k);
      if i <= k < i + 6 {
        assert [SPACE] + BLOB + [SPACE] == [32, 98, 108, 111, 98, 32];
      }
    }
    assert Index(h, SPACE, 0) == Some(i);
    assert Index(h, SPACE, i + 1) == Some(i + 5);
    assert Index(h, SPACE, i + 6) == None;
  }

  lemma SizeTextSplits(header: bytes, oid: bytes)
    requires SizeText(header, oid).Some? && forall k | 0 <= k < |header| :: header[k] != NL
    ensures header == HeaderOf(oid, SizeText(header, oid).value) && Fields(oid, SizeText(header, oid).value)
  {
    var i := Index(header, SPACE, 0).value;
    var j := Index(header, SPACE, i + 1).value;
    SplitAtSpaces(header, i, j);
    var text := header[j + 1..];
    assert forall k | 0 <= k < |oid| :: oid[k] == header[k];
    assert forall k | 0 <= k < |text| :: text[k] == header[j + 1 + k];
  }

  /** A line is accepted as header exactly when it is the expected id, the word blob and
      an integer text between single spaces. */
  lemma HeaderExactly(header: bytes, oid: bytes, size: int)
    requires forall k | 0 <= k < |header| :: header[k] != NL
    ensures HeaderSize(header, oid) == Some(size) <==>
              exists text :: header == HeaderOf(oid, text) && Fields(oid, text) && ParseInt(text) == Some(size)
  {
    if HeaderSize(header, oid) == Some(size) {
      SizeTextSplits(header, oid);
    }
    if text :| header == HeaderOf(oid, text) && Fields(oid, text) && ParseInt(text) == Some(size) {
      SizeTextOf(oid, text);
    }
  }

  // --- one object

  /** The line at `offset` is a header of this id and size. */
  ghost predicate Announces(batch: bytes, offset: nat, oid: bytes, size: int) {
    exists text :: Fields(oid, text) && ParseInt(text) == Some(size) && At(batch, offset, HeaderOf(oid, text) + [NL])
  }

  ghost predicate FramedAt(batch: bytes, offset: nat, oid: bytes, contents: bytes, next: int) {
    exists text :: Fields(oid, text) && ParseInt(text) == Some(|contents|) && At(batch, offset, FrameOf(oid, text, contents))
                   && next == offset + |FrameOf(oid, text, contents)|
  }

  lemma AtElements(batch: bytes, offset: nat, part: bytes)
    requires At(batch, offset, part)
    ensures forall k | 0 <= k < |part| :: batch[offset + k] == part[k]
  {
    var there := batch[offset..offset + |part|];
    assert forall k | 0 <= k < |part| :: there[k] == batch[offset + k];
  }

  lemma LineFound(batch: bytes, offset: nat, line: bytes)
    requires At(batch, offset, line + [NL]) && forall k | 0 <= k < |line| :: line[k] != NL
    ensures Index(batch, NL, offset) == Some(offset + |line|) && Slice(batch, offset, offset + |line|) == line
  {
    var n := |line|;
    var whole := line + [NL];
    AtElements(batch, offset, whole);
    forall k | offset <= k <= offset + n ensures batch[k] == (if k < offset + n then line[k - offset] else NL) {
      assert batch[offset + (k - offset)] == whole[k - offset];
    }
    assert batch[offset + n] == NL && forall k | offset <= k < offset + n :: batch[k] != NL;
    assert batch[offset..offset + n] == line;
  }

  lemma HeaderReads(oid: bytes, text: bytes)
    requires Fields(oid, text)
    ensures HeaderSize(HeaderOf(oid, text), oid) == ParseInt(text)
    ensures forall k | 0 <= k < |HeaderOf(oid, text)| :: HeaderOf(oid, text)[k] != NL
  {
    SizeTextOf(oid, text);
  }

  lemma AnnouncedLine(batch: bytes, offset: nat, oid: bytes, size: int) returns (header: bytes)
    requires Announces(batch, offset, oid, size)
    ensures At(batch, offset, header + [NL]) && HeaderSize(header, oid) == Some(size)
    ensures forall k | 0 <= k < |header| :: header[k] != NL
  {
    var text :| Fields(oid, text) && ParseInt(text) == Some(size) && At(batch, offset, HeaderOf(oid, text) + [NL]);
    HeaderReads(oid, text);
    header := HeaderOf(oid, text);
  }

  lemma LineAnnounces(batch: bytes, offset: nat, oid: bytes, size: int, line: bytes)
    requires At(batch, offset, line + [NL]) && HeaderSize(line, oid) == Some(size) && forall k | 0 <= k < |line| :: line[k] != NL
    ensures Announces(batch, offset, oid, size)
  {
    HeaderExactly(line, oid, size);
    var text :| line == HeaderOf(oid, text) && Fields(oid, text) && ParseInt(text) == Some(size);
  }

  lemma LineBefore(batch: bytes, offset: nat) returns (line: bytes)
    requires offset <= |batch| && Index(batch, NL, offset).Some?
    ensures At(batch, offset, line + [NL]) && line == Slice(batch, offset, Index(batch, NL, offset).value)
    ensures forall k | 0 <= k < |line| :: line[k] != NL
  {
    var end := Index(batch, NL, offset).value;
    line := batch[offset..end];
    assert forall k | 0 <= k < |line| :: line[k] == batch[offset + k];
    assert batch[offset..end + 1] == line + [NL];
  }

  lemma ReadAtLine(read: HeaderReader, batch: bytes, offset: nat, oid: bytes, header: bytes, size: int)
    requires At(batch, offset, header + [NL]) && read(header, oid) == Some(size) && forall k | 0 <= k < |header| :: header[k] != NL
    ensures var end := Index(batch, NL, offset); end.Some? && read(Slice(batch, offset, end.value), oid) == Some(size)
  {
    LineFound(batch, offset, header);
  }

  lemma AnnouncedIsRead(batch: bytes, offset: nat, oid: bytes, size: int)
    requires Announces(batch, offset, oid, size)
    ensures var end := Index(batch, NL, offset); end.Some? && HeaderSize(Slice(batch, offset, end.value), oid) == Some(size)
  {
    var header := AnnouncedLine(batch, offset, oid, size);
    ReadAtLine(HeaderSize, batch, offset, oid, header, size);
  }

  lemma HeaderLine(batch: bytes, offset: nat, oid: bytes, size: int)
    requires offset <= |batch|
    ensures Announces(batch, offset, oid, size) <==>
              var end := Index(batch, NL, offset); end.Some? && HeaderSize(Slice(batch, offset, end.value), oid) == Some(size)
  {
    if Announces(batch, offset, oid, size) {
      AnnouncedIsRead(batch, offset, oid, size);
    } else if Index(batch, NL, offset).Some? {
      var line := LineBefore(batch, offset);
      if HeaderSize(line, oid) == Some(size) {
        LineAnnounces(batch, offset, oid, size, line);
      }
    }
  }

  lemma FrameSplits(batch: bytes, offset: nat, header: bytes, contents: bytes)
    requires At(batch, offset, header + [NL] + contents + [NL])
    ensures var start := offset + |header| + 1;
            var end := start + |contents|;
            At(batch, offset, header + [NL]) && end < |batch| && batch[start..end] == contents && batch[end] == NL
  {
    var h, n := |header|, |contents|;
    var start, frame := offset + h + 1, header + [NL] + contents + [NL];
    AtElements(batch, offset, frame);
    assert frame[h + 1 + n] == NL && batch[offset + (h + 1 + n)] == NL;
    forall k | 0 <= k <= h ensures batch[offset + k] == (header + [NL])[k] {
      assert frame[k] == (header + [NL])[k];
    }
    assert batch[offset..start] == header + [NL];
    forall k | 0 <= k < n ensures batch[start + k] == contents[k] {
      assert frame[h + 1 + k] == contents[k] && batch[offset + (h + 1 + k)] == frame[h + 1 + k];
    }
    assert batch[start..start + n] == contents;
  }

  lemma FrameJoins(batch: bytes, offset: nat, header: bytes, contents: bytes)
    requires At(batch, offset, header + [NL])
    requires var start := offset + |header| + 1;
             var end := start + |contents|;
             end < |batch| && batch[start..end] == contents && batch[end] == NL
    ensures At(batch, offset, header + [NL] + contents + [NL])
  {
    var start := offset + |header| + 1;
    var end := start + |contents|;
    assert batch[offset..end + 1] == batch[offset..start] + batch[start..end] + [batch[end]];
  }

  lemma JoinParts(batch: bytes, offset: nat, header: bytes, contents: bytes)
    ensures At(batch, offset, header + [NL] + contents + [NL]) <==>
              var start := offset + |header| + 1;
              var end := start + |contents|;
              At(batch, offset, header + [NL]) && end < |batch| && batch[start..end] == contents && batch[end] == NL
  {
    var start := offset + |header| + 1;
    var end := start + |contents|;
    if At(batch, offset, header + [NL] + contents + [NL]) {
      FrameSplits(batch, offset, header, contents);
    }
    if At(batch, offset, header + [NL]) && end < |batch| && batch[start..end] == contents && batch[end] == NL {
      FrameJoins(batch, offset, header, contents);
    }
  }

  /** Accepted behind a header of non-negative size: exactly the whole frame. */
  lemma BodyExactly(batch: bytes, start: nat, size: nat, contents: bytes, next: int)
    requires start <= |batch|
    ensures Body(batch, start, size) == Some((contents, next)) <==>
              |contents| == size && start + size < |batch| && batch[start..start + size] == contents && batch[start + size] == NL && next == start + size + 1
  {
    if start + size < |batch| {
      assert Slice(batch, start + size, start + size + 1) == [batch[start + size]];
    }
  }

  lemma ParsesBehind(read: HeaderReader, batch: bytes, oid: bytes, offset: nat, header: bytes, size: int)
    requires At(batch, offset, header + [NL]) && read(header, oid) == Some(size) && forall k | 0 <= k < |header| :: header[k] != NL
    ensures ParseOne(read, batch, oid, offset) == Body(batch, offset + |header| + 1, size)
  {
    LineFound(batch, offset, header);
  }

  lemma BodyIsFrame(batch: bytes, offset: nat, header: bytes, size: nat, contents: bytes, next: int)
    requires At(batch, offset, header + [NL])
    ensures Body(batch, offset + |header| + 1, size) == Some((contents, next)) <==>
              |contents| == size && At(batch, offset, header + [NL] + contents + [NL]) && next == offset + |header| + size + 2
  {
    BodyExactly(batch, offset + |header| + 1, size, contents, next);
    JoinParts(batch, offset, header, contents);
  }

  lemma ParsesFrame(read: HeaderReader, batch: bytes, oid: bytes, offset: nat, header: bytes, size: nat, contents: bytes, next: int)
    requires At(batch, offset, header + [NL]) && read(header, oid) == Some(size) && forall k | 0 <= k < |header| :: header[k] != NL
    ensures ParseOne(read, batch, oid, offset) == Some((contents, next)) <==>
              |contents| == size && At(batch, offset, header + [NL] + contents + [NL]) && next == offset + |header| + size + 2
  {
    ParsesBehind(read, batch, oid, offset, header, size);
    BodyIsFrame(batch, offset, header, size, contents, next);
  }

  lemma FrameSize(oid: bytes, text: bytes, contents: bytes)
    ensures |FrameOf(oid, text, contents)| == |HeaderOf(oid, text)| + |contents| + 2
  {}

  lemma FramedIsAccepted(batch: bytes, oid: bytes, offset: nat, contents: bytes, next: int)
    requires FramedAt(batch, offset, oid, contents, next)
    ensures ParseOne(HeaderSize, batch, oid, offset) == Some((contents, next))
    ensures Announces(batch, offset, oid, |contents|)
  {
    var text :| Fields(oid, text) && ParseInt(text) == Some(|contents|) && At(batch, offset, FrameOf(oid, text, contents))
                && next == offset + |FrameOf(oid, text, contents)|;
    FrameSize(oid, text, contents);
    JoinParts(batch, offset, HeaderOf(oid, text), contents);
    HeaderReads(oid, text);
    ParsesFrame(HeaderSize, batch, oid, offset, HeaderOf(oid, text), |contents|, contents, next);
  }

  lemma AcceptedIsFramed(batch: bytes, oid: bytes, offset: nat, size: nat, contents: bytes, next: int)
    requires Announces(batch, offset, oid, size)
    requires ParseOne(HeaderSize, batch, oid, offset) == Some((contents, next))
    ensures FramedAt(batch, offset, oid, contents, next)
  {
    var text :| Fields(oid, text) && ParseInt(text) == Some(size) && At(batch, offset, HeaderOf(oid, text) + [NL]);
    HeaderReads(oid, text);
    ParsesFrame(HeaderSize, batch, oid, offset, HeaderOf(oid, text), size, contents, next);
    FrameSize(oid, text, contents);
  }

  lemma OneAnnouncement(batch: bytes, offset: nat, oid: bytes, size: int, other: int)
    requires offset <= |batch| && Announces(batch, offset, oid, size) && Announces(batch, offset, oid, other)
    ensures size == other
  {
    HeaderLine(batch, offset, oid, size);
    HeaderLine(batch, offset, oid, other);
  }

  ghost predicate NegativeAt(batch: bytes, offset: nat, oid: bytes) { exists size :: size < 0 && Announces(batch, offset, oid, size) }

  /** What is accepted was there, from its header to its closing line end, exactly
      unless the header announces a negative size. */
  lemma AcceptedExactly(batch: bytes, oid: bytes, offset: nat, contents: bytes, next: int)
    requires offset <= |batch|
    ensures ParseOne(HeaderSize, batch, oid, offset) == Some((contents, next)) && !NegativeAt(batch, offset, oid) <==>
              FramedAt(batch, offset, oid, contents, next)
  {
    if FramedAt(batch, offset, oid, contents, next) {
      FramedIsAccepted(batch, oid, offset, contents, next);
      if size :| size < 0 && Announces(batch, offset, oid, size) {
        OneAnnouncement(batch, offset, oid, |contents|, size);
      }
    }
    if ParseOne(HeaderSize, batch, oid, offset) == Some((contents, next)) && !NegativeAt(batch, offset, oid) {
      var size := HeaderSize(Slice(batch, offset, Index(batch, NL, offset).value), oid).value;
      HeaderLine(batch, offset, oid, size);
      AcceptedIsFramed(batch, oid, offset, size, contents, next);
    }
  }

  lemma BodilessIsParsed(read: HeaderReader, header: bytes, oid: bytes, after: bytes)
    requires read(header, oid) == Some(-1) && forall k | 0 <= k < |header| :: header[k] != NL
    ensures At(header + [NL] + after, 0, header + [NL])
    ensures ParseOne(read, header + [NL] + after, oid, 0) == Some(([], |header| + 1))
  {
    var batch := header + [NL] + after;
    assert batch[0..|header| + 1] == header + [NL];
    ParsesBehind(read, batch, oid, 0, header, -1);
    assert Slice(batch, |header|, |header| + 1) == [NL];
  }

  /** And such a header is accepted: an object without a body is read as an empty one,
      and the next is looked for right behind the header. */
  lemma NegativeSizeAccepted(oid: bytes, after: bytes)
    requires ValidOid(oid)
    ensures var line := HeaderOf(oid, [MINUS] + Decimal(1)) + [NL];
            && ParseOne(HeaderSize, line + after, oid, 0) == Some(([], |line|))
            && NegativeAt(line + after, 0, oid)
  {
    var text := [MINUS] + Decimal(1);
    IntegerText(1, []);
    assert text == [45, 49];
    HeaderReads(oid, text);
    BodilessIsParsed(HeaderSize, HeaderOf(oid, text), oid, after);
    LineAnnounces(HeaderOf(oid, text) + [NL] + after, 0, oid, -1, HeaderOf(oid, text));
  }

  // --- the whole stream

  /** Frame after frame, for these ids in this order. */
  ghost predicate Framed(batch: bytes, oids: seq<bytes>, contents: seq<bytes>, offset: nat)
    decreases |oids|
  {
    if oids == [] then contents == []
    else
      contents != [] && exists next: nat ::
        next <= |batch| && FramedAt(batch, offset, oids[0], contents[0], next) && Framed(batch, oids[1..], contents[1..], next)
  }

  /** No header that is read announces a negative size. */
  ghost predicate Sized(batch: bytes, oids: seq<bytes>, offset: nat)
    decreases |oids|
  {
    oids == [] ||
    (!NegativeAt(batch, offset, oids[0]) &&
     forall c: bytes, next: nat | ParseOne(HeaderSize, batch, oids[0], offset) == Some((c, next)) :: Sized(batch, oids[1..], next))
  }

  lemma FramedEnds(batch: bytes, offset: nat, oid: bytes, contents: bytes, next: int)
    requires FramedAt(batch, offset, oid, contents, next)
    ensures offset < next <= |batch|
  {}

  lemma ParsesOn(read: HeaderReader, batch: bytes, oids: seq<bytes>, offset: int, contents: seq<bytes>, next: int)
    requires oids != [] && contents != [] && ParseOne(read, batch, oids[0], offset) == Some((contents[0], next))
    requires Parse(read, batch, oids[1..], next) == Some(contents[1..])
    ensures Parse(read, batch, oids, offset) == Some(contents)
  {
    assert contents == [contents[0]] + contents[1..];
  }

  lemma {:induction false} FramedIsParsed(batch: bytes, oids: seq<bytes>, contents: seq<bytes>, offset: nat)
    requires offset <= |batch| && Framed(batch, oids, contents, offset)
    ensures Parse(HeaderSize, batch, oids, offset) == Some(contents) && Sized(batch, oids, offset)
    decreases |oids|
  {
    if oids != [] {
      var next: nat :| next <= |batch| && FramedAt(batch, offset, oids[0], contents[0], next) && Framed(batch, oids[1..], contents[1..], next);
      AcceptedExactly(batch, oids[0], offset, contents[0], next);
      FramedIsParsed(batch, oids[1..], contents[1..], next);
      ParsesOn(HeaderSize, batch, oids, offset, contents, next);
    }
  }

  lemma {:induction false} ParsedIsFramed(batch: bytes, oids: seq<bytes>, contents: seq<bytes>, offset: nat)
    requires offset <= |batch| && Parse(HeaderSize, batch, oids, offset) == Some(contents) && Sized(batch, oids, offset)
    ensures Framed(batch, oids, contents, offset)
    decreases |oids|
  {
    if oids != [] {
      var (c, next) := ParseOne(HeaderSize, batch, oids[0], offset).value;
      var rest := Parse(HeaderSize, batch, oids[1..], next).value;
      assert contents[0] == c && contents[1..] == rest;
      AcceptedExactly(batch, oids[0], offset, c, next);
      FramedEnds(batch, offset, oids[0], c, next);
      ParsedIsFramed(batch, oids[1..], rest, next);
    }
  }

  /** The parse of a stream whose headers announce no negative size answers these
      contents exactly when the stream starts with their frames, one after another. */
  lemma ParsesExactlyFrames(batch: bytes, oids: seq<bytes>, contents: seq<bytes>)
    ensures Parse(HeaderSize, batch, oids, 0) == Some(contents) && Sized(batch, oids, 0) <==> Framed(batch, oids, contents, 0)
  {
    if Framed(batch, oids, contents, 0) {
      FramedIsParsed(batch, oids, contents, 0);
    }
    if Parse(HeaderSize, batch, oids, 0) == Some(contents) && Sized(batch, oids, 0) {
      ParsedIsFramed(batch, oids, contents, 0);
    }
  }
}
