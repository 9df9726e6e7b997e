/** The framed handoff from the heartbeat supervisor to its lock guard over a pipe:
    a four-byte big-endian length, the payload, end of file. */
module GuardHandoff {

  datatype Option<T> = None | Some(value: T)

  type byte = x: int | 0 <= x < 256

  const MIN_FRAME := 2
  const MAX_FRAME := 64 * 1024

  function BigEndian(n: nat): (b: seq<byte>)
    requires n < 0x1_0000_0000
    ensures |b| == 4
  {
    [n / 0x100_0000, n / 0x1_0000 % 0x100, n / 0x100 % 0x100, n % 0x100]
  }

  function FromBigEndian(b: seq<byte>): nat
    requires |b| == 4
  {
    b[0] as int * 0x100_0000 + b[1] as int * 0x1_0000 + b[2] as int * 0x100 + b[3]
  }

  lemma BigEndianInverse(n: nat)
    requires n < 0x1_0000_0000
    ensures FromBigEndian(BigEndian(n)) == n
  {
    assert n == n / 0x100 * 0x100 + n % 0x100;
    assert n / 0x100 == n / 0x1_0000 * 0x100 + n / 0x100 % 0x100;
    assert n / 0x1_0000 == n / 0x100_0000 * 0x100 + n / 0x1_0000 % 0x100;
  }

  lemma BigEndianUnique(b: seq<byte>)
    requires |b| == 4
    ensures FromBigEndian(b) < 0x1_0000_0000 && BigEndian(FromBigEndian(b)) == b
  {
    var n := FromBigEndian(b);
    assert n / 0x100 == b[0] as int * 0x1_0000 + b[1] as int * 0x100 + b[2];
    assert n / 0x1_0000 == b[0] as int * 0x100 + b[1];
    assert n / 0x100_0000 == b[0];
  }

  function Frame(payload: seq<byte>): seq<byte>
    requires |payload| < 0x1_0000_0000
  {
    BigEndian(|payload|) + payload
  }

  /** What the guard makes of everything written before the pipe is closed. */
  function Decode(stream: seq<byte>): Option<seq<byte>> {
    if |stream| < 4 then None
    else
      var size := FromBigEndian(stream[..4]);
      if size < MIN_FRAME || size > MAX_FRAME || |stream| != 4 + size then None else Some(stream[4..])
  }

  /** A payload is accepted exactly from its own single frame: four bytes that are its
      length, most significant first, itself, and nothing else. */
  lemma DecodesExactlyItsFrame(stream: seq<byte>, payload: seq<byte>)
    ensures Decode(stream) == Some(payload) <==> 2 <= |payload| <= 65536 && stream == Frame(payload)
    ensures Decode(stream) == Some(payload) <==>
              && 2 <= |payload| <= 65536 && |stream| == 4 + |payload| && stream[4..] == payload
              && stream[0] as int * 16777216 + stream[1] as int * 65536 + stream[2] as int * 256 + stream[3] as int == |payload|
  {
    if 2 <= |payload| <= 65536 && stream == Frame(payload) {
      BigEndianInverse(|payload|);
      assert stream[..4] == BigEndian(|payload|) && stream[4..] == payload;
    }
    if |stream| >= 4 {
      BigEndianUnique(stream[..4]);
      assert stream == stream[..4] + stream[4..];
    }
  }

  /** A truncated frame, and a frame with anything after it, are both refused. */
  lemma TruncatedOrTrailingRefused(payload: seq<byte>, k: nat, extra: seq<byte>)
    requires |payload| <= MAX_FRAME && k < |Frame(payload)| && extra != []
    ensures Decode(Frame(payload)[..k]) == None
    ensures Decode(Frame(payload) + extra) == None
  {
    BigEndianInverse(|payload|);
    if k >= 4 { assert Frame(payload)[..k][..4] == BigEndian(|payload|); }
    assert (Frame(payload) + extra)[..4] == BigEndian(|payload|);
  }

  // ---------------------------------------------------------------------------
  // The pipe, with partial writes and reads of any size

  class Pipe {
    var stream: seq<byte>

    /** Some write has failed. */
    var broken: bool

    constructor ()
      ensures stream == [] && !broken
    {
      stream, broken := [], false;
    }

    /** Writes some prefix and reports its length; nothing is written on failure. */
    method OsWrite(data: seq<byte>) returns (written: int)
      modifies this
      ensures written <= |data|
      ensures stream == old(stream) + if written > 0 then data[..written] else []
      ensures broken == (old(broken) || written <= 0)
    {
      written :| -1 <= written <= |data|;
      if written > 0 { stream := stream + data[..written]; }
      broken := broken || written <= 0;
    }

    /** Reads at most `limit` bytes; nothing only at end of file. */
    method OsRead(limit: nat) returns (chunk: seq<byte>)
      requires limit > 0
      modifies this
      ensures old(stream) == chunk + stream && |chunk| <= limit
      ensures chunk == [] <==> old(stream) == []
      ensures broken == old(broken)
    {
      if stream == [] { return []; }
      var n: nat :| 0 < n <= |stream| && n <= limit;
      chunk := stream[..n];
      stream := stream[n..];
    }

    method WriteAll(data: seq<byte>) returns (ok: bool)
      requires !broken
      modifies this
      ensures ok == !broken
      ensures ok ==> stream == old(stream) + data
      ensures !ok ==> exists k | 0 <= k < |data| :: stream == old(stream) + data[..k]
    {
      var offset := 0;
      while offset < |data|
        invariant 0 <= offset <= |data| && !broken
        invariant stream == old(stream) + data[..offset]
      {
        var written := OsWrite(data[offset..]);
        if written <= 0 {
          return false;
        }
        assert data[..offset] + data[offset..][..written] == data[..offset + written];
        offset := offset + written;
      }
      ok := true;
    }

    /** Reads exactly `size` bytes, or None at a premature end of file. */
    method ReadExactly(size: nat) returns (r: Option<seq<byte>>)
      modifies this
      ensures broken == old(broken)
      ensures |old(stream)| < size ==> r.None?
      ensures |old(stream)| >= size ==> r == Some(old(stream)[..size]) && stream == old(stream)[size..]
    {
      var message: seq<byte> := [];
      while |message| < size
        invariant |message| <= size && broken == old(broken)
        invariant old(stream) == message + stream
        decreases size - |message|
      {
        var chunk := OsRead(size - |message|);
        if chunk == [] {
          return None;
        }
        message := message + chunk;
      }
      r := Some(message);
    }

    method ReadHandoff() returns (r: Option<seq<byte>>)
      modifies this
      ensures r == Decode(old(stream)) && broken == old(broken)
    {
      var header := ReadExactly(4);
      if header.None? {
        return None;
      }
      var size := FromBigEndian(header.value);
      if size < MIN_FRAME || size > MAX_FRAME {
        return None;
      }
      ghost var body := stream;
      assert body == old(stream)[4..];
      r := ReadExactly(size);
      if r.Some? {
        var trailing := OsRead(1);
        if trailing != [] {
          return None;
        }
        assert |body| == size && body[..size] == body;
      }
    }
  }

  /** Publication and reading over a fresh pipe, end to end: a payload within the bounds
      arrives whole exactly if no write fails, and nothing ever arrives but that. */
  method Handoff(pipe: Pipe, payload: seq<byte>) returns (sent: bool, received: Option<seq<byte>>)
    requires pipe.stream == [] && !pipe.broken
    modifies pipe
    ensures sent == (|payload| <= 65536 && !pipe.broken)
    ensures received == if sent && |payload| >= 2 then Some(payload) else None
    ensures pipe.broken ==> |payload| <= 65536
  {
    if |payload| > MAX_FRAME {
      return false, None;
    }
    sent := pipe.WriteAll(Frame(payload));
    ghost var written := pipe.stream;
    received := pipe.ReadHandoff();
    if sent {
      DecodesExactlyItsFrame(written, payload);
      if received.Some? {
        DecodesExactlyItsFrame(written, received.value);
        BigEndianInverse(|payload|);
        assert written[4..] == payload;
      }
    } else {
      ghost var k :| 0 <= k < |Frame(payload)| && written == Frame(payload)[..k];
      TruncatedOrTrailingRefused(payload, k, [0]);
    }
  }
}
