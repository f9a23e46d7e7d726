/** Length-prefixed frames on a byte stream (`engine/internal/protocol/protocol.go`). */
module Protocol {
  import opened Basics

  const HEADER_SIZE := 6
  const MAX_FRAME_SIZE := 0x100_0000
  const TYPE_BLOCK_DATA: byte := 5

  datatype Frame = Frame(typ: byte, payload: Bytes)

  type WritableFrame = f: Frame | |f.payload| <= MAX_FRAME_SIZE witness Frame(0, [])

  function BigEndian(n: nat): (b: Bytes)
    requires n < 0x1_0000_0000
    ensures |b| == 4
  {
    var q1 := n / 0x100;
    var q2 := q1 / 0x100;
    [(q2 / 0x100) as byte, (q2 % 0x100) as byte, (q1 % 0x100) as byte, (n % 0x100) as byte]
  }

  function FromBigEndian(b: Bytes): nat
    requires |b| == 4
  {
    ((b[0] as int * 0x100 + b[1] as int) * 0x100 + b[2] as int) * 0x100 + b[3] as int
  }

  lemma BigEndianRoundTrip(n: nat)
    requires n < 0x1_0000_0000
    ensures FromBigEndian(BigEndian(n)) == n
  {
  }

  lemma BigEndianIsOnto(b: Bytes)
    requires |b| == 4
    ensures FromBigEndian(b) < 0x1_0000_0000 && BigEndian(FromBigEndian(b)) == b
  {
    var q2 := b[0] as int * 0x100 + b[1] as int;
    var q1 := q2 * 0x100 + b[2] as int;
    assert FromBigEndian(b) / 0x100 == q1 && q1 / 0x100 == q2 && q2 / 0x100 == b[0] as int;
  }

  function Header(f: WritableFrame): (h: Bytes)
    ensures |h| == HEADER_SIZE
  {
    [f.typ, 0] + BigEndian(|f.payload|)
  }

  function Encode(f: WritableFrame): Bytes {
    Header(f) + f.payload
  }

  /** The bytes on the wire, one by one: the type, a zero, the length of the payload with the
      highest byte first, and the payload. */
  lemma EncodedBytes(f: WritableFrame)
    ensures var b := Encode(f);
            && |b| == 6 + |f.payload| && b[0] == f.typ && b[1] == 0
            && b[2] as int * 0x100_0000 + b[3] as int * 0x1_0000 + b[4] as int * 0x100 + b[5] as int == |f.payload|
            && b[6..] == f.payload
  {
    BigEndianRoundTrip(|f.payload|);
    assert Encode(f)[2..6] == BigEndian(|f.payload|);
  }

  function EncodeAll(fs: seq<WritableFrame>): Bytes {
    if fs == [] then [] else Encode(fs[0]) + EncodeAll(fs[1..])
  }

  /** Why reading stopped: a plain end of file, an end inside a frame, or a length
      over the limit. */
  datatype End = Eof | UnexpectedEof | TooLarge

  /** What `ReadFrame` finds at `p`. The second `io.ReadFull` reports a plain end of
      file when not a single payload byte follows the header. */
  function ReadAt(b: Bytes, p: nat): (r: Result<Frame, End>)
    requires p <= |b|
    ensures r.Success? ==> p + HEADER_SIZE + |r.value.payload| <= |b|
  {
    var left := |b| - p;
    if left == 0 then Failure(Eof)
    else if left < HEADER_SIZE then Failure(UnexpectedEof)
    else
      var length := FromBigEndian(b[p + 2..p + 6]);
      if length > MAX_FRAME_SIZE then Failure(TooLarge)
      else if left - HEADER_SIZE >= length then
        Success(Frame(b[p], b[p + HEADER_SIZE..p + HEADER_SIZE + length]))
      else if left == HEADER_SIZE then Failure(Eof)
      else Failure(UnexpectedEof)
  }

  /** What is read at `p`, told by the bytes that are left: nothing, less than a header, a
      length over 16 MiB, a whole frame, or less than that. */
  lemma ReadsExactly(b: Bytes, p: nat)
    requires p <= |b|
    ensures |b| == p ==> ReadAt(b, p) == Failure(Eof)
    ensures 0 < |b| - p < 6 ==> ReadAt(b, p) == Failure(UnexpectedEof)
    ensures |b| - p >= 6 ==>
              var n := b[p + 2] as int * 0x100_0000 + b[p + 3] as int * 0x1_0000 + b[p + 4] as int * 0x100 + b[p + 5] as int;
              && (n > 16 * 1024 * 1024 ==> ReadAt(b, p) == Failure(TooLarge))
              && (n <= 16 * 1024 * 1024 && |b| - p >= 6 + n ==> ReadAt(b, p) == Success(Frame(b[p], b[p + 6..p + 6 + n])))
              && (n <= 16 * 1024 * 1024 && |b| - p < 6 + n ==>
                    ReadAt(b, p) == Failure(if |b| - p == 6 then Eof else UnexpectedEof))
  {
    if |b| - p >= 6 {
      var l := b[p + 2..p + 6];
      assert l[0] == b[p + 2] && l[1] == b[p + 3] && l[2] == b[p + 4] && l[3] == b[p + 5];
    }
  }

  /** All frames from `p` on, until one cannot be read. */
  function ReadAll(b: Bytes, p: nat): (r: (seq<Frame>, End))
    requires p <= |b|
    decreases |b| - p
  {
    match ReadAt(b, p)
    case Failure(end) => ([], end)
    case Success(f) =>
      var rest := ReadAll(b, p + HEADER_SIZE + |f.payload|);
      ([f] + rest.0, rest.1)
  }

  /** Bytes that begin like the encoding of `f`, cut anywhere or followed by anything. */
  lemma ReadsEncoded(b: Bytes, p: nat, f: WritableFrame)
    requires p <= |b|
    requires forall i :: 0 <= i < Min(|Encode(f)|, |b| - p) ==> b[p + i] == Encode(f)[i]
    ensures |Encode(f)| <= |b| - p ==> ReadAt(b, p) == Success(f)
    ensures |Encode(f)| > |b| - p ==>
              ReadAt(b, p) == Failure(if |b| - p == 0 || |b| - p == HEADER_SIZE then Eof else UnexpectedEof)
  {
    if |b| - p >= HEADER_SIZE {
      assert b[p + 2..p + 6] == Encode(f)[2..6] == BigEndian(|f.payload|);
      BigEndianRoundTrip(|f.payload|);
      assert b[p] == b[p + 0] == Encode(f)[0] == f.typ;
      if |Encode(f)| <= |b| - p {
        assert b[p + HEADER_SIZE..p + HEADER_SIZE + |f.payload|] == f.payload;
      }
    }
  }

  /** How many of the frames `fs` lie entirely in the first `n` bytes of their encoding. */
  function Whole(fs: seq<WritableFrame>, n: nat): (k: nat)
    ensures k <= |fs|
  {
    if fs == [] || |Encode(fs[0])| > n then 0 else 1 + Whole(fs[1..], n - |Encode(fs[0])|)
  }

  function EncodedLength(fs: seq<WritableFrame>): nat {
    if fs == [] then 0 else |Encode(fs[0])| + EncodedLength(fs[1..])
  }

  /** b[p..] is a prefix of the encoding of `fs`. */
  ghost predicate Begins(b: Bytes, p: nat, fs: seq<WritableFrame>) {
    && p <= |b| <= p + |EncodeAll(fs)|
    && forall i :: 0 <= i < |b| - p ==> b[p + i] == EncodeAll(fs)[i]
  }

  lemma BeginsStep(b: Bytes, p: nat, fs: seq<WritableFrame>)
    requires Begins(b, p, fs) && fs != []
    ensures forall i :: 0 <= i < Min(|Encode(fs[0])|, |b| - p) ==> b[p + i] == Encode(fs[0])[i]
    ensures |Encode(fs[0])| <= |b| - p ==> Begins(b, p + |Encode(fs[0])|, fs[1..])
  {
    var e, rest := |Encode(fs[0])|, EncodeAll(fs[1..]);
    assert EncodeAll(fs) == Encode(fs[0]) + rest;
    forall i | 0 <= i < Min(e, |b| - p)
      ensures b[p + i] == Encode(fs[0])[i]
    {
      assert b[p + i] == EncodeAll(fs)[i];
    }
    if e <= |b| - p {
      forall i | 0 <= i < |b| - (p + e)
        ensures b[p + e + i] == rest[i]
      {
        assert b[p + (e + i)] == EncodeAll(fs)[e + i];
      }
    }
  }

  lemma TakeCons<T>(s: seq<T>, k: nat)
    requires 0 < k <= |s|
    ensures s[..k] == [s[0]] + s[1..][..k - 1] && s[..k][1..] == s[1..][..k - 1]
  {
  }

  /** Reading `b` from `p` on yields the frames of `fs` that are whole, and then stops quietly
      if the cut is between two frames or right behind a header, with an error otherwise. */
  ghost predicate YieldsWhole(fs: seq<WritableFrame>, b: Bytes, p: nat)
    requires p <= |b|
  {
    var k := Whole(fs, |b| - p);
    var left := |b| - p - EncodedLength(fs[..k]);
    && ReadAll(b, p).0 == fs[..k]
    && left >= 0
    && ReadAll(b, p).1 == (if left == 0 || left == HEADER_SIZE then Eof else UnexpectedEof)
  }

  lemma OneFrameMore(fs: seq<WritableFrame>, b: Bytes, p: nat)
    requires fs != [] && p + |Encode(fs[0])| <= |b| && ReadAt(b, p) == Success(fs[0])
    requires YieldsWhole(fs[1..], b, p + |Encode(fs[0])|)
    ensures YieldsWhole(fs, b, p)
  {
    var k := Whole(fs, |b| - p);
    assert k == 1 + Whole(fs[1..], |b| - p - |Encode(fs[0])|);
    TakeCons(fs, k);
    assert EncodedLength(fs[..k]) == |Encode(fs[0])| + EncodedLength(fs[1..][..k - 1]);
  }

  /** So it is for every truncated stream. */
  lemma {:induction false} TruncatedStream(fs: seq<WritableFrame>, b: Bytes, p: nat)
    requires Begins(b, p, fs)
    ensures YieldsWhole(fs, b, p)
    decreases |fs|
  {
    if fs != [] {
      BeginsStep(b, p, fs);
      ReadsEncoded(b, p, fs[0]);
      if |Encode(fs[0])| <= |b| - p {
        TruncatedStream(fs[1..], b, p + |Encode(fs[0])|);
        OneFrameMore(fs, b, p);
      }
    }
  }

  lemma {:induction false} WholeEncoding(fs: seq<WritableFrame>)
    ensures |EncodeAll(fs)| == EncodedLength(fs) && Whole(fs, EncodedLength(fs)) == |fs|
  {
    if fs != [] {
      WholeEncoding(fs[1..]);
    }
  }

  /** Reading back any sequence of written frames returns it and then a plain end. */
  lemma StreamRoundTrip(fs: seq<WritableFrame>)
    ensures ReadAll(EncodeAll(fs), 0) == (fs, Eof)
  {
    var b := EncodeAll(fs);
    TruncatedStream(fs, b, 0);
    WholeEncoding(fs);
    assert fs[..|fs|] == fs;
  }

  /** Whatever `ReadFrame` accepts is the encoding of what it returned, but for the
      second byte, which it ignores. */
  lemma AcceptedBytesAreEncodings(b: Bytes, p: nat)
    requires p <= |b| && ReadAt(b, p).Success?
    ensures var f := ReadAt(b, p).value;
            && |f.payload| <= MAX_FRAME_SIZE
            && b[p..p + HEADER_SIZE + |f.payload|][1 := 0] == Encode(f)
  {
    var f := ReadAt(b, p).value;
    BigEndianIsOnto(b[p + 2..p + 6]);
    assert b[p..p + HEADER_SIZE + |f.payload|] == b[p..p + 2] + b[p + 2..p + 6] + f.payload;
  }

  /** One direction of a connection: what was written and not yet read. */
  class Stream {
    var pending: Bytes

    constructor ()
      ensures pending == []
    {
      pending := [];
    }

    method WriteFrame(typ: byte, payload: Bytes) returns (ok: bool)
      modifies this
      ensures ok <==> |payload| <= MAX_FRAME_SIZE
      ensures pending == old(pending) + if ok then Encode(Frame(typ, payload)) else []
    {
      if |payload| > MAX_FRAME_SIZE {
        return false;
      }
      var hdr := new byte[HEADER_SIZE](_ => 0);
      hdr[0] := typ;
      PutUint32(hdr, 2, |payload|);
      assert hdr[..] == Header(Frame(typ, payload));
      pending := pending + (hdr[..] + payload);
      return true;
    }

    method PutUint32(buf: array<byte>, at: nat, n: nat)
      requires at + 4 <= buf.Length && n < 0x1_0000_0000
      modifies buf
      ensures buf[..] == old(buf[..at]) + BigEndian(n) + old(buf[at + 4..])
    {
      var b := BigEndian(n);
      buf[at], buf[at + 1], buf[at + 2], buf[at + 3] := b[0], b[1], b[2], b[3];
    }

    /** `io.ReadFull` of `n` bytes. */
    method ReadFull(n: nat) returns (r: Result<Bytes, End>)
      modifies this
      ensures n <= |old(pending)| ==> r == Success(old(pending[..n])) && pending == old(pending[n..])
      ensures n > |old(pending)| ==> r == Failure(if old(pending) == [] then Eof else UnexpectedEof) && pending == []
    {
      if n <= |pending| {
        r, pending := Success(pending[..n]), pending[n..];
      } else {
        r, pending := Failure(if pending == [] then Eof else UnexpectedEof), [];
      }
    }

    method ReadFrame() returns (r: Result<Frame, End>)
      modifies this
      ensures r == ReadAt(old(pending), 0)
      ensures r.Success? ==> pending == old(pending[HEADER_SIZE + |r.value.payload|..])
    {
      var hdr := ReadFull(HEADER_SIZE);
      if hdr.Failure? {
        return Failure(hdr.error);
      }
      assert hdr.value[2..] == old(pending)[0 + 2..0 + 6];
      var length := FromBigEndian(hdr.value[2..]);
      if length > MAX_FRAME_SIZE {
        return Failure(TooLarge);
      }
      var payload := ReadFull(length);
      if payload.Failure? {
        return Failure(payload.error);
      }
      assert payload.value == old(pending)[0 + HEADER_SIZE..0 + HEADER_SIZE + length];
      return Success(Frame(hdr.value[0], payload.value));
    }

    method WriteBlockData(hash: Hash, data: Bytes) returns (ok: bool)
      modifies this
      ensures ok <==> HASH_SIZE + |data| <= MAX_FRAME_SIZE
      ensures pending == old(pending) + if ok then Encode(Frame(TYPE_BLOCK_DATA, BlockPayload(hash, data))) else []
    {
      ok := WriteFrame(TYPE_BLOCK_DATA, hash + data);
    }
  }

  function BlockPayload(hash: Hash, data: Bytes): Bytes {
    hash + data
  }

  function ParseBlockData(payload: Bytes): Option<(Hash, Bytes)> {
    if |payload| < HASH_SIZE then None else Some((payload[..HASH_SIZE], payload[HASH_SIZE..]))
  }

  /** Block payloads split back into the digest and the data, and nothing else parses. */
  lemma BlockDataRoundTrip(hash: Hash, data: Bytes, payload: Bytes)
    ensures ParseBlockData(payload) == Some((hash, data)) <==> payload == BlockPayload(hash, data)
    ensures ParseBlockData(payload) == Some((hash, data)) <==> |payload| >= 32 && payload[..32] == hash && payload[32..] == data
    ensures ParseBlockData(payload) == None <==> |payload| < 32
  {
    if ParseBlockData(payload) == Some((hash, data)) {
      assert payload == payload[..HASH_SIZE] + payload[HASH_SIZE..];
    }
  }
}
