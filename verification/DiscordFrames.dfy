/** Length-prefixed frames on the Discord pipe. A body is JSON text; encoding is left open, as an
invertible codec. */
module DiscordFrames {
  import opened Prelude

  const MAX_FRAME_BYTES: nat := 1024 * 1024
  const U32_RANGE: nat := 0x1_0000_0000

  datatype FrameError = TooLarge | EndOfStream | InvalidBody

  datatype Codec<!V> = Codec(encode: V -> Bytes, decode: Bytes -> Option<V>)

  // Decoding inverts encoding.
  ghost predicate Invertible<V(!new)>(c: Codec<V>) {
    forall v :: c.decode(c.encode(v)) == Some(v)
  }

  // ---- 32-bit little-endian numbers ----

  function ToLe32(n: nat): (bytes: Bytes)
    requires n < U32_RANGE
    ensures |bytes| == 4
  {
    [(n % 256) as Byte, (n / 256 % 256) as Byte, (n / 65536 % 256) as Byte, (n / 16777216) as Byte]
  }

  function FromLe32(bytes: Bytes): (n: nat)
    requires |bytes| == 4
    ensures n < U32_RANGE
  {
    bytes[0] as nat + 256 * (bytes[1] as nat) + 65536 * (bytes[2] as nat) + 16777216 * (bytes[3] as nat)
  }

  /** Reading a number back gives it, and writing what was read gives the bytes. */
  lemma {:induction false} Le32RoundTrip(n: nat)
    requires n < U32_RANGE
    ensures FromLe32(ToLe32(n)) == n
  {
    var a, b, c := n / 256, n / 65536, n / 16777216;
    assert b == a / 256 && c == b / 256;
  }

  lemma {:induction false} Le32Inverse(bytes: Bytes)
    requires |bytes| == 4
    ensures ToLe32(FromLe32(bytes)) == bytes
  {
    Digits256(bytes[0] as nat, bytes[1] as nat, bytes[2] as nat, bytes[3] as nat);
  }

  // The number four bytes stand for, the least significant first.
  predicate StandsFor(bytes: Bytes, n: nat) {
    |bytes| == 4
    && n == bytes[0] as nat + 0x100 * (bytes[1] as nat) + 0x1_0000 * (bytes[2] as nat) + 0x100_0000 * (bytes[3] as nat)
  }

  lemma {:induction false} LeastSignificantFirst(n: nat)
    requires n < U32_RANGE
    ensures StandsFor(ToLe32(n), n)
  {
    Le32RoundTrip(n);
  }

  lemma {:induction false} Digits256(b0: nat, b1: nat, b2: nat, b3: nat)
    requires b0 < 256 && b1 < 256 && b2 < 256 && b3 < 256
    ensures var n := b0 + 256 * b1 + 65536 * b2 + 16777216 * b3;
            n % 256 == b0 && n / 256 % 256 == b1 && n / 65536 % 256 == b2 && n / 16777216 == b3
  {
    var n := b0 + 256 * b1 + 65536 * b2 + 16777216 * b3;
    var upper := b1 + 256 * b2 + 65536 * b3;
    assert n == b0 + 256 * upper;
    assert n / 256 == upper && upper / 256 == b2 + 256 * b3;
    assert n / 65536 == upper / 256 && n / 16777216 == upper / 65536;
  }

  // ---- Frames ----

  datatype Frame<V> = Frame(opcode: nat, value: V)

  predicate Fits<V>(f: Frame<V>, c: Codec<V>) {
    f.opcode < U32_RANGE && |c.encode(f.value)| <= MAX_FRAME_BYTES
  }

  function Encoded<V>(f: Frame<V>, c: Codec<V>): Bytes
    requires Fits(f, c)
  {
    var body := c.encode(f.value);
    ToLe32(f.opcode) + ToLe32(|body|) + body
  }

  function EncodedAll<V>(frames: seq<Frame<V>>, c: Codec<V>): Bytes
    requires forall i :: 0 <= i < |frames| ==> Fits(frames[i], c)
  {
    if frames == [] then [] else Encoded(frames[0], c) + EncodedAll(frames[1..], c)
  }

  // What reading one frame off the front of a stream yields, and the bytes left.
  datatype Read<V> = Read(result: Result<Frame<V>, FrameError>, rest: Bytes)

  function ReadOne<V>(stream: Bytes, c: Codec<V>): Read<V> {
    if |stream| < 8 then Read(Err(EndOfStream), []) else
    var opcode, length := FromLe32(stream[..4]), FromLe32(stream[4..8]);
    var rest := stream[8..];
    if length > MAX_FRAME_BYTES then Read(Err(TooLarge), rest)
    else if |rest| < length then Read(Err(EndOfStream), [])
    else
      var value := c.decode(rest[..length]);
      Read(if value.Some? then Ok(Frame(opcode, value.value)) else Err(InvalidBody), rest[length..])
  }

  /** A written frame is read back, and the reading takes exactly its bytes. */
  lemma {:induction false} FrameRoundTrip<V(!new)>(f: Frame<V>, c: Codec<V>, rest: Bytes)
    requires Invertible(c) && Fits(f, c)
    ensures ReadOne(Encoded(f, c) + rest, c) == Read(Ok(f), rest)
  {
    var body := c.encode(f.value);
    var stream := Encoded(f, c) + rest;
    Le32RoundTrip(f.opcode);
    Le32RoundTrip(|body|);
    assert stream[..4] == ToLe32(f.opcode);
    assert stream[4..8] == ToLe32(|body|);
    assert stream[8..] == body + rest;
    assert (body + rest)[..|body|] == body;
  }

  /** On the wire a frame is its opcode, the length of its body, and the body. */
  lemma {:induction false} FrameBytes<V>(f: Frame<V>, c: Codec<V>)
    requires Fits(f, c)
    ensures var bytes, body := Encoded(f, c), c.encode(f.value);
            && |bytes| == 8 + |body| && StandsFor(bytes[..4], f.opcode) && StandsFor(bytes[4..8], |body|)
            && bytes[8..] == body
  {
    LeastSignificantFirst(f.opcode);
    LeastSignificantFirst(|c.encode(f.value)|);
    assert Encoded(f, c)[..4] == ToLe32(f.opcode) && Encoded(f, c)[4..8] == ToLe32(|c.encode(f.value)|);
  }

  /** What goes wrong: the stream ends before the eight bytes of the header or before the body, the
      body is announced with more than 1 MiB, or it does not decode. */
  lemma {:induction false} ReadFailsIff<V>(stream: Bytes, c: Codec<V>)
    ensures var r := ReadOne(stream, c).result;
            if |stream| < 8 then r == Err(EndOfStream)
            else forall n: nat :: StandsFor(stream[4..8], n) ==>
                   && (r == Err(TooLarge) <==> n > 0x10_0000)
                   && (r == Err(EndOfStream) <==> n <= 0x10_0000 && |stream| < 8 + n)
                   && (r == Err(InvalidBody) <==>
                         n <= 0x10_0000 && 8 + n <= |stream| && c.decode(stream[8..8 + n]).None?)
  {
    if |stream| >= 8 {
      var n := FromLe32(stream[4..8]);
      if 8 + n <= |stream| {
        assert stream[8..][..n] == stream[8..8 + n];
      }
    }
  }

  // Read n frames one after the other; it stops at the first error.
  function ReadMany<V>(stream: Bytes, n: nat, c: Codec<V>): (Result<seq<Frame<V>>, FrameError>, Bytes) {
    if n == 0 then (Ok([]), stream) else
    var first := ReadOne(stream, c);
    if first.result.Err? then (Err(first.result.error), first.rest)
    else
      var (others, left) := ReadMany(first.rest, n - 1, c);
      (if others.Err? then others else Ok([first.result.value] + others.value), left)
  }

  /** Any frames written one after the other are read back in order, whatever follows them. */
  lemma {:induction false} StreamRoundTrip<V(!new)>(frames: seq<Frame<V>>, c: Codec<V>, rest: Bytes)
    requires Invertible(c) && forall i :: 0 <= i < |frames| ==> Fits(frames[i], c)
    ensures ReadMany(EncodedAll(frames, c) + rest, |frames|, c) == (Ok(frames), rest)
    decreases |frames|
  {
    if frames == [] {
      assert EncodedAll(frames, c) + rest == rest;
    } else {
      var others := EncodedAll(frames[1..], c) + rest;
      assert EncodedAll(frames, c) + rest == Encoded(frames[0], c) + others;
      FrameRoundTrip(frames[0], c, others);
      StreamRoundTrip(frames[1..], c, rest);
      assert frames == [frames[0]] + frames[1..];
    }
  }

  /** Conversely, a frame that was read tells which bytes were taken: its opcode, the length of
      its body, and a body that decodes to its value. */
  lemma {:induction false} ReadTakesAFrame<V>(stream: Bytes, c: Codec<V>)
    requires ReadOne(stream, c).result.Ok?
    ensures var read := ReadOne(stream, c);
            exists body :: |body| <= MAX_FRAME_BYTES && c.decode(body) == Some(read.result.value.value)
              && stream == ToLe32(read.result.value.opcode) + ToLe32(|body|) + body + read.rest
  {
    var length := FromLe32(stream[4..8]);
    var body := stream[8..][..length];
    Le32Inverse(stream[..4]);
    Le32Inverse(stream[4..8]);
    assert stream == stream[..4] + stream[4..8] + body + stream[8..][length..];
  }

  // ---- The pipe ----

  class Pipe<V(!new)> {
    const codec: Codec<V>
    var bytes: Bytes

    constructor (codec: Codec<V>)
      ensures this.codec == codec && bytes == []
    {
      this.codec, this.bytes := codec, [];
    }

    method Append(more: Bytes)
      modifies this`bytes
      ensures bytes == old(bytes) + more
    {
      bytes := bytes + more;
    }

    // `read_exact`: the whole buffer or an error, with the stream used up.
    method ReadExact(n: nat) returns (r: Option<Bytes>)
      modifies this`bytes
      ensures n <= |old(bytes)| ==> r == Some(old(bytes)[..n]) && bytes == old(bytes)[n..]
      ensures n > |old(bytes)| ==> r.None? && bytes == []
    {
      if n <= |bytes| {
        r, bytes := Some(bytes[..n]), bytes[n..];
      } else {
        r, bytes := None, [];
      }
    }

    /** `write_frame`: too large a body writes nothing. */
    method WriteFrame(opcode: nat, value: V) returns (r: Result<(), FrameError>)
      requires opcode < U32_RANGE
      modifies this`bytes
      ensures r.Ok? <==> Fits(Frame(opcode, value), codec)
      ensures r.Ok? <==> |codec.encode(value)| <= 0x10_0000
      ensures r.Ok? ==> bytes == old(bytes) + Encoded(Frame(opcode, value), codec)
      ensures r.Err? ==> bytes == old(bytes) && r.error == TooLarge
    {
      var body := codec.encode(value);
      if |body| > MAX_FRAME_BYTES {
        return Err(TooLarge);
      }
      Append(ToLe32(opcode));
      Append(ToLe32(|body|));
      Append(body);
      r := Ok(());
    }

    /** `read_frame` */
    method ReadFrame() returns (r: Result<Frame<V>, FrameError>)
      modifies this`bytes
      ensures Read(r, bytes) == ReadOne(old(bytes), codec)
    {
      var header := ReadExact(8);
      if header.None? {
        return Err(EndOfStream);
      }
      var opcode := FromLe32(header.value[..4]);
      var length := FromLe32(header.value[4..]);
      assert header.value[4..] == old(bytes)[4..8];
      assert header.value[..4] == old(bytes)[..4];
      if length > MAX_FRAME_BYTES {
        return Err(TooLarge);
      }
      var body := ReadExact(length);
      if body.None? {
        return Err(EndOfStream);
      }
      var value := codec.decode(body.value);
      r := if value.Some? then Ok(Frame(opcode, value.value)) else Err(InvalidBody);
    }
  }
}
