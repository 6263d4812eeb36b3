/** Length-prefixed frames over a byte stream (`src/ipc/framing.rs`).

    The JSON codec of the payloads is a parameter: all that is asked of it is that it decodes what
    it encodes. */
module Frames {
  import opened Wrappers

  const MAX_IPC_FRAME: nat := 64 * 1024

  const PROTOCOL_VERSION: nat := 1

  const HEADER: nat := 4

  type byte = b: int | 0 <= b < 256

  type Bytes = seq<byte>

  datatype Envelope<T> = Envelope(version: nat, requestId: Option<nat>, message: T)

  datatype Codec<!T> = Codec(
    encode: Envelope<T> -> Option<Bytes>,
    decode: Bytes -> Option<Envelope<T>>)

  /** Decoding undoes encoding. */
  ghost predicate RoundTrips<T(!new)>(codec: Codec<T>) {
    forall e :: codec.encode(e).Some? ==> codec.decode(codec.encode(e).value) == Some(e)
  }

  datatype FrameError =
    | WrongVersion(version: nat)
    | Json
    | ZeroLength
    | TooLong(length: nat)
    | IncompleteHeader
    | LengthMismatch(declared: nat, received: nat)
    | UnexpectedEof

  // ---------------------------------------------------------------------------------------------
  // Headers
  // ---------------------------------------------------------------------------------------------

  /** `u32::to_be_bytes`. */
  function ToBigEndian(n: nat): (r: Bytes)
    requires n < 0x1_0000_0000
    ensures |r| == HEADER
  {
    [n / 0x100_0000, n / 0x1_0000 % 0x100, n / 0x100 % 0x100, n % 0x100]
  }

  /** `u32::from_be_bytes`. */
  function FromBigEndian(b: Bytes): (n: nat)
    requires |b| == HEADER
    ensures n < 0x1_0000_0000
  {
    (b[0] as int) * 0x100_0000 + (b[1] as int) * 0x1_0000 + (b[2] as int) * 0x100 + b[3] as int
  }

  lemma BigEndianRoundTrip(n: nat)
    requires n < 0x1_0000_0000
    ensures FromBigEndian(ToBigEndian(n)) == n
  {
    var high := n / 0x100;
    assert high / 0x100 == n / 0x1_0000 && high / 0x100 / 0x100 == n / 0x100_0000;
  }

  /** The header bytes, most significant first: the last is the length modulo 256, and each before it
      counts 256 times as much. */
  lemma HeaderSpelled(n: nat)
    requires n < 0x1_0000_0000
    ensures var h := ToBigEndian(n);
            && |h| == 4
            && h[3] == n % 256 && h[0] == n / 16777216
            && ((h[0] as int * 256 + h[1] as int) * 256 + h[2] as int) * 256 + h[3] as int == n
    ensures ToBigEndian(300) == [0, 0, 1, 44] && ToBigEndian(65536) == [0, 1, 0, 0]
  {
    BigEndianRoundTrip(n);
  }

  function ValidatePayloadLen(length: nat): Option<FrameError> {
    if length == 0 then Some(ZeroLength)
    else if length > MAX_IPC_FRAME then Some(TooLong(length))
    else None
  }

  function ValidateVersion<T>(e: Envelope<T>): Option<FrameError> {
    if e.version == PROTOCOL_VERSION then None else Some(WrongVersion(e.version))
  }

  // ---------------------------------------------------------------------------------------------
  // Encoding and decoding
  // ---------------------------------------------------------------------------------------------

  /** What can be sent: this version, encodable, and neither empty nor too long. */
  predicate Encodable<T>(codec: Codec<T>, e: Envelope<T>) {
    && e.version == PROTOCOL_VERSION
    && codec.encode(e).Some?
    && 1 <= |codec.encode(e).value| <= MAX_IPC_FRAME
  }

  /** The frame of an envelope: the length of its payload, and the payload. */
  function FrameOf<T>(codec: Codec<T>, e: Envelope<T>): (r: Bytes)
    requires Encodable(codec, e)
    ensures |r| > HEADER
  {
    ToBigEndian(|codec.encode(e).value|) + codec.encode(e).value
  }

  /** Why an envelope is not encoded. */
  function EncodeError<T>(codec: Codec<T>, e: Envelope<T>): FrameError
    requires !Encodable(codec, e)
  {
    if e.version != PROTOCOL_VERSION then WrongVersion(e.version)
    else if codec.encode(e).None? then Json
    else if codec.encode(e).value == [] then ZeroLength
    else TooLong(|codec.encode(e).value|)
  }

  /** `encode_frame`. */
  method EncodeFrame<T>(codec: Codec<T>, e: Envelope<T>) returns (r: Result<Bytes, FrameError>)
    ensures r == if Encodable(codec, e) then Ok(FrameOf(codec, e)) else Err(EncodeError(codec, e))
  {
    var version := ValidateVersion(e);
    if version.Some? {
      return Err(version.value);
    }
    var encoded := codec.encode(e);
    if encoded.None? {
      return Err(Json);
    }
    var payload := encoded.value;
    var length := ValidatePayloadLen(|payload|);
    if length.Some? {
      return Err(length.value);
    }
    var frame: Bytes := [];
    frame := frame + ToBigEndian(|payload|);
    frame := frame + payload;
    assert frame == FrameOf(codec, e);
    r := Ok(frame);
  }

  function DecodePayload<T>(codec: Codec<T>, payload: Bytes): Result<Envelope<T>, FrameError> {
    match codec.decode(payload)
    case None => Err(Json)
    case Some(e) =>
      match ValidateVersion(e)
      case Some(error) => Err(error)
      case None => Ok(e)
  }

  /** `decode_frame`. */
  function DecodeFrame<T>(codec: Codec<T>, frame: Bytes): Result<Envelope<T>, FrameError> {
    if |frame| < HEADER then Err(IncompleteHeader)
    else
      var length := FromBigEndian(frame[..HEADER]);
      match ValidatePayloadLen(length)
      case Some(error) => Err(error)
      case None =>
        if |frame| != HEADER + length then Err(LengthMismatch(length, |frame| - HEADER))
        else DecodePayload(codec, frame[HEADER..])
  }

  /** What one `read_frame` makes of a stream that ends, and what it leaves of it. */
  function Read<T>(codec: Codec<T>, s: Bytes): (r: (Result<Envelope<T>, FrameError>, Bytes))
    ensures |r.1| <= |s|
    ensures r.0.Ok? ==> |r.1| < |s|
  {
    if |s| < HEADER then (Err(UnexpectedEof), [])
    else
      var length := FromBigEndian(s[..HEADER]);
      match ValidatePayloadLen(length)
      case Some(error) => (Err(error), s[HEADER..])
      case None =>
        if |s| < HEADER + length then (Err(UnexpectedEof), [])
        else (DecodePayload(codec, s[HEADER..HEADER + length]), s[HEADER + length..])
  }

  /** The reading end of a stream: what has been sent and not been read. */
  class Reader {
    var rest: Bytes

    constructor (sent: Bytes)
      ensures rest == sent
    {
      rest := sent;
    }

    /** `read_exact`: fills the buffer, or meets the end of the stream. */
    method ReadExact(buffer: array<byte>) returns (ok: bool)
      modifies this, buffer
      ensures ok == (|old(rest)| >= buffer.Length)
      ensures ok ==> buffer[..] == old(rest)[..buffer.Length] && rest == old(rest)[buffer.Length..]
      ensures !ok ==> rest == []
    {
      var filled := 0;
      ghost var start := rest;
      while filled < buffer.Length && rest != []
        invariant 0 <= filled <= buffer.Length && filled <= |start|
        invariant rest == start[filled..]
        invariant forall i :: 0 <= i < filled ==> buffer[i] == start[i]
        modifies this, buffer
        decreases buffer.Length - filled
      {
        buffer[filled] := rest[0];
        rest := rest[1..];
        filled := filled + 1;
      }
      ok := filled == buffer.Length;
    }

    /** `read_frame`. */
    method ReadFrame<T>(codec: Codec<T>) returns (r: Result<Envelope<T>, FrameError>)
      modifies this
      ensures (r, rest) == Read(codec, old(rest))
    {
      var header := new byte[HEADER];
      var ok := ReadExact(header);
      if !ok {
        return Err(UnexpectedEof);
      }
      var length := FromBigEndian(header[..]);
      var invalid := ValidatePayloadLen(length);
      if invalid.Some? {
        return Err(invalid.value);
      }
      var payload := new byte[length];
      ghost var afterHeader := rest;
      ok := ReadExact(payload);
      if !ok {
        return Err(UnexpectedEof);
      }
      assert afterHeader[..length] == old(rest)[HEADER..HEADER + length];
      assert afterHeader[length..] == old(rest)[HEADER + length..];
      r := DecodePayload(codec, payload[..]);
    }
  }

  // ---------------------------------------------------------------------------------------------
  // Reading what was written
  // ---------------------------------------------------------------------------------------------

  /** A frame in front of anything is read back, and nothing after it is touched. */
  lemma ReadsBack<T(!new)>(codec: Codec<T>, e: Envelope<T>, rest: Bytes)
    requires RoundTrips(codec) && Encodable(codec, e)
    ensures Read(codec, FrameOf(codec, e) + rest) == (Ok(e), rest)
  {
    var payload := codec.encode(e).value;
    var s := FrameOf(codec, e) + rest;
    BigEndianRoundTrip(|payload|);
    assert s[..HEADER] == ToBigEndian(|payload|);
    assert s[HEADER..HEADER + |payload|] == payload;
    assert s[HEADER + |payload|..] == rest;
  }

  /** A frame: four header bytes that tell the length of the payload, 1 to 65536 bytes of it, of
      version 1. */
  lemma FrameSpelled<T>(codec: Codec<T>, e: Envelope<T>)
    requires Encodable(codec, e)
    ensures var frame, payload := FrameOf(codec, e), codec.encode(e).value;
            && e.version == 1 && 1 <= |payload| <= 65536
            && |frame| == 4 + |payload| && frame[4..] == payload
            && ((frame[0] as int * 256 + frame[1] as int) * 256 + frame[2] as int) * 256 + frame[3] as int == |payload|
            && frame[3] == |payload| % 256
  {
    HeaderSpelled(|codec.encode(e).value|);
  }

  /** Conversely, exactly these envelopes are encoded; the first obstacle decides the error. */
  lemma EncodableSpelled<T>(codec: Codec<T>, e: Envelope<T>)
    ensures Encodable(codec, e) <==>
            e.version == 1 && codec.encode(e).Some? && 1 <= |codec.encode(e).value| <= 65536
    ensures !Encodable(codec, e) ==>
              EncodeError(codec, e) ==
                if e.version != 1 then WrongVersion(e.version)
                else if codec.encode(e).None? then Json
                else if |codec.encode(e).value| == 0 then ZeroLength
                else TooLong(|codec.encode(e).value|)
  {
  }

  /** The length a header declares, most significant byte first. */
  function Declared(s: Bytes): int
    requires |s| >= 4
  {
    ((s[0] as int * 256 + s[1] as int) * 256 + s[2] as int) * 256 + s[3] as int
  }

  /** What decoding and reading make of every byte string. */
  lemma DecodeSpelled<T>(codec: Codec<T>, s: Bytes)
    ensures DecodeFrame(codec, s) ==
            if |s| < 4 then Err(IncompleteHeader)
            else if Declared(s) == 0 then Err(ZeroLength)
            else if Declared(s) > 65536 then Err(TooLong(Declared(s)))
            else if |s| - 4 != Declared(s) then Err(LengthMismatch(Declared(s), |s| - 4))
            else
              match codec.decode(s[4..])
              case None => Err(Json)
              case Some(e) => if e.version != 1 then Err(WrongVersion(e.version)) else Ok(e)
    ensures |s| >= 4 && 1 <= Declared(s) <= 65536 && |s| - 4 >= Declared(s) ==>
              Read(codec, s) == (DecodeFrame(codec, s[..4 + Declared(s)]), s[4 + Declared(s)..])
    ensures |s| < 4 || (1 <= Declared(s) <= 65536 && |s| - 4 < Declared(s)) ==> Read(codec, s) == (Err(UnexpectedEof), [])
    ensures |s| >= 4 && Declared(s) == 0 ==> Read(codec, s) == (Err(ZeroLength), s[4..])
    ensures |s| >= 4 && Declared(s) > 65536 ==> Read(codec, s) == (Err(TooLong(Declared(s))), s[4..])
  {
    if |s| >= 4 {
      assert FromBigEndian(s[..4]) == Declared(s);
      if |s| - 4 >= Declared(s) {
        var frame := s[..4 + Declared(s)];
        assert frame[..4] == s[..4] && frame[4..] == s[4..4 + Declared(s)];
      }
    }
  }

  /** A frame cut short, even to nothing, is an error and leaves nothing. */
  lemma TruncatedIsError<T>(codec: Codec<T>, e: Envelope<T>, k: nat)
    requires Encodable(codec, e) && k < |FrameOf(codec, e)|
    ensures Read(codec, FrameOf(codec, e)[..k]) == (Err(UnexpectedEof), [])
  {
    var payload := codec.encode(e).value;
    BigEndianRoundTrip(|payload|);
    if k >= HEADER {
      assert FrameOf(codec, e)[..k][..HEADER] == ToBigEndian(|payload|);
    }
  }

  /** All frames up to the first error, that error, and what is left. */
  datatype Drained<T> = Drained(envelopes: seq<Envelope<T>>, error: FrameError, rest: Bytes)

  function Drain<T>(codec: Codec<T>, s: Bytes): Drained<T>
    decreases |s|
  {
    var (r, rest) := Read(codec, s);
    match r
    case Err(error) => Drained([], error, rest)
    case Ok(e) =>
      var later := Drain(codec, rest);
      Drained([e] + later.envelopes, later.error, later.rest)
  }

  predicate AllEncodable<T>(codec: Codec<T>, es: seq<Envelope<T>>) {
    forall i :: 0 <= i < |es| ==> Encodable(codec, es[i])
  }

  /** What is on the wire after sending some envelopes. */
  function Sent<T>(codec: Codec<T>, es: seq<Envelope<T>>): Bytes
    requires AllEncodable(codec, es)
  {
    if es == [] then [] else FrameOf(codec, es[0]) + Sent(codec, es[1..])
  }

  function Prepended<T>(es: seq<Envelope<T>>, d: Drained<T>): Drained<T> {
    Drained(es + d.envelopes, d.error, d.rest)
  }

  lemma DrainsOne<T(!new)>(codec: Codec<T>, e: Envelope<T>, rest: Bytes)
    requires RoundTrips(codec) && Encodable(codec, e)
    ensures Drain(codec, FrameOf(codec, e) + rest) == Prepended([e], Drain(codec, rest))
  {
    ReadsBack(codec, e, rest);
  }

  lemma PrependedTwice<T>(es: seq<Envelope<T>>, d: Drained<T>)
    ensures es != [] ==> Prepended([es[0]], Prepended(es[1..], d)) == Prepended(es, d)
    ensures Prepended([], d) == d
  {
    assert es != [] ==> [es[0]] + (es[1..] + d.envelopes) == es + d.envelopes;
  }

  lemma {:induction false} DrainsSent<T(!new)>(codec: Codec<T>, es: seq<Envelope<T>>, rest: Bytes)
    requires RoundTrips(codec) && AllEncodable(codec, es)
    ensures Drain(codec, Sent(codec, es) + rest) == Prepended(es, Drain(codec, rest))
    decreases |es|
  {
    PrependedTwice(es, Drain(codec, rest));
    if es == [] {
      assert Sent(codec, es) + rest == rest;
    } else {
      var tail := Sent(codec, es[1..]);
      assert Sent(codec, es) + rest == FrameOf(codec, es[0]) + (tail + rest);
      DrainsOne(codec, es[0], tail + rest);
      DrainsSent(codec, es[1..], rest);
    }
  }

  /** Reading what was sent gives exactly the envelopes sent, in order, and consumes every byte,
      also when the stream breaks off within one more frame: that one is never a message. */
  lemma StreamRoundTrip<T(!new)>(codec: Codec<T>, es: seq<Envelope<T>>, last: Envelope<T>, k: nat)
    requires RoundTrips(codec) && AllEncodable(codec, es)
    requires Encodable(codec, last) && k < |FrameOf(codec, last)|
    ensures Drain(codec, Sent(codec, es) + FrameOf(codec, last)[..k]) == Drained(es, UnexpectedEof, [])
    ensures Drain(codec, Sent(codec, es)) == Drained(es, UnexpectedEof, [])
  {
    TruncatedIsError(codec, last, k);
    DrainsSent(codec, es, FrameOf(codec, last)[..k]);
    DrainsSent(codec, es, []);
    assert es + [] == es && Sent(codec, es) + [] == Sent(codec, es);
  }

  /** The bytes sent determine the envelopes. */
  lemma SentIsInjective<T(!new)>(codec: Codec<T>, es: seq<Envelope<T>>, fs: seq<Envelope<T>>)
    requires RoundTrips(codec) && AllEncodable(codec, es) && AllEncodable(codec, fs)
    requires Sent(codec, es) == Sent(codec, fs)
    ensures es == fs
  {
    DrainsSent(codec, es, []);
    DrainsSent(codec, fs, []);
    assert Sent(codec, es) + [] == Sent(codec, fs) + [];
    assert es + [] == es && fs + [] == fs;
  }

  /** No frame is a proper prefix of another. */
  lemma PrefixFree<T(!new)>(codec: Codec<T>, e: Envelope<T>, f: Envelope<T>)
    requires RoundTrips(codec) && Encodable(codec, e) && Encodable(codec, f)
    requires FrameOf(codec, e) <= FrameOf(codec, f)
    ensures e == f
  {
    var rest := FrameOf(codec, f)[|FrameOf(codec, e)|..];
    ReadsBack(codec, e, rest);
    ReadsBack(codec, f, []);
    assert FrameOf(codec, e) + rest == FrameOf(codec, f) + [];
  }

  /** Decoding a frame is reading it from a stream and finding nothing after it. */
  lemma DecodeIsRead<T>(codec: Codec<T>, s: Bytes, e: Envelope<T>)
    ensures DecodeFrame(codec, s) == Ok(e) <==> Read(codec, s) == (Ok(e), [])
    ensures DecodeFrame(codec, s) == Ok(e) ==> e.version == PROTOCOL_VERSION && HEADER < |s| <= HEADER + MAX_IPC_FRAME
  {
    if |s| >= HEADER {
      var length := FromBigEndian(s[..HEADER]);
      if |s| >= HEADER + length {
        assert s[HEADER + length..] == [] <==> |s| == HEADER + length;
        assert |s| == HEADER + length ==> s[HEADER..HEADER + length] == s[HEADER..];
      }
    }
  }
}
