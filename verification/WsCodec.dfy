/** The websocket audio messages of profiles 1 to 3 (veetee_protocol.c). */
module WsCodec {
  import opened Bits

  const MAX_PAYLOAD := 1500

  datatype Status = Ok | ErrArgument | ErrShort | ErrHeader | ErrLength | ErrPayload

  /** A profile may hold any number; 1, 2 and 3 are the known ones. */
  datatype Frame = Frame(profile: int, payload: Bytes, timestamp: Word)

  predicate Known(profile: int) {
    1 <= profile <= 3
  }

  predicate ValidFrame(f: Frame) {
    Known(f.profile) && 0 < |f.payload| <= 1500
  }

  function HeaderSize(profile: int): nat {
    if profile == 1 then 0 else if profile == 2 then 16 else 4
  }

  function Header(profile: int, timestamp: Word, length: Half): (h: Bytes)
    ensures |h| == HeaderSize(profile)
  {
    if profile == 1 then []
    else if profile == 2 then U16(2) + U16(0) + U32(0) + U32(timestamp) + U32(length)
    else [0, 0] + U16(length)
  }

  /** The message that stands for a frame. */
  function Message(f: Frame): Bytes
    requires ValidFrame(f)
  {
    Header(f.profile, f.timestamp, |f.payload|) + f.payload
  }

  /** Only profile 2 has room for the timestamp. */
  function WithoutLostTimestamp(f: Frame): Frame {
    if f.profile == 2 then f else f.(timestamp := 0)
  }

  function EncodeStatus(f: Frame, capacity: nat): Status {
    if |f.payload| == 0 || |f.payload| > 1500 then ErrArgument
    else if !Known(f.profile) || capacity < HeaderSize(f.profile) + |f.payload| then ErrArgument
    else Ok
  }

  /** What can be sent is exactly what a peer accepts, if there is room. */
  lemma EncodesExactly(f: Frame, capacity: nat)
    ensures EncodeStatus(f, capacity) == Ok <==> ValidFrame(f) && |Message(f)| <= capacity
    ensures EncodeStatus(f, capacity) in {Ok, ErrArgument}
  {
  }

  /** Either writes the frame's message to the front of `output`, or leaves `output` alone. */
  method Encode(f: Frame, output: array<Byte>) returns (status: Status, length: nat)
    modifies output
    ensures status == EncodeStatus(f, output.Length)
    ensures status == Ok ==> ValidFrame(f) && length == |Message(f)| && output[..] == Message(f) + old(output[length..])
    ensures status != Ok ==> output[..] == old(output[..])
  {
    if |f.payload| == 0 || |f.payload| > MAX_PAYLOAD {
      return ErrArgument, 0;
    }
    var header := HeaderSize(f.profile);
    if f.profile < 1 || f.profile > 3 || output.Length < header + |f.payload| {
      return ErrArgument, 0;
    }
    ghost var was := output[..];
    if f.profile == 2 {
      WriteVersion2(output, f.timestamp, |f.payload|);
    } else if f.profile == 3 {
      WriteVersion3(output, |f.payload|);
    }
    ghost var start, before := Header(f.profile, f.timestamp, |f.payload|), output[..];
    assert before == start + was[header..];
    Copy(output, header, f.payload);
    Written(was, start, f.payload, before, output[..]);
    return Ok, header + |f.payload|;
  }

  method WriteVersion2(output: array<Byte>, timestamp: Word, length: Half)
    requires 16 <= output.Length
    modifies output
    ensures output[..] == Header(2, timestamp, length) + old(output[16..])
  {
    ghost var was := output[..];
    PutU16(output, 0, 2);
    ghost var start, before := U16(2), output[..];
    PutU16(output, 2, 0);
    Written(was, start, U16(0), before, output[..]);
    start, before := start + U16(0), output[..];
    PutU32(output, 4, 0);
    Written(was, start, U32(0), before, output[..]);
    start, before := start + U32(0), output[..];
    PutU32(output, 8, timestamp);
    Written(was, start, U32(timestamp), before, output[..]);
    start, before := start + U32(timestamp), output[..];
    PutU32(output, 12, length);
    Written(was, start, U32(length), before, output[..]);
  }

  method WriteVersion3(output: array<Byte>, length: Half)
    requires 4 <= output.Length
    modifies output
    ensures output[..] == Header(3, 0, length) + old(output[4..])
  {
    ghost var was := output[..];
    output[0] := 0;
    output[1] := 0;
    ghost var start: Bytes, before := [0, 0], output[..];
    PutU16(output, 2, length);
    Written(was, start, U16(length), before, output[..]);
  }

  // ---------------------------------------------------------------------- decoding

  datatype Decoded = Accepted(frame: Frame) | Rejected(status: Status)

  /** What the header says is wrong, if anything. */
  function CheckHeader(profile: int, input: Bytes): Status
    requires Known(profile) && HeaderSize(profile) <= |input|
  {
    if profile == 2 then
      if GetU16(input, 0) != 2 || GetU16(input, 2) != 0 || GetU32(input, 4) != 0 then ErrHeader
      else if GetU32(input, 12) != |input| - 16 then ErrLength
      else Ok
    else if profile == 3 then
      if input[0] != 0 || input[1] != 0 then ErrHeader
      else if GetU16(input, 2) != |input| - 4 then ErrLength
      else Ok
    else Ok
  }

  /** vt_protocol_decode_audio. */
  function Decode(profile: int, input: Bytes): Decoded {
    if |input| == 0 then Rejected(ErrArgument)
    else if !Known(profile) || |input| < HeaderSize(profile) then Rejected(ErrShort)
    else if CheckHeader(profile, input) != Ok then Rejected(CheckHeader(profile, input))
    else
      var payload := input[HeaderSize(profile)..];
      if |payload| == 0 || |payload| > 1500 then Rejected(ErrPayload)
      else Accepted(Frame(profile, payload, if profile == 2 then GetU32(input, 8) else 0))
  }

  lemma Version2Fields(timestamp: Word, length: Half, rest: Bytes)
    ensures var m := Header(2, timestamp, length) + rest;
      && GetU16(m, 0) == 2 && GetU16(m, 2) == 0 && GetU32(m, 4) == 0
      && GetU32(m, 8) == timestamp && GetU32(m, 12) == length && m[16..] == rest
  {
    var m := Header(2, timestamp, length) + rest;
    assert m[0..2] == U16(2) && m[2..4] == U16(0) && m[4..8] == U32(0) && m[8..12] == U32(timestamp)
      && m[12..16] == U32(length);
    HalfReadsBack(2, m, 0);
    HalfReadsBack(0, m, 2);
    WordReadsBack(0, m, 4);
    WordReadsBack(timestamp, m, 8);
    WordReadsBack(length, m, 12);
  }

  lemma Version3Fields(length: Half, rest: Bytes)
    ensures var m := Header(3, 0, length) + rest;
      m[0] == 0 && m[1] == 0 && GetU16(m, 2) == length && m[4..] == rest
  {
    var m := Header(3, 0, length) + rest;
    assert m[2..4] == U16(length);
    HalfReadsBack(length, m, 2);
  }

  /** Decoding a frame's message gives the frame back, without its timestamp in profiles 1 and 3. */
  lemma DecodeReadsMessage(f: Frame)
    requires ValidFrame(f)
    ensures Decode(f.profile, Message(f)) == Accepted(WithoutLostTimestamp(f))
    ensures Decode(f.profile, Message(f)) == Accepted(f) <==> f.profile == 2 || f.timestamp == 0
  {
    if f.profile == 2 {
      Version2Fields(f.timestamp, |f.payload|, f.payload);
    } else if f.profile == 3 {
      Version3Fields(|f.payload|, f.payload);
    } else {
      assert Message(f) == f.payload;
    }
  }

  /**
   * The message byte by byte. Profile 1 is the bare payload. In profile 2 come version and type, a reserved word, the
   * timestamp and the length, in profile 3 type, a reserved byte and the length, most significant bytes first.
   */
  lemma MessageLayout(f: Frame)
    requires ValidFrame(f)
    ensures f.profile == 1 ==> Message(f) == f.payload
    ensures f.profile == 2 ==>
      var m := Message(f);
      && HalfAt(m, 0, 2) && HalfAt(m, 2, 0)
      && WordAt(m, 4, 0) && WordAt(m, 8, f.timestamp) && WordAt(m, 12, |f.payload|)
      && m[16..] == f.payload
    ensures f.profile == 3 ==>
      var m := Message(f); m[0] == 0 && m[1] == 0 && HalfAt(m, 2, |f.payload|) && m[4..] == f.payload
  {
    if f.profile == 2 {
      Version2Fields(f.timestamp, |f.payload|, f.payload);
    } else if f.profile == 3 {
      Version3Fields(|f.payload|, f.payload);
    }
  }

  /** An accepted message is the message of the frame it decodes to, and that frame has no timestamp to lose. */
  lemma AcceptedIsMessage(profile: int, input: Bytes)
    requires Decode(profile, input).Accepted?
    ensures var f := Decode(profile, input).frame;
      ValidFrame(f) && f.profile == profile && Message(f) == input && f == WithoutLostTimestamp(f)
  {
    var f := Decode(profile, input).frame;
    if profile == 2 {
      HalfWritesBack(input, 0);
      HalfWritesBack(input, 2);
      WordWritesBack(input, 4);
      WordWritesBack(input, 8);
      WordWritesBack(input, 12);
      assert input == input[..2] + input[2..4] + input[4..8] + input[8..12] + input[12..16] + input[16..];
    } else if profile == 3 {
      HalfWritesBack(input, 2);
      assert input == input[..2] + input[2..4] + input[4..];
      assert input[..2] == [0, 0];
    } else {
      assert Message(f) == [] + input;
    }
  }

  /**
   * A profile accepts exactly the messages of its valid frames. Two frames of one profile share a message only if
   * they differ in nothing but a timestamp that is lost.
   */
  lemma AcceptsExactlyMessages(profile: int, input: Bytes)
    ensures Decode(profile, input).Accepted? <==>
      exists f :: ValidFrame(f) && f.profile == profile && Message(f) == input
    ensures forall f, g ::
      (ValidFrame(f) && ValidFrame(g) && f.profile == g.profile == profile && Message(f) == Message(g)) ==>
        WithoutLostTimestamp(f) == WithoutLostTimestamp(g)
  {
    if Decode(profile, input).Accepted? {
      AcceptedIsMessage(profile, input);
    }
    forall f | ValidFrame(f) && f.profile == profile
      ensures Decode(profile, Message(f)) == Accepted(WithoutLostTimestamp(f))
    {
      DecodeReadsMessage(f);
    }
  }

  /** A message cut short, spoilt in its constant part, or of another length than it says, is refused. */
  lemma SpoiltMessageIsRefused(f: Frame, cut: nat, length: Half)
    requires ValidFrame(f) && cut < |Message(f)| && length != |f.payload|
    ensures cut == 0 ==> Decode(f.profile, Message(f)[..cut]) == Rejected(ErrArgument)
    ensures 0 < cut < HeaderSize(f.profile) ==> Decode(f.profile, Message(f)[..cut]) == Rejected(ErrShort)
    ensures f.profile != 1 ==>
      Decode(f.profile, Header(f.profile, f.timestamp, length) + f.payload) == Rejected(ErrLength)
    ensures f.profile != 1 ==> Decode(f.profile, Message(f)[1 := 3]) == Rejected(ErrHeader)
    ensures !Known(f.profile + 3) && Decode(f.profile + 3, Message(f)) == Rejected(ErrShort)
  {
    if f.profile == 2 {
      Version2Fields(f.timestamp, length, f.payload);
    } else if f.profile == 3 {
      Version3Fields(length, f.payload);
    }
  }

  /** Too long a payload is refused in every profile, whatever its header says about it. */
  lemma LongPayloadIsRefused(profile: int, timestamp: Word, payload: Bytes)
    requires Known(profile) && 1500 < |payload| < 0x1_0000
    ensures Decode(profile, Header(profile, timestamp, |payload|) + payload) == Rejected(ErrPayload)
  {
    if profile == 2 {
      Version2Fields(timestamp, |payload|, payload);
    } else if profile == 3 {
      Version3Fields(|payload|, payload);
    }
  }
}
