/** The MQTT+UDP audio packet (veetee_mqtt_udp_wire.c). */
module UdpWire {
  import opened Bits

  const HEADER_SIZE := 16
  const PACKET_TYPE: Byte := 1
  const MAX_PAYLOAD := 1400

  datatype Status = Ok | ErrArgument | ErrShort | ErrHeader | ErrLength | ErrPayload | ErrSequence

  datatype Frame = Frame(flags: Byte, ssrc: Word, timestamp: Word, sequence: Word, payload: Bytes)

  predicate ValidFrame(f: Frame) {
    0 < |f.payload| <= 1400 && f.sequence != 0
  }

  /** The sixteen bytes in front of a payload of `length` bytes. */
  function Header(flags: Byte, length: Half, ssrc: Word, timestamp: Word, sequence: Word): (h: Bytes)
    ensures |h| == 16
  {
    [PACKET_TYPE, flags] + U16(length) + U32(ssrc) + U32(timestamp) + U32(sequence)
  }

  /** The packet that stands for a frame. */
  function Packet(f: Frame): (p: Bytes)
    requires ValidFrame(f)
    ensures |p| == 16 + |f.payload|
  {
    Header(f.flags, |f.payload|, f.ssrc, f.timestamp, f.sequence) + f.payload
  }

  /** The outcome of vt_mqtt_udp_encode. */
  function EncodeStatus(f: Frame, capacity: nat): Status {
    if |f.payload| == 0 || |f.payload| > 1400 then ErrArgument
    else if f.sequence == 0 then ErrSequence
    else if capacity < 16 + |f.payload| then ErrArgument
    else Ok
  }

  /** What can be sent is exactly what a peer accepts, if there is room; a valid frame but for its number says so. */
  lemma EncodesExactly(f: Frame, capacity: nat)
    ensures EncodeStatus(f, capacity) == Ok <==> ValidFrame(f) && |Packet(f)| <= capacity
    ensures EncodeStatus(f, capacity) == ErrSequence <==> ValidFrame(f.(sequence := 1)) && f.sequence == 0
    ensures EncodeStatus(f, capacity) in {Ok, ErrSequence, ErrArgument}
  {
  }

  /** Either writes the frame's packet to the front of `output`, or leaves `output` alone. */
  method Encode(f: Frame, output: array<Byte>) returns (status: Status, length: nat)
    modifies output
    ensures status == EncodeStatus(f, output.Length)
    ensures status == Ok ==> ValidFrame(f) && length == |Packet(f)| && output[..] == Packet(f) + old(output[length..])
    ensures status != Ok ==> output[..] == old(output[..])
  {
    length := 0;
    if |f.payload| == 0 || |f.payload| > MAX_PAYLOAD {
      return ErrArgument, 0;
    }
    if f.sequence == 0 {
      return ErrSequence, 0;
    }
    if output.Length < HEADER_SIZE + |f.payload| {
      return ErrArgument, 0;
    }
    WriteHeader(output, f.flags, |f.payload|, f.ssrc, f.timestamp, f.sequence);
    Copy(output, HEADER_SIZE, f.payload);
    return Ok, HEADER_SIZE + |f.payload|;
  }

  method WriteHeader(output: array<Byte>, flags: Byte, length: Half, ssrc: Word, timestamp: Word, sequence: Word)
    requires 16 <= output.Length
    modifies output
    ensures output[..] == Header(flags, length, ssrc, timestamp, sequence) + old(output[16..])
  {
    ghost var was := output[..];
    output[0] := PACKET_TYPE;
    output[1] := flags;
    ghost var start: Bytes, before := [PACKET_TYPE, flags], output[..];
    PutU16(output, 2, length);
    Written(was, start, U16(length), before, output[..]);
    start, before := start + U16(length), output[..];
    PutU32(output, 4, ssrc);
    Written(was, start, U32(ssrc), before, output[..]);
    start, before := start + U32(ssrc), output[..];
    PutU32(output, 8, timestamp);
    Written(was, start, U32(timestamp), before, output[..]);
    start, before := start + U32(timestamp), output[..];
    PutU32(output, 12, sequence);
    Written(was, start, U32(sequence), before, output[..]);
  }

  // ---------------------------------------------------------------------- decoding

  datatype Decoded = Accepted(frame: Frame) | Rejected(status: Status)

  /** vt_mqtt_udp_decode. */
  function Decode(input: Bytes): Decoded {
    if |input| < 16 then Rejected(ErrShort)
    else if input[0] != PACKET_TYPE then Rejected(ErrHeader)
    else
      var length := GetU16(input, 2);
      if length == 0 || length > 1400 then Rejected(ErrPayload)
      else if |input| != 16 + length then Rejected(ErrLength)
      else
        var sequence := GetU32(input, 12);
        if sequence == 0 then Rejected(ErrSequence)
        else Accepted(Frame(input[1], GetU32(input, 4), GetU32(input, 8), sequence, input[16..]))
  }

  /** Where the fields of a header lie. */
  lemma HeaderFields(flags: Byte, length: Half, ssrc: Word, timestamp: Word, sequence: Word, rest: Bytes)
    ensures var p := Header(flags, length, ssrc, timestamp, sequence) + rest;
      && p[0] == PACKET_TYPE && p[1] == flags && p[16..] == rest && GetU16(p, 2) == length
      && GetU32(p, 4) == ssrc && GetU32(p, 8) == timestamp && GetU32(p, 12) == sequence
  {
    var p := Header(flags, length, ssrc, timestamp, sequence) + rest;
    assert p[2..4] == U16(length) && p[4..8] == U32(ssrc) && p[8..12] == U32(timestamp) && p[12..16] == U32(sequence);
    HalfReadsBack(length, p, 2);
    WordReadsBack(ssrc, p, 4);
    WordReadsBack(timestamp, p, 8);
    WordReadsBack(sequence, p, 12);
  }

  /** Decoding undoes encoding. */
  lemma DecodeReadsPacket(f: Frame)
    requires ValidFrame(f)
    ensures Decode(Packet(f)) == Accepted(f)
  {
    HeaderFields(f.flags, |f.payload|, f.ssrc, f.timestamp, f.sequence, f.payload);
  }

  /** The packet byte by byte: type, flags, length, source, timestamp and sequence number, most significant first. */
  lemma PacketLayout(f: Frame)
    requires ValidFrame(f)
    ensures var p := Packet(f);
      && p[0] == 1 && p[1] == f.flags && HalfAt(p, 2, |f.payload|)
      && WordAt(p, 4, f.ssrc) && WordAt(p, 8, f.timestamp) && WordAt(p, 12, f.sequence) && p[16..] == f.payload
  {
    HeaderFields(f.flags, |f.payload|, f.ssrc, f.timestamp, f.sequence, f.payload);
  }

  /** Encoding undoes decoding: an accepted packet is the packet of the frame it decodes to. */
  lemma AcceptedIsPacket(input: Bytes)
    requires Decode(input).Accepted?
    ensures ValidFrame(Decode(input).frame) && Packet(Decode(input).frame) == input
  {
    HalfWritesBack(input, 2);
    WordWritesBack(input, 4);
    WordWritesBack(input, 8);
    WordWritesBack(input, 12);
    assert input == input[..2] + input[2..4] + input[4..8] + input[8..12] + input[12..16] + input[16..];
    assert input[..2] == [PACKET_TYPE, input[1]];
  }

  /** Exactly the packets of valid frames are accepted, and no two frames share one. */
  lemma AcceptsExactlyPackets(input: Bytes)
    ensures Decode(input).Accepted? <==> exists f :: ValidFrame(f) && Packet(f) == input
    ensures forall f, g :: ValidFrame(f) && ValidFrame(g) && Packet(f) == input && Packet(g) == input ==> f == g
  {
    if Decode(input).Accepted? {
      AcceptedIsPacket(input);
    }
    forall f | ValidFrame(f) && Packet(f) == input
      ensures Decode(input) == Accepted(f)
    {
      DecodeReadsPacket(f);
    }
  }

  /** A packet cut short or with something after it is refused for its length. */
  lemma OtherLengthsAreRejected(f: Frame, cut: nat, extra: Bytes)
    requires ValidFrame(f) && cut < |Packet(f)| && extra != []
    ensures Decode(Packet(f) + extra) == Rejected(ErrLength)
    ensures Decode(Packet(f)[..cut]) == Rejected(if cut < 16 then ErrShort else ErrLength)
  {
    var h := Header(f.flags, |f.payload|, f.ssrc, f.timestamp, f.sequence);
    assert Packet(f) + extra == h + (f.payload + extra);
    HeaderFields(f.flags, |f.payload|, f.ssrc, f.timestamp, f.sequence, f.payload + extra);
    if cut >= 16 {
      assert Packet(f)[..cut] == h + f.payload[..cut - 16];
      HeaderFields(f.flags, |f.payload|, f.ssrc, f.timestamp, f.sequence, f.payload[..cut - 16]);
    }
  }

  /** A packet with one header field spoilt is refused for that field. */
  lemma SpoiltFieldIsRefused(f: Frame, kind: Byte, length: Half)
    requires ValidFrame(f) && kind != 1 && length != |f.payload|
    ensures Decode(Packet(f)[0 := kind]) == Rejected(ErrHeader)
    ensures Decode(Header(f.flags, |f.payload|, f.ssrc, f.timestamp, 0) + f.payload) == Rejected(ErrSequence)
    ensures Decode(Header(f.flags, length, f.ssrc, f.timestamp, f.sequence) + f.payload)
         == Rejected(if 0 < length <= 1400 then ErrLength else ErrPayload)
  {
    HeaderFields(f.flags, |f.payload|, f.ssrc, f.timestamp, 0, f.payload);
    HeaderFields(f.flags, length, f.ssrc, f.timestamp, f.sequence, f.payload);
  }
}
