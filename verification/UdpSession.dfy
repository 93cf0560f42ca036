/** The encrypted, sequence-numbered audio session over MQTT+UDP (veetee_mqtt_udp_crypto.c). */
module UdpSession {
  import opened Arithmetic
  import opened Bits
  import W = UdpWire

  const KEY_BYTES := 16
  const NONCE_BYTES := 16
  const LAST_SEQUENCE: Word := 0xFFFF_FFFF

  datatype Status = Ok | ErrArgument | ErrKey | ErrNonce | ErrState | ErrSequence | ErrCapacity | ErrFrame | ErrCrypto

  /** The block cipher: byte `i` of the output block for a key and a counter block (SP 800-38A section 6.5). */
  type BlockCipher = (Bytes, nat, nat) -> Byte

  /** The secrets are sixteen bytes each; `sent` is the sequence number of the last packet sent. */
  datatype Session = Session(key: Bytes, nonce: Bytes, sent: Word, ready: bool)

  function Zeros(n: nat): (z: Bytes)
    ensures |z| == n && forall i :: 0 <= i < n ==> z[i] == 0
  {
    seq(n, _ => 0)
  }

  const IDLE := Session(Zeros(KEY_BYTES), Zeros(NONCE_BYTES), 0, false)

  predicate Sized(s: Session) {
    |s.key| == 16 && |s.nonce| == 16
  }

  /** What init leaves behind: a session that can send and has sent nothing. */
  predicate Started(s: Session) {
    Sized(s) && s.ready && s.nonce[0] == W.PACKET_TYPE && s.sent == 0
  }

  function InitStatus(key: Bytes, nonce: Bytes): Status {
    if |key| != 16 then ErrKey
    else if |nonce| != 16 || nonce[0] != W.PACKET_TYPE then ErrNonce
    else Ok
  }

  // ------------------------------------------------------------------- the cipher

  /** Bytes as a big-endian number; counter mode counts it up by one for every sixteen bytes. */
  function Number(b: Bytes): nat {
    if b == [] then 0 else Number(b[..|b| - 1]) * 256 + b[|b| - 1]
  }

  /** Which byte of which counter block encrypts byte `i`; the counter starts at `iv` and has 128 bits. */
  datatype Place = Place(block: nat, offset: nat)

  function PlaceOf(iv: Bytes, i: nat): Place {
    Place((Number(iv) + i / 16) % 0x1_0000_0000_0000_0000_0000_0000_0000_0000, i % 16)
  }

  function KeyByte(cipher: BlockCipher, key: Bytes, place: Place): Byte {
    cipher(key, place.block, place.offset)
  }

  /** Counter mode: the data xor the key stream. */
  function Crypt(cipher: BlockCipher, key: Bytes, iv: Bytes, data: Bytes): (c: Bytes)
    ensures |c| == |data|
  {
    seq<Byte>(|data|, i requires 0 <= i < |data| => XorByte(data[i], KeyByte(cipher, key, PlaceOf(iv, i))))
  }

  function XorByte(a: Byte, b: Byte): Byte {
    Pow2Is(8);
    Xor(a, b, 8)
  }

  /** The same operation decrypts. */
  lemma CryptUndoes(cipher: BlockCipher, key: Bytes, iv: Bytes, data: Bytes)
    ensures Crypt(cipher, key, iv, Crypt(cipher, key, iv, data)) == data
  {
    var c := Crypt(cipher, key, iv, data);
    forall i | 0 <= i < |data|
      ensures Crypt(cipher, key, iv, c)[i] == data[i]
    {
      Pow2Is(8);
      XorUndoes(data[i], KeyByte(cipher, key, PlaceOf(iv, i)), 8);
    }
  }

  // ----------------------------------------------------------- one packet each way

  /** A call of encrypt; `works` says whether the cipher library succeeds. */
  datatype Call = Call(opus: Bytes, timestamp: Word, ssrc: Word, capacity: nat, works: bool)

  function SendStatus(s: Session, c: Call): Status {
    if !s.ready then ErrState
    else if |c.opus| == 0 || |c.opus| > 1400 then ErrFrame
    else if s.sent == LAST_SEQUENCE then ErrSequence
    else if c.capacity < 16 + |c.opus| then ErrCapacity
    else if !c.works then ErrCrypto
    else Ok
  }

  /** The frame a call sends, before encryption. */
  function FrameOf(s: Session, c: Call): W.Frame
    requires |s.nonce| == 16 && s.sent < LAST_SEQUENCE
  {
    W.Frame(s.nonce[1], c.ssrc, c.timestamp, s.sent + 1, c.opus)
  }

  /** A call sends exactly when its frame can be encoded, with a number left to give it and a cipher that works. */
  lemma SendsExactly(s: Session, c: Call)
    requires Sized(s)
    ensures SendStatus(s, c) == Ok <==>
      s.ready && c.works && s.sent < 0xFFFF_FFFF && W.EncodeStatus(FrameOf(s, c), c.capacity) == W.Ok
    ensures SendStatus(s, c) == ErrState <==> !s.ready
    ensures SendStatus(s, c) == ErrFrame <==> s.ready && !(0 < |c.opus| <= W.MAX_PAYLOAD)
    ensures SendStatus(s, c) == ErrSequence <==> s.ready && 0 < |c.opus| <= W.MAX_PAYLOAD && s.sent == 0xFFFF_FFFF
    ensures SendStatus(s, c) == ErrCrypto ==> !c.works
  {
  }

  /** The sixteen header bytes are the initial counter block. */
  function Iv(f: W.Frame): Bytes
    requires W.ValidFrame(f)
  {
    W.Header(f.flags, |f.payload|, f.ssrc, f.timestamp, f.sequence)
  }

  /** A frame's packet with its payload encrypted. */
  function Seal(cipher: BlockCipher, key: Bytes, f: W.Frame): (p: Bytes)
    requires W.ValidFrame(f)
    ensures |p| == 16 + |f.payload|
  {
    Iv(f) + Crypt(cipher, key, Iv(f), f.payload)
  }

  /** The session after a call: only a packet that was sent uses up a sequence number. */
  function After(s: Session, c: Call): Session {
    if SendStatus(s, c) == Ok then s.(sent := s.sent + 1) else s
  }

  datatype Opened = Opened(frame: W.Frame) | Refused(status: Status)

  /** Only a bad sequence number keeps its own error. */
  function MapWireError(status: W.Status): Status {
    if status == W.ErrSequence then ErrSequence else ErrFrame
  }

  /** vt_mqtt_udp_crypto_decrypt. */
  function Open(cipher: BlockCipher, s: Session, input: Bytes, capacity: nat, works: bool): Opened
    requires Sized(s)
  {
    if !s.ready then Refused(ErrState)
    else
      match W.Decode(input)
      case Rejected(status) => Refused(MapWireError(status))
      case Accepted(f) =>
        if f.flags != s.nonce[1] then Refused(ErrFrame)
        else if capacity < |f.payload| then Refused(ErrCapacity)
        else if !works then Refused(ErrCrypto)
        else Opened(f.(payload := Crypt(cipher, s.key, input[..16], f.payload)))
  }

  /** The frame on the wire: the payload is the encrypted one. */
  function OnWire(cipher: BlockCipher, key: Bytes, f: W.Frame): (g: W.Frame)
    requires W.ValidFrame(f)
    ensures W.ValidFrame(g)
  {
    f.(payload := Crypt(cipher, key, Iv(f), f.payload))
  }

  lemma SealIsPacket(cipher: BlockCipher, key: Bytes, f: W.Frame)
    requires W.ValidFrame(f)
    ensures Seal(cipher, key, f) == W.Packet(OnWire(cipher, key, f)) && Seal(cipher, key, f)[..16] == Iv(f)
  {
  }

  /**
   * The packet is counter mode: behind the header, the bits of packet and audio differ exactly where the block cipher
   * has a one, the counter being the header as a number, one more for every sixteen bytes.
   */
  lemma SealIsCounterMode(cipher: BlockCipher, key: Bytes, f: W.Frame, i: nat, n: nat)
    requires W.ValidFrame(f) && i < |f.payload| && n < 8
    ensures Seal(cipher, key, f)[..16] == W.Header(f.flags, |f.payload|, f.ssrc, f.timestamp, f.sequence)
    ensures var block := (Number(Seal(cipher, key, f)[..16]) + i / 16) % 0x1_0000_0000_0000_0000_0000_0000_0000_0000;
      (Bit(Seal(cipher, key, f)[16 + i], n) + Bit(f.payload[i], n)) % 2 == Bit(cipher(key, block, i % 16), n)
  {
    var p := Seal(cipher, key, f);
    assert p[..16] == Iv(f) && p[16 + i] == Crypt(cipher, key, Iv(f), f.payload)[i];
    XorTellsBits(f.payload[i], KeyByte(cipher, key, PlaceOf(Iv(f), i)), 8, n);
  }

  /** Silence encrypts to the key stream itself. */
  lemma ZerosGiveTheKeyStream(cipher: BlockCipher, key: Bytes, f: W.Frame, i: nat)
    requires W.ValidFrame(f) && f.payload == Zeros(|f.payload|) && i < |f.payload|
    ensures var block := (Number(Seal(cipher, key, f)[..16]) + i / 16) % 0x1_0000_0000_0000_0000_0000_0000_0000_0000;
      Seal(cipher, key, f)[16 + i] == cipher(key, block, i % 16)
  {
    var p := Seal(cipher, key, f);
    assert p[..16] == Iv(f) && p[16 + i] == Crypt(cipher, key, Iv(f), f.payload)[i];
    Pow2Is(8);
    XorOfZero(KeyByte(cipher, key, PlaceOf(Iv(f), i)), 8);
  }

  /** Decryption inverts encryption: a peer with the same key and flag gets back the frame that was sealed. */
  lemma OpenInvertsSeal(cipher: BlockCipher, peer: Session, f: W.Frame, capacity: nat)
    requires peer.ready && Sized(peer) && W.ValidFrame(f) && f.flags == peer.nonce[1] && |f.payload| <= capacity
    ensures Open(cipher, peer, Seal(cipher, peer.key, f), capacity, true) == Opened(f)
  {
    SealIsPacket(cipher, peer.key, f);
    W.DecodeReadsPacket(OnWire(cipher, peer.key, f));
    CryptUndoes(cipher, peer.key, Iv(f), f.payload);
  }

  /** And encryption inverts decryption: whatever opens is the seal of the frame it opens to. */
  lemma SealInvertsOpen(cipher: BlockCipher, s: Session, input: Bytes, capacity: nat, works: bool)
    requires Sized(s) && Open(cipher, s, input, capacity, works).Opened?
    ensures var f := Open(cipher, s, input, capacity, works).frame;
      W.ValidFrame(f) && f.flags == s.nonce[1] && Seal(cipher, s.key, f) == input
  {
    var f := Open(cipher, s, input, capacity, works).frame;
    var g := W.Decode(input).frame;
    W.AcceptedIsPacket(input);
    assert input[..16] == Iv(g) == Iv(f);
    CryptUndoes(cipher, s.key, Iv(f), g.payload);
    assert input == Iv(g) + g.payload;
  }

  /** The input is some frame's packet with this session's flag. */
  ghost predicate PacketFor(s: Session, input: Bytes)
    requires Sized(s)
  {
    exists f :: W.ValidFrame(f) && f.flags == s.nonce[1] && W.Packet(f) == input
  }

  /** What a session refuses: everything before init, and else exactly what is no packet for it or does not fit. */
  lemma RefusedExactly(cipher: BlockCipher, s: Session, input: Bytes, capacity: nat, works: bool)
    requires Sized(s)
    ensures var r := Open(cipher, s, input, capacity, works);
      if !s.ready then r == Refused(ErrState)
      else if W.Decode(input) == W.Rejected(W.ErrSequence) then r == Refused(ErrSequence)
      else if !PacketFor(s, input) then r == Refused(ErrFrame)
      else if |input| > 16 + capacity then r == Refused(ErrCapacity)
      else r.Opened? == works && (r.Refused? ==> r == Refused(ErrCrypto))
  {
    if W.Decode(input).Accepted? {
      W.AcceptedIsPacket(input);
    }
    forall f | W.ValidFrame(f) && W.Packet(f) == input
      ensures W.Decode(input) == W.Accepted(f)
    {
      W.DecodeReadsPacket(f);
    }
  }

  /** init accepts exactly the secrets with which a session can start. */
  lemma StartsExactly(key: Bytes, nonce: Bytes)
    ensures InitStatus(key, nonce) == Ok <==> Started(Session(key, nonce, 0, true))
    ensures InitStatus(key, nonce) == ErrKey <==> |key| != 16
    ensures InitStatus(key, nonce) in {Ok, ErrKey, ErrNonce}
  {
  }

  // -------------------------------------------------------------------------- runs

  /** The session after a run of calls. */
  function Final(s: Session, calls: seq<Call>): Session
    decreases calls
  {
    if calls == [] then s else Final(After(s, calls[0]), calls[1..])
  }

  /** The frames of the calls that succeed, in order. */
  function Sent(s: Session, calls: seq<Call>): seq<W.Frame>
    requires Sized(s)
    decreases calls
  {
    if calls == [] then []
    else
      (if SendStatus(s, calls[0]) == Ok then [FrameOf(s, calls[0])] else []) + Sent(After(s, calls[0]), calls[1..])
  }

  /** The frames of a run are numbered on from the last one sent, without gap, repetition or wrap. */
  lemma {:induction false} SequencesCount(s: Session, calls: seq<Call>)
    requires Sized(s)
    ensures Final(s, calls) == s.(sent := Final(s, calls).sent)
    ensures |Sent(s, calls)| == Final(s, calls).sent - s.sent
    ensures forall i :: 0 <= i < |Sent(s, calls)| ==>
      W.ValidFrame(Sent(s, calls)[i]) && Sent(s, calls)[i].sequence == s.sent + 1 + i
      && Sent(s, calls)[i].flags == s.nonce[1]
    decreases calls
  {
    if calls != [] {
      var next, first := After(s, calls[0]), SendStatus(s, calls[0]) == Ok;
      SequencesCount(next, calls[1..]);
      var rest := Sent(next, calls[1..]);
      if first {
        assert Sent(s, calls) == [FrameOf(s, calls[0])] + rest;
        forall i | 0 <= i < |Sent(s, calls)|
          ensures W.ValidFrame(Sent(s, calls)[i]) && Sent(s, calls)[i].sequence == s.sent + 1 + i
            && Sent(s, calls)[i].flags == s.nonce[1]
        {
          if i > 0 {
            assert Sent(s, calls)[i] == rest[i - 1];
          }
        }
      } else {
        assert Sent(s, calls) == rest;
      }
    }
  }

  lemma IvHoldsSequence(f: W.Frame)
    requires W.ValidFrame(f)
    ensures |Iv(f)| == 16 && GetU32(Iv(f), 12) == f.sequence
  {
    W.HeaderFields(f.flags, |f.payload|, f.ssrc, f.timestamp, f.sequence, []);
    assert Iv(f) + [] == Iv(f);
  }

  /**
   * In a session fresh from init: the packets carry the sequence numbers 1, 2, 3 and so on, all below 2^32, and
   * no two are encrypted from the same initial counter block.
   */
  lemma SessionNumbersPackets(s: Session, calls: seq<Call>)
    requires Started(s)
    ensures |Sent(s, calls)| == Final(s, calls).sent <= LAST_SEQUENCE
    ensures forall i :: 0 <= i < |Sent(s, calls)| ==>
      W.ValidFrame(Sent(s, calls)[i]) && Sent(s, calls)[i].sequence == i + 1
    ensures forall i, j :: 0 <= i < j < |Sent(s, calls)| ==> Iv(Sent(s, calls)[i]) != Iv(Sent(s, calls)[j])
  {
    SequencesCount(s, calls);
    var sent := Sent(s, calls);
    forall i, j | 0 <= i < j < |sent|
      ensures Iv(sent[i]) != Iv(sent[j])
    {
      IvHoldsSequence(sent[i]);
      IvHoldsSequence(sent[j]);
    }
  }

  /** The peer, started with the same secrets, opens every packet of a run and gets the calls' audio in order. */
  lemma PeerHearsEverything(cipher: BlockCipher, s: Session, peer: Session, calls: seq<Call>, i: nat)
    requires Started(s) && Started(peer) && peer.key == s.key && peer.nonce == s.nonce && i < |Sent(s, calls)|
    ensures W.ValidFrame(Sent(s, calls)[i])
    ensures Open(cipher, peer, Seal(cipher, s.key, Sent(s, calls)[i]), 1400, true) == Opened(Sent(s, calls)[i])
  {
    SequencesCount(s, calls);
    OpenInvertsSeal(cipher, peer, Sent(s, calls)[i], 1400);
  }

  // --------------------------------------------------------------- counter blocks

  lemma OneMoreByte(b: Bytes, x: Byte)
    ensures Number(b + [x]) == Number(b) * 256 + x
  {
    assert (b + [x])[..|b|] == b;
  }

  lemma NumberOfHalf(b: Bytes, v: Half)
    ensures Number(b + U16(v)) == Number(b) * 0x1_0000 + v
  {
    var u := b + [Low(v / 256)];
    assert b + U16(v) == u + [Low(v)];
    OneMoreByte(b, Low(v / 256));
    OneMoreByte(u, Low(v));
  }

  lemma NumberOfWord(b: Bytes, v: Word)
    ensures Number(b + U32(v)) == Number(b) * 0x1_0000_0000 + v
  {
    var t := b + [Low(v / 0x100_0000)];
    var u := t + [Low(v / 0x1_0000)];
    var w := u + [Low(v / 256)];
    assert b + U32(v) == w + [Low(v)];
    OneMoreByte(b, Low(v / 0x100_0000));
    OneMoreByte(t, Low(v / 0x1_0000));
    OneMoreByte(u, Low(v / 256));
    OneMoreByte(w, Low(v));
    WordDigits(v);
  }

  /** The header without its sequence number. */
  function Upper(f: W.Frame): nat
    requires W.ValidFrame(f)
  {
    ((((W.PACKET_TYPE as int * 256 + f.flags) * 0x1_0000 + |f.payload|) * 0x1_0000_0000) + f.ssrc) * 0x1_0000_0000
    + f.timestamp
  }

  lemma IvIsNumber(f: W.Frame)
    requires W.ValidFrame(f)
    ensures Number(Iv(f)) == Upper(f) * 0x1_0000_0000 + f.sequence
  {
    var start: Bytes := [W.PACKET_TYPE, f.flags];
    assert start == [W.PACKET_TYPE] + [f.flags] && [W.PACKET_TYPE] == [] + [W.PACKET_TYPE];
    OneMoreByte([], W.PACKET_TYPE);
    OneMoreByte([W.PACKET_TYPE], f.flags);
    NumberOfHalf(start, |f.payload|);
    NumberOfWord(start + U16(|f.payload|), f.ssrc);
    NumberOfWord(start + U16(|f.payload|) + U32(f.ssrc), f.timestamp);
    NumberOfWord(start + U16(|f.payload|) + U32(f.ssrc) + U32(f.timestamp), f.sequence);
  }

  function Blocks(f: W.Frame): nat {
    CeilDiv(|f.payload|, 16)
  }

  predicate InRange(x: int, from: int, count: nat) {
    from <= x < from + count
  }

  /** Some counter block of one packet is also one of the other. */
  ghost predicate ShareBlock(f: W.Frame, g: W.Frame)
    requires W.ValidFrame(f) && W.ValidFrame(g)
  {
    exists x :: InRange(x, Number(Iv(f)), Blocks(f)) && InRange(x, Number(Iv(g)), Blocks(g))
  }

  lemma RangesMeet(a: nat, m: nat, b: nat, n: nat)
    requires m > 0 && n > 0
    ensures (exists x :: InRange(x, a, m) && InRange(x, b, n)) <==> a < b + n && b < a + m
  {
    if a < b + n && b < a + m {
      assert InRange(Max(a, b), a, m) && InRange(Max(a, b), b, n);
    }
  }

  predicate SameButSequence(f: W.Frame, g: W.Frame) {
    |f.payload| == |g.payload| && f.ssrc == g.ssrc && f.timestamp == g.timestamp
  }

  lemma UpperSeparates(f: W.Frame, g: W.Frame)
    requires W.ValidFrame(f) && W.ValidFrame(g) && f.flags == g.flags
    ensures Upper(f) == Upper(g) <==> SameButSequence(f, g)
  {
    var m := 0x1_0000_0000;
    var a, b := (256 + f.flags) * 0x1_0000 + |f.payload|, (256 + g.flags) * 0x1_0000 + |g.payload|;
    var c, d := a * m + f.ssrc, b * m + g.ssrc;
    assert Upper(f) == c * m + f.timestamp && Upper(g) == d * m + g.timestamp;
    DivUnique(Upper(f), m, c, f.timestamp);
    DivUnique(Upper(g), m, d, g.timestamp);
    DivUnique(c, m, a, f.ssrc);
    DivUnique(d, m, b, g.ssrc);
  }

  lemma NumbersMeet(u: nat, s: Word, m: nat, v: nat, t: Word, n: nat)
    requires 0 < m <= 88 && 0 < n <= 88 && s < t
    ensures
      (u * 0x1_0000_0000 + s < v * 0x1_0000_0000 + t + n && v * 0x1_0000_0000 + t < u * 0x1_0000_0000 + s + m) <==>
      (u == v && t - s < m) || (u == v + 1 && t - s > 0x1_0000_0000 - n)
  {
    if u < v {
      assert (v - u) * 0x1_0000_0000 >= 0x1_0000_0000;
    } else if u > v + 1 {
      assert (u - v) * 0x1_0000_0000 >= 2 * 0x1_0000_0000;
    }
  }

  lemma BlocksAreFew(f: W.Frame)
    requires W.ValidFrame(f)
    ensures 0 < Blocks(f) <= 88
  {
    CeilDivMono(|f.payload|, 1400, 16);
    CeilDivBounds(|f.payload|, 16);
  }

  /**
   * An older and a newer packet of a session share a counter block exactly when they agree in length, source and
   * timestamp and are fewer packets apart than each has blocks, or when the newer one, whose header is one lower in
   * front of the sequence number, counts up into the older one's, which takes almost 2^32 packets between them.
   */
  lemma BlocksMeetExactly(f: W.Frame, g: W.Frame)
    requires W.ValidFrame(f) && W.ValidFrame(g) && f.flags == g.flags && f.sequence < g.sequence
    ensures ShareBlock(f, g) <==>
      || (SameButSequence(f, g) && g.sequence - f.sequence < Blocks(f))
      || (Upper(f) == Upper(g) + 1 && g.sequence - f.sequence > 0x1_0000_0000 - Blocks(g))
  {
    IvIsNumber(f);
    IvIsNumber(g);
    BlocksAreFew(f);
    BlocksAreFew(g);
    RangesMeet(Number(Iv(f)), Blocks(f), Number(Iv(g)), Blocks(g));
    UpperSeparates(f, g);
    NumbersMeet(Upper(f), f.sequence, Blocks(f), Upper(g), g.sequence, Blocks(g));
  }

  /** In a session, then: packets i and j never share a block unless they agree and are close. */
  lemma SessionBlocksMeetExactly(s: Session, calls: seq<Call>, i: nat, j: nat)
    requires Started(s) && i < j < |Sent(s, calls)|
    ensures var f, g := Sent(s, calls)[i], Sent(s, calls)[j];
      && W.ValidFrame(f) && W.ValidFrame(g)
      && (ShareBlock(f, g) <==>
            || (SameButSequence(f, g) && j - i < Blocks(f))
            || (Upper(f) == Upper(g) + 1 && j - i > 0x1_0000_0000 - Blocks(g)))
  {
    SequencesCount(s, calls);
    BlocksMeetExactly(Sent(s, calls)[i], Sent(s, calls)[j]);
  }

  lemma CounterHasRoom(f: W.Frame, i: nat)
    requires W.ValidFrame(f) && i < |f.payload|
    ensures PlaceOf(Iv(f), i) == Place(Number(Iv(f)) + i / 16, i % 16) && i / 16 < Blocks(f)
  {
    IvIsNumber(f);
    CeilDivBounds(|f.payload|, 16);
    assert Upper(f) < 0x200_0000_0000_0000_0000_0000;
  }

  /** Some byte of one packet and some byte of the other are encrypted with the same byte of the same block. */
  ghost predicate SharePlace(f: W.Frame, g: W.Frame)
    requires W.ValidFrame(f) && W.ValidFrame(g)
  {
    exists i: nat, j: nat :: i < |f.payload| && j < |g.payload| && PlaceOf(Iv(f), i) == PlaceOf(Iv(g), j)
  }

  /** Sharing a key byte is sharing a counter block, since every block a packet counts has a first byte. */
  lemma PlacesAreBlocks(f: W.Frame, g: W.Frame)
    requires W.ValidFrame(f) && W.ValidFrame(g)
    ensures SharePlace(f, g) <==> ShareBlock(f, g)
  {
    if SharePlace(f, g) {
      var i: nat, j: nat :| i < |f.payload| && j < |g.payload| && PlaceOf(Iv(f), i) == PlaceOf(Iv(g), j);
      CounterHasRoom(f, i);
      CounterHasRoom(g, j);
      assert InRange(Number(Iv(f)) + i / 16, Number(Iv(f)), Blocks(f));
    }
    if ShareBlock(f, g) {
      var x :| InRange(x, Number(Iv(f)), Blocks(f)) && InRange(x, Number(Iv(g)), Blocks(g));
      var i, j := FirstOfBlock(f, x - Number(Iv(f))), FirstOfBlock(g, x - Number(Iv(g)));
      CounterHasRoom(f, i);
      CounterHasRoom(g, j);
      assert PlaceOf(Iv(f), i) == PlaceOf(Iv(g), j);
    }
  }

  function FirstOfBlock(f: W.Frame, block: nat): (i: nat)
    requires block < Blocks(f)
    ensures i < |f.payload| && i / 16 == block && i % 16 == 0
  {
    CeilDivBounds(|f.payload|, 16);
    16 * block
  }

  /** Inside one packet no key byte is used twice. */
  lemma PlacesDiffer(f: W.Frame, i: nat, j: nat)
    requires W.ValidFrame(f) && i < j < |f.payload|
    ensures PlaceOf(Iv(f), i) != PlaceOf(Iv(f), j)
  {
    CounterHasRoom(f, i);
    CounterHasRoom(f, j);
  }

  /**
   * When no byte of the key stream is used twice between two packets of a session: unless they agree in length, source
   * and timestamp and are close, or are almost 2^32 packets apart.
   */
  lemma SessionSharesKeyBytesExactly(s: Session, calls: seq<Call>, i: nat, j: nat)
    requires Started(s) && i < j < |Sent(s, calls)|
    ensures var f, g := Sent(s, calls)[i], Sent(s, calls)[j];
      && W.ValidFrame(f) && W.ValidFrame(g)
      && (SharePlace(f, g) <==>
            || (SameButSequence(f, g) && j - i < Blocks(f))
            || (Upper(f) == Upper(g) + 1 && j - i > 0x1_0000_0000 - Blocks(g)))
  {
    SessionBlocksMeetExactly(s, calls, i, j);
    PlacesAreBlocks(Sent(s, calls)[i], Sent(s, calls)[j]);
  }

  lemma PacketParts(header: Bytes, payload: Bytes, rest: Bytes)
    requires |header| == 16
    ensures var p := header + payload + rest; var n := 16 + |payload|;
      p[..16] == header && p[16..n] == payload && p[n..] == rest
  {
  }

  lemma PartsJoin(header: Bytes, payload: Bytes, rest: Bytes, p: Bytes)
    requires |header| == 16 && |p| == 16 + |payload| + |rest|
    requires p[..16] == header && p[16..16 + |payload|] == payload && p[16 + |payload|..] == rest
    ensures p == header + payload + rest
  {
  }

  // ---------------------------------------------------------------------- the code

  class Crypto {
    const cipher: BlockCipher
    const key: array<Byte>
    const nonce: array<Byte>
    var sendSequence: Word
    var ready: bool

    ghost predicate Valid()
      reads this
    {
      key.Length == 16 && nonce.Length == 16 && key != nonce
    }

    ghost function Model(): Session
      reads this, key, nonce
    {
      Session(key[..], nonce[..], sendSequence, ready)
    }

    constructor (cipher: BlockCipher)
      ensures Valid() && Model() == IDLE && this.cipher == cipher && fresh(key) && fresh(nonce)
    {
      this.cipher := cipher;
      key := new Byte[16](_ => 0);
      nonce := new Byte[16](_ => 0);
      sendSequence, ready := 0, false;
      new;
      assert key[..] == Zeros(16) && nonce[..] == Zeros(16);
    }

    method Init(newKey: Bytes, newNonce: Bytes) returns (status: Status)
      requires Valid()
      modifies this`sendSequence, this`ready, key, nonce
      ensures status == InitStatus(newKey, newNonce)
      ensures status == Ok ==> Model() == Session(newKey, newNonce, 0, true) && Started(Model())
      ensures status != Ok ==> Model() == old(Model())
    {
      if |newKey| != KEY_BYTES {
        return ErrKey;
      }
      if |newNonce| != NONCE_BYTES || newNonce[0] != W.PACKET_TYPE {
        return ErrNonce;
      }
      Reset();
      Copy(key, 0, newKey);
      assert key[..] == newKey;
      Copy(nonce, 0, newNonce);
      assert nonce[..] == newNonce;
      ready := true;
      return Ok;
    }

    method Reset()
      requires Valid()
      modifies this`sendSequence, this`ready, key, nonce
      ensures Model() == IDLE
    {
      Wipe(key);
      Wipe(nonce);
      sendSequence, ready := 0, false;
    }

    static method Wipe(bytes: array<Byte>)
      modifies bytes
      ensures bytes[..] == Zeros(bytes.Length)
    {
      for k := 0 to bytes.Length
        invariant forall i :: 0 <= i < k ==> bytes[i] == 0
      {
        bytes[k] := 0;
      }
    }

    /**
     * Encodes the frame into `output` and encrypts its payload in place. When the cipher fails the buffer has been
     * written to, but the sequence number is not used up.
     */
    method Encrypt(opus: Bytes, timestamp: Word, ssrc: Word, output: array<Byte>, works: bool)
      returns (status: Status, length: nat)
      requires Valid() && output != key && output != nonce
      modifies this`sendSequence, output
      ensures status == SendStatus(old(Model()), Call(opus, timestamp, ssrc, output.Length, works))
      ensures Model() == After(old(Model()), Call(opus, timestamp, ssrc, output.Length, works))
      ensures status == Ok ==>
        var f := FrameOf(old(Model()), Call(opus, timestamp, ssrc, output.Length, works));
        W.ValidFrame(f) && length == 16 + |opus| && output[..] == Seal(cipher, key[..], f) + old(output[length..])
      ensures status !in {Ok, ErrCrypto} ==> output[..] == old(output[..])
    {
      length := 0;
      if !ready {
        return ErrState, 0;
      }
      if |opus| == 0 || |opus| > W.MAX_PAYLOAD {
        return ErrFrame, 0;
      }
      if sendSequence >= LAST_SEQUENCE {
        return ErrSequence, 0;
      }
      if output.Length < W.HEADER_SIZE + |opus| {
        return ErrCapacity, 0;
      }
      var frame := W.Frame(nonce[1], ssrc, timestamp, sendSequence + 1, opus);
      var encoded, written := W.Encode(frame, output);
      assert encoded == W.Ok;
      var iv := output[..16];
      ghost var before, rest := output[..], old(output[written..]);
      PacketParts(Iv(frame), opus, rest);
      assert before == Iv(frame) + opus + rest && iv == Iv(frame);
      if !works {
        return ErrCrypto, 0;
      }
      CryptInPlace(iv, output, |opus|);
      PartsJoin(Iv(frame), Crypt(cipher, key[..], iv, opus), rest, output[..]);
      sendSequence := frame.sequence;
      return Ok, written;
    }

    /** The cipher run over `length` bytes behind the header of `output`. */
    method CryptInPlace(iv: Bytes, output: array<Byte>, length: nat)
      requires Valid() && output != key && 16 + length <= output.Length
      modifies output
      ensures output[..16] == old(output[..16]) && output[16 + length..] == old(output[16 + length..])
      ensures output[16..16 + length] == Crypt(cipher, key[..], iv, old(output[16..16 + length]))
    {
      for k := 0 to length
        invariant output[..16] == old(output[..16])
        invariant forall i :: 0 <= i < k ==>
          output[16 + i] == XorByte(old(output[16 + i]), KeyByte(cipher, key[..], PlaceOf(iv, i)))
        invariant forall i :: 16 + k <= i < output.Length ==> output[i] == old(output[i])
      {
        output[16 + k] := XorByte(output[16 + k], KeyByte(cipher, key[..], PlaceOf(iv, k)));
      }
    }

    /** `opusOutput` receives the decrypted payload, which the frame then points to. */
    method Decrypt(input: Bytes, opusOutput: array<Byte>, works: bool) returns (result: Opened)
      requires Valid() && opusOutput != key && opusOutput != nonce
      modifies opusOutput
      ensures Model() == old(Model())
      ensures result == Open(cipher, old(Model()), input, opusOutput.Length, works)
      ensures result.Opened? ==>
        var opus := result.frame.payload;
        |opus| <= opusOutput.Length && opusOutput[..] == opus + old(opusOutput[|opus|..])
      ensures result.Refused? ==> opusOutput[..] == old(opusOutput[..])
    {
      if !ready {
        return Refused(ErrState);
      }
      var decoded := W.Decode(input);
      if decoded.Rejected? {
        return Refused(MapWireError(decoded.status));
      }
      var frame := decoded.frame;
      if frame.flags != nonce[1] {
        return Refused(ErrFrame);
      }
      if opusOutput.Length < |frame.payload| {
        return Refused(ErrCapacity);
      }
      if !works {
        return Refused(ErrCrypto);
      }
      for k := 0 to |frame.payload|
        invariant key[..] == old(key[..]) && nonce[..] == old(nonce[..])
        invariant forall i :: 0 <= i < k ==>
          opusOutput[i] == XorByte(frame.payload[i], KeyByte(cipher, key[..], PlaceOf(input[..16], i)))
        invariant forall i :: k <= i < opusOutput.Length ==> opusOutput[i] == old(opusOutput[i])
      {
        opusOutput[k] := XorByte(frame.payload[k], KeyByte(cipher, key[..], PlaceOf(input[..16], k)));
      }
      return Opened(frame.(payload := opusOutput[..|frame.payload|]));
    }
  }
}
