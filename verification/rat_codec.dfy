/**
 * The controller's packet header and its fixed big-endian wire layout:
 * seq (4 bytes), id (4 bytes), flow id (8 bytes), sent nanoseconds (8 bytes).
 * The receive timestamp is local and never goes on the wire.
 */
module WireCodec {
  import opened Wrappers

  type byte = x: int | 0 <= x < 256

  const TwoTo32: nat := 0x1_0000_0000
  const TwoTo64: nat := 0x1_0000_0000_0000_0000

  /** Go's `uint` on a 64-bit target, pinned to 8 bytes on the wire. */
  type uint64 = x: int | 0 <= x < TwoTo64

  /**
   * Instants are nanoseconds since the Unix epoch. Go's zero time (the
   * year 1, January 1) is 62135596800 seconds before the epoch.
   */
  const ZeroTime: int := -62_135_596_800_000_000_000

  /** A packet: sequence number, sender id, flow id, and the two timestamps. */
  datatype Packet = Packet(seqNo: int, id: int, flowID: uint64, sent: int, received: int)

  /** The header fields, in wire order. */
  datatype Field = SeqNoField | IDField | FlowIDField | SentField

  /**
   * A failed read: no byte of the field was left (end of input), part of it
   * was (unexpected end of input), or the destination type has no fixed size.
   */
  datatype CodecError =
    | EndOfInput(field: Field)
    | UnexpectedEndOfInput(field: Field)
    | InvalidType(field: Field)

  const PacketSize: nat := 24

  function Pow256(n: nat): (r: nat)
    ensures r >= 1
  {
    if n == 0 then 1 else 256 * Pow256(n - 1)
  }

  /** The `n`-byte big-endian representation of `x` (its low `n` bytes). */
  function BigEndian(x: nat, n: nat): (bs: seq<byte>)
    ensures |bs| == n
  {
    if n == 0 then [] else BigEndian(x / 256, n - 1) + [x % 256]
  }

  /** The number the big-endian bytes `bs` stand for. */
  function FromBigEndian(bs: seq<byte>): (x: nat)
    ensures x < Pow256(|bs|)
  {
    if bs == [] then 0 else FromBigEndian(bs[..|bs| - 1]) * 256 + bs[|bs| - 1]
  }

  /** Reading back the bytes written for `x` gives `x`, when `x` fits in `n` bytes. */
  lemma {:induction false} FromBigEndianOfBigEndian(x: nat, n: nat)
    requires x < Pow256(n)
    ensures FromBigEndian(BigEndian(x, n)) == x
  {
    if n > 0 {
      var bs := BigEndian(x / 256, n - 1);
      assert (bs + [x % 256])[..|bs|] == bs;
      FromBigEndianOfBigEndian(x / 256, n - 1);
    }
  }

  /** Writing back the number read from `bs` gives `bs`. */
  lemma {:induction false} BigEndianOfFromBigEndian(bs: seq<byte>)
    ensures BigEndian(FromBigEndian(bs), |bs|) == bs
  {
    if bs != [] {
      var init := bs[..|bs| - 1];
      var x := FromBigEndian(bs);
      assert x / 256 == FromBigEndian(init) && x % 256 == bs[|bs| - 1];
      BigEndianOfFromBigEndian(init);
      assert bs == init + [bs[|bs| - 1]];
    }
  }

  /** Two's-complement reading of an unsigned 32-bit value. */
  function Signed32(u: nat): int {
    if u < 0x8000_0000 then u else u - TwoTo32
  }

  /** Two's-complement reading of an unsigned 64-bit value. */
  function Signed64(u: nat): int {
    if u < 0x8000_0000_0000_0000 then u else u - TwoTo64
  }

  lemma Pow256Values()
    ensures Pow256(4) == TwoTo32 && Pow256(8) == TwoTo64
  {
  }

  predicate InInt32(x: int) {
    -0x8000_0000 <= x < 0x8000_0000
  }

  predicate InInt64(x: int) {
    -0x8000_0000_0000_0000 <= x < 0x8000_0000_0000_0000
  }

  /** Go's `int32(x)` conversion: keep the low 32 bits, read them as signed. */
  function ToInt32(x: int): (r: int)
    ensures InInt32(r)
    ensures (r - x) % TwoTo32 == 0
    ensures InInt32(x) ==> r == x
  {
    Signed32(x % TwoTo32)
  }

  /** The same wrap-around at 64 bits, as Go's int64 arithmetic does it. */
  function ToInt64(x: int): (r: int)
    ensures InInt64(r)
    ensures (r - x) % TwoTo64 == 0
    ensures InInt64(x) ==> r == x
  {
    Signed64(x % TwoTo64)
  }

  /**
   * encodePacket with the flow id written as an 8-byte unsigned integer:
   * the four fields in order, each big-endian and two's complement.
   */
  function EncodePacket(p: Packet): (bs: seq<byte>)
    ensures |bs| == PacketSize
  {
    BigEndian(p.seqNo % TwoTo32, 4)
      + BigEndian(p.id % TwoTo32, 4)
      + BigEndian(p.flowID, 8)
      + BigEndian(p.sent % TwoTo64, 8)
  }

  /**
   * One fixed-size read at offset `at` of `buf`: nothing left is end of
   * input, less than `n` bytes left is unexpected end of input.
   */
  function ReadField(buf: seq<byte>, at: nat, n: nat, f: Field): (r: Result<nat, CodecError>)
    ensures r.Success? <==> at + n <= |buf|
    ensures r.Success? ==> r.value < Pow256(n)
  {
    if at + n <= |buf| then Success(FromBigEndian(buf[at..at + n]))
    else if |buf| <= at then Failure(EndOfInput(f))
    else Failure(UnexpectedEndOfInput(f))
  }

  /**
   * decodePacket with the flow id read as an 8-byte unsigned integer: the
   * first field that cannot be read fully is the error; bytes after the
   * header are ignored; the receive timestamp is Go's zero time.
   */
  function DecodePacket(buf: seq<byte>): (r: Result<Packet, CodecError>)
    ensures r.Success? <==> |buf| >= PacketSize
    ensures r.Success? ==> r.value.received == ZeroTime
  {
    match ReadField(buf, 0, 4, SeqNoField)
    case Failure(e) => Failure(e)
    case Success(s) =>
      match ReadField(buf, 4, 4, IDField)
      case Failure(e) => Failure(e)
      case Success(i) =>
        match ReadField(buf, 8, 8, FlowIDField)
        case Failure(e) => Failure(e)
        case Success(f) =>
          Pow256Values();
          match ReadField(buf, 16, 8, SentField)
          case Failure(e) => Failure(e)
          case Success(t) => Success(Packet(Signed32(s), Signed32(i), f, Signed64(t), ZeroTime))
  }

  lemma Split(a: seq<byte>, b: seq<byte>, c: seq<byte>, d: seq<byte>)
    requires |a| == 4 && |b| == 4 && |c| == 8 && |d| == 8
    ensures (a + b + c + d)[0..4] == a && (a + b + c + d)[4..8] == b
    ensures (a + b + c + d)[8..16] == c && (a + b + c + d)[16..24] == d
  {
  }

  /**
   * The round trip: decoding an encoded packet gives back the sequence
   * number and id as Go's int32 conversion leaves them, the flow id, the
   * send time as an int64 nanosecond count, and the zero receive time.
   */
  lemma DecodeEncode(p: Packet)
    ensures DecodePacket(EncodePacket(p))
         == Success(Packet(ToInt32(p.seqNo), ToInt32(p.id), p.flowID, ToInt64(p.sent), ZeroTime))
  {
    Pow256Values();
    var a, b := BigEndian(p.seqNo % TwoTo32, 4), BigEndian(p.id % TwoTo32, 4);
    var c, d := BigEndian(p.flowID, 8), BigEndian(p.sent % TwoTo64, 8);
    Split(a, b, c, d);
    FromBigEndianOfBigEndian(p.seqNo % TwoTo32, 4);
    FromBigEndianOfBigEndian(p.id % TwoTo32, 4);
    FromBigEndianOfBigEndian(p.flowID, 8);
    FromBigEndianOfBigEndian(p.sent % TwoTo64, 8);
  }

  /**
   * For a packet whose sequence number and id fit in 32 bits and whose
   * send time fits in 64, every field survives the round trip; the receive
   * time is never sent, so it comes back as the zero time.
   */
  lemma DecodeEncodeInRange(p: Packet)
    requires InInt32(p.seqNo) && InInt32(p.id) && InInt64(p.sent)
    ensures DecodePacket(EncodePacket(p)) == Success(p.(received := ZeroTime))
  {
    DecodeEncode(p);
  }

  /**
   * The other direction: a successfully decoded header re-encodes to the
   * 24 bytes it was read from.
   */
  lemma EncodeDecode(buf: seq<byte>)
    requires DecodePacket(buf).Success?
    ensures |buf| >= PacketSize
    ensures EncodePacket(DecodePacket(buf).value) == buf[..PacketSize]
  {
    Pow256Values();
    var p := DecodePacket(buf).value;
    var a, b, c, d := buf[0..4], buf[4..8], buf[8..16], buf[16..24];
    assert p == Packet(Signed32(FromBigEndian(a)), Signed32(FromBigEndian(b)), FromBigEndian(c),
                       Signed64(FromBigEndian(d)), ZeroTime);
    BigEndianOfFromBigEndian(a);
    BigEndianOfFromBigEndian(b);
    BigEndianOfFromBigEndian(c);
    BigEndianOfFromBigEndian(d);
    Signed32Low(FromBigEndian(a));
    Signed32Low(FromBigEndian(b));
    Signed64Low(FromBigEndian(d));
    assert buf[..PacketSize] == a + b + c + d;
  }

  /** The low 32 bits of a two's-complement reading are the bits read. */
  lemma Signed32Low(u: nat)
    requires u < TwoTo32
    ensures Signed32(u) % TwoTo32 == u
  {
  }

  /** The low 64 bits of a two's-complement reading are the bits read. */
  lemma Signed64Low(u: nat)
    requires u < TwoTo64
    ensures Signed64(u) % TwoTo64 == u
  {
  }

  /** The field whose bytes cover offset `k` of the header. */
  function FieldAt(k: nat): Field {
    if k < 4 then SeqNoField else if k < 8 then IDField else if k < 16 then FlowIDField else SentField
  }

  /**
   * Decoding fails exactly on buffers shorter than the header. The error
   * names the field the buffer ends in, and is end of input when the
   * buffer ends on a field boundary and unexpected end of input otherwise.
   */
  lemma DecodeFailsIff(buf: seq<byte>)
    ensures DecodePacket(buf).Failure? <==> |buf| < PacketSize
    ensures DecodePacket(buf).Failure? ==>
              DecodePacket(buf).error
              == if |buf| in {0, 4, 8, 16} then EndOfInput(FieldAt(|buf|)) else UnexpectedEndOfInput(FieldAt(|buf|))
  {
  }

  /** Bytes after the 24-byte header do not affect decoding. */
  lemma DecodeIgnoresTrailing(buf: seq<byte>)
    requires |buf| >= PacketSize
    ensures DecodePacket(buf) == DecodePacket(buf[..PacketSize])
  {
    assert buf[0..4] == buf[..PacketSize][0..4];
    assert buf[4..8] == buf[..PacketSize][4..8];
    assert buf[8..16] == buf[..PacketSize][8..16];
    assert buf[16..24] == buf[..PacketSize][16..24];
  }

  /**
   * ReceivePacket without the socket: decode what was read, and only on
   * success stamp the local receive time `now`.
   */
  function ReceivePacket(data: seq<byte>, now: int): (r: Result<Packet, CodecError>)
    ensures r.Failure? <==> DecodePacket(data).Failure?
    ensures r.Failure? ==> r.error == DecodePacket(data).error
    ensures r.Success? ==> r.value == DecodePacket(data).value.(received := now)
  {
    match DecodePacket(data)
    case Failure(e) => Failure(e)
    case Success(p) => Success(p.(received := now))
  }

  // The codec as written hands the flow id to the binary package as Go's
  // `uint`. The binary package sizes only fixed-size types, and `uint` has
  // the platform's word size, so it refuses to write or read it. This
  // refusal is the binary package's documented rule, taken here as given.

  /** The Go types the codec writes and reads. */
  datatype GoType = Int32Type | Int64Type | Uint64Type | UintType

  /** The size the binary package gives a type, if it has a fixed one. */
  function FixedSize(t: GoType): Option<nat> {
    match t
    case Int32Type => Some(4)
    case Int64Type => Some(8)
    case Uint64Type => Some(8)
    case UintType => None
  }

  /** One `binary.Write` of `x` as type `t`: its low bytes, big-endian, or a refusal naming the field. */
  function WriteValue(t: GoType, x: int, f: Field): (r: Result<seq<byte>, CodecError>)
    ensures r.Failure? <==> FixedSize(t).None?
    ensures r.Failure? ==> r.error == InvalidType(f)
    ensures r.Success? ==> |r.value| == FixedSize(t).value
  {
    match FixedSize(t)
    case None => Failure(InvalidType(f))
    case Some(n) => Success(BigEndian(x % Pow256(n), n))
  }

  /**
   * One `binary.Read` as type `t` at offset `at`: a type without a fixed
   * size is refused before any byte is read.
   */
  function ReadValue(buf: seq<byte>, at: nat, t: GoType, f: Field): (r: Result<nat, CodecError>)
    ensures FixedSize(t).None? ==> r == Failure(InvalidType(f))
    ensures r.Success? ==> FixedSize(t).Some? && at + FixedSize(t).value <= |buf| && r.value < TwoTo64
  {
    Pow256Values();
    match FixedSize(t)
    case None => Failure(InvalidType(f))
    case Some(n) => ReadField(buf, at, n, f)
  }

  /**
   * encodePacket with the flow id written as type `flowType`: the four
   * writes in order, the first refusal returned.
   */
  function EncodeAs(p: Packet, flowType: GoType): (r: Result<seq<byte>, CodecError>)
    ensures r.Success? <==> FixedSize(flowType).Some?
    ensures r.Failure? ==> r.error == InvalidType(FlowIDField)
  {
    match WriteValue(Int32Type, p.seqNo, SeqNoField)
    case Failure(e) => Failure(e)
    case Success(a) =>
      match WriteValue(Int32Type, p.id, IDField)
      case Failure(e) => Failure(e)
      case Success(b) =>
        match WriteValue(flowType, p.flowID, FlowIDField)
        case Failure(e) => Failure(e)
        case Success(c) =>
          match WriteValue(Int64Type, p.sent, SentField)
          case Failure(e) => Failure(e)
          case Success(d) => Success(a + b + c + d)
  }

  /**
   * decodePacket with the flow id read as type `flowType`: four reads in
   * order from the start of the buffer, the first failure returned.
   */
  function DecodeAs(buf: seq<byte>, flowType: GoType): (r: Result<Packet, CodecError>)
    ensures FixedSize(flowType).None? ==> r.Failure?
  {
    match ReadValue(buf, 0, Int32Type, SeqNoField)
    case Failure(e) => Failure(e)
    case Success(s) =>
      match ReadValue(buf, 4, Int32Type, IDField)
      case Failure(e) => Failure(e)
      case Success(i) =>
        match ReadValue(buf, 8, flowType, FlowIDField)
        case Failure(e) => Failure(e)
        case Success(fl) =>
          match ReadValue(buf, 8 + FixedSize(flowType).value, Int64Type, SentField)
          case Failure(e) => Failure(e)
          case Success(t) => Success(Packet(Signed32(s), Signed32(i), fl, Signed64(t), ZeroTime))
  }

  /** With the flow id as an 8-byte unsigned integer, the type-driven encoder is `EncodePacket`. */
  lemma EncodeFixedWidth(p: Packet)
    ensures EncodeAs(p, Uint64Type) == Success(EncodePacket(p))
  {
    Pow256Values();
    assert p.flowID % TwoTo64 == p.flowID;
  }

  /** With the flow id as an 8-byte unsigned integer, the type-driven decoder is `DecodePacket`. */
  lemma DecodeFixedWidth(buf: seq<byte>)
    ensures DecodeAs(buf, Uint64Type) == DecodePacket(buf)
  {
  }

  /** encodePacket as written: the write of the flow id is refused, and no bytes are returned. */
  function EncodePacketAsWritten(p: Packet): (r: Result<seq<byte>, CodecError>)
    ensures r == Failure(InvalidType(FlowIDField))
  {
    EncodeAs(p, UintType)
  }

  /**
   * decodePacket as written: a buffer too short for the sequence number or
   * id fails there, as the fixed decoder does; every longer buffer fails at
   * the flow id.
   */
  function DecodePacketAsWritten(buf: seq<byte>): (r: Result<Packet, CodecError>)
    ensures r.Failure?
    ensures |buf| < 8 ==> r == DecodePacket(buf)
    ensures |buf| >= 8 ==> r == Failure(InvalidType(FlowIDField))
  {
    DecodeAs(buf, UintType)
  }

  /** A concrete header that the fixed-width codec decodes and the codec as written refuses. */
  lemma AsWrittenRejectsValidHeader()
    ensures var p := Packet(1, 2, 3, 4, ZeroTime);
            DecodePacket(EncodePacket(p)) == Success(p) && DecodePacketAsWritten(EncodePacket(p)).Failure?
  {
    DecodeEncodeInRange(Packet(1, 2, 3, 4, ZeroTime));
  }
}
