/** The framing of robot messages: how a response is written, how a request is read. */
module Protocol {
  import opened Crc
  import opened CrcBits
  import opened Options

  const MAGIC: bv8 := 0x55

  /** The addressing part of a message to send. */
  datatype Response = Response(isAck: bool, seqId: nat, sender: bv8, receiver: bv8, needAck: bool) {
    predicate Valid() {
      seqId < 0x1_0000
    }

    function Attri(): bv8 {
      (if isAck then 0x80 else 0) + (if needAck then 0x20 else 0)
    }
  }

  /** What `DecodeRequest` hands on; `payload` is everything stored after the header. */
  datatype Request = Request(cmdSet: bv8, cmdId: bv8, seqId: nat, attri: bv8, sender: bv8, receiver: bv8,
                             payload: seq<bv8>)
  {
    predicate NeedAck() {
      (attri & 0x60) >> 5 != 0
    }

    /** The response the server prepares for a request. */
    function Reply(): Response {
      Response(NeedAck(), seqId, receiver, sender, !NeedAck())
    }
  }

  // ----- Writing

  const HEADER_SIZE: nat := 11
  const FRAME_OVERHEAD: nat := 13

  /** The byte with value `k`. */
  function ByteOf(k: nat): (b: bv8)
    requires k < 256
    ensures b as nat == k
  {
    if k == 0 then 0 else
      Successor(ByteOf(k - 1));
      ByteOf(k - 1) + 1
  }

  lemma Successor(b: bv8)
    requires b < 255
    ensures (b + 1) as nat == b as nat + 1
  {
  }

  function LowOf(n: nat): bv8 {
    ByteOf(n % 256)
  }

  function HighOf(n: nat): bv8 {
    ByteOf(n / 256 % 256)
  }

  /** The third byte holds the two bits of the length that fit, and a version bit. */
  function LengthHigh(length: nat): bv8 {
    ByteOf(length / 256 % 4) | 4
  }

  /** The first three bytes: magic number and length. */
  function Preamble(length: nat): seq<bv8> {
    [MAGIC, LowOf(length), LengthHigh(length)]
  }

  function Header(r: Response, length: nat, cmdSet: bv8, cmdId: bv8): seq<bv8>
    requires r.Valid()
  {
    Preamble(length) + [Register8(INITIAL_8, Preamble(length))] +
    [r.sender, r.receiver, LowOf(r.seqId), HighOf(r.seqId), r.Attri(), cmdSet, cmdId]
  }

  function Body(r: Response, payload: seq<bv8>, cmdSet: bv8, cmdId: bv8): seq<bv8>
    requires r.Valid()
  {
    Header(r, FRAME_OVERHEAD + |payload|, cmdSet, cmdId) + payload
  }

  /** A whole message: header, payload and the checksum of both. */
  function Frame(r: Response, payload: seq<bv8>, cmdSet: bv8, cmdId: bv8): (frame: seq<bv8>)
    requires r.Valid()
    ensures |frame| == FRAME_OVERHEAD + |payload|
  {
    var body := Body(r, payload, cmdSet, cmdId);
    body + LittleEndian(Register16(INITIAL_16, body))
  }

  method EncodeMsg(r: Response, payload: seq<bv8>, cmdSet: bv8, cmdId: bv8) returns (buffer: array<bv8>)
    requires r.Valid()
    ensures fresh(buffer)
    ensures buffer[..] == Frame(r, payload, cmdSet, cmdId)
  {
    hide Register16, LittleEndian, Header;
    var len := 13 + |payload|;
    buffer := new bv8[len](_ => 0);
    WriteHeader(buffer, len, r, cmdSet, cmdId);
    ghost var header := Header(r, len, cmdSet, cmdId);
    for i := 0 to |payload|
      invariant buffer[..11 + i] == header + payload[..i]
    {
      buffer[11 + i] := payload[i];
      assert buffer[..11 + i + 1] == buffer[..11 + i] + [payload[i]];
      assert payload[..i + 1] == payload[..i] + [payload[i]];
    }
    assert payload[..|payload|] == payload;
    assert buffer[..len - 2] == Body(r, payload, cmdSet, cmdId);
    var crc := Crc16Calc(buffer, len - 2);
    WriteLittleEndian(buffer, len - 2, crc);
    assert buffer[..] == Body(r, payload, cmdSet, cmdId) + LittleEndian(crc);
  }

  method WriteHeader(buffer: array<bv8>, len: nat, r: Response, cmdSet: bv8, cmdId: bv8)
    requires r.Valid() && len == buffer.Length >= FRAME_OVERHEAD
    modifies buffer
    ensures buffer[..11] == Header(r, len, cmdSet, cmdId)
  {
    hide Register8, LowOf, HighOf, LengthHigh, Response.Attri;
    buffer[0] := 0x55;
    buffer[1] := LowOf(len);
    buffer[2] := LengthHigh(len);
    assert buffer[..3] == Preamble(len);
    var headerCrc := Crc8Calc(buffer, 3);
    buffer[3] := headerCrc;
    assert buffer[..4] == Preamble(len) + [headerCrc];
    WriteAddress(buffer, r, cmdSet, cmdId);
    assert buffer[..11] == buffer[..4] + buffer[4..11];
  }

  /** Everything in the header but the preamble and its checksum. */
  method WriteAddress(buffer: array<bv8>, r: Response, cmdSet: bv8, cmdId: bv8)
    requires r.Valid() && buffer.Length >= FRAME_OVERHEAD
    modifies buffer
    ensures buffer[..4] == old(buffer[..4])
    ensures buffer[4..11] == [r.sender, r.receiver, LowOf(r.seqId), HighOf(r.seqId), r.Attri(), cmdSet, cmdId]
  {
    hide LowOf, HighOf, Response.Attri;
    buffer[4] := r.sender;
    buffer[5] := r.receiver;
    buffer[6] := LowOf(r.seqId);
    buffer[7] := HighOf(r.seqId);
    buffer[8] := r.Attri();
    buffer[9] := cmdSet;
    buffer[10] := cmdId;
  }

  method WriteLittleEndian(buffer: array<bv8>, index: nat, value: bv16)
    requires index + 2 <= buffer.Length
    modifies buffer
    ensures buffer[..] == old(buffer[..index]) + LittleEndian(value) + old(buffer[index + 2..])
  {
    buffer[index] := LowByte(value);
    buffer[index + 1] := HighByte(value);
  }

  // ----- Reading

  /** Two bytes as a number, the low one first. */
  function WordOf(low: bv8, high: bv8): nat {
    high as nat * 256 + low as nat
  }

  /** The length a header declares: ten bits, whatever the two bytes hold. */
  function DeclaredLength(buffer: seq<bv8>): nat
    requires |buffer| >= 3
  {
    WordOf(buffer[1], buffer[2] & 0x3)
  }

  predicate HeaderAccepted(buffer: seq<bv8>)
    requires |buffer| >= 4
  {
    buffer[0] == MAGIC && Register8(INITIAL_8, buffer[..3]) == buffer[3]
  }

  /** Reading the first `length` bytes of a receive buffer.  The buffer itself always has room
      for a header, however few bytes have arrived. */
  function Decode(buffer: seq<bv8>, length: nat): Option<Request>
    requires HEADER_SIZE <= |buffer| && length <= |buffer|
  {
    if length < 4 || !HeaderAccepted(buffer) || length < DeclaredLength(buffer) then None
    else Some(Request(buffer[9], buffer[10], WordOf(buffer[6], buffer[7]),
                      buffer[8], buffer[4], buffer[5], buffer[11..]))
  }

  method DecodeRequest(buffer: array<bv8>, length: nat) returns (request: Option<Request>)
    requires HEADER_SIZE <= buffer.Length && length <= buffer.Length
    ensures request == Decode(buffer[..], length)
    ensures request.Some? <==>
            && length >= 4 && buffer[0] == 0x55 && Register8(0x77, buffer[..3]) == buffer[3]
            && length >= (buffer[2] & 0x3) as nat * 256 + buffer[1] as nat
    ensures request.Some? ==>
              var q := request.value;
              && q.sender == buffer[4] && q.receiver == buffer[5] && q.attri == buffer[8]
              && q.seqId == buffer[7] as nat * 256 + buffer[6] as nat
              && q.cmdSet == buffer[9] && q.cmdId == buffer[10] && q.payload == buffer[11..]
  {
    hide Register8;
    if length < 4 {
      return None;
    }
    if buffer[0] != 0x55 {
      return None;
    }
    var crc := Crc8Calc(buffer, 3);
    assert buffer[..][..3] == buffer[..3];
    if crc != buffer[3] {
      return None;
    }
    var msgLen := WordOf(buffer[1], buffer[2] & 0x3);
    if length < msgLen {
      return None;
    }
    request := Some(Request(buffer[9], buffer[10], WordOf(buffer[6], buffer[7]),
                            buffer[8], buffer[4], buffer[5], buffer[11..]));
  }

  // ----- The layout of a message

  lemma AttriBits(r: Response)
    ensures var attri := r.Attri();
            (attri & 0x80 != 0 <==> r.isAck) && (attri & 0x20 != 0 <==> r.needAck) && attri & 0x5f == 0
  {
  }

  lemma VersionBits(b: bv8)
    requires b as nat < 4
    ensures (b | 4) & 0xfc == 4 && (b | 4) & 0x3 == b
  {
    assert b < 4;
  }

  /** What stands where in a message of n bytes: the magic number, ten bits of n with a version bit above them, the
      checksum of these three bytes, both addresses, the number, the two acknowledge bits, the command, the payload,
      and the checksum of all that, low byte first. */
  lemma FrameLayout(r: Response, payload: seq<bv8>, cmdSet: bv8, cmdId: bv8)
    requires r.Valid()
    ensures var f := Frame(r, payload, cmdSet, cmdId);
            var n := 13 + |payload|;
            && |f| == n
            && f[0] == 0x55
            && f[1] as nat == n % 256 && (f[2] & 0x3) as nat == n / 256 % 4 && f[2] & 0xfc == 4
            && f[3] == Register8(0x77, f[..3])
            && f[4] == r.sender && f[5] == r.receiver
            && f[7] as nat * 256 + f[6] as nat == r.seqId
            && (f[8] & 0x80 != 0 <==> r.isAck) && (f[8] & 0x20 != 0 <==> r.needAck) && f[8] & 0x5f == 0
            && f[9] == cmdSet && f[10] == cmdId
            && f[11..n - 2] == payload
            && f[n - 2..] == LittleEndian(Register16(0x3692, f[..n - 2]))
  {
    hide Register8, Register16, LittleEndian, LowOf, HighOf, LengthHigh, Response.Attri, Frame, Header, WordOf;
    var n := 13 + |payload|;
    FrameParts(r, payload, cmdSet, cmdId);
    HeaderParts(r, n, cmdSet, cmdId);
    LengthBytes(n);
    AttriBits(r);
    SeqIdBytes(r.seqId);
  }

  lemma FrameParts(r: Response, payload: seq<bv8>, cmdSet: bv8, cmdId: bv8)
    requires r.Valid()
    ensures var f := Frame(r, payload, cmdSet, cmdId);
            var n := 13 + |payload|;
            && (forall i :: 0 <= i < 11 ==> f[i] == Header(r, n, cmdSet, cmdId)[i])
            && f[..3] == Preamble(n) && f[11..n - 2] == payload
            && f[n - 2..] == LittleEndian(Register16(INITIAL_16, f[..n - 2]))
  {
    hide Register8, Register16, LittleEndian, LowOf, HighOf, LengthHigh, Response.Attri;
    var n := 13 + |payload|;
    var f, body := Frame(r, payload, cmdSet, cmdId), Body(r, payload, cmdSet, cmdId);
    assert f[..n - 2] == body;
    assert body[..3] == Preamble(n);
  }

  lemma HeaderParts(r: Response, n: nat, cmdSet: bv8, cmdId: bv8)
    requires r.Valid()
    ensures Preamble(n) == [0x55, LowOf(n), LengthHigh(n)]
    ensures var h := Header(r, n, cmdSet, cmdId);
            && h[0] == 0x55 && h[1] == LowOf(n) && h[2] == LengthHigh(n) && h[3] == Register8(0x77, Preamble(n))
            && h[4] == r.sender && h[5] == r.receiver && h[6] == LowOf(r.seqId) && h[7] == HighOf(r.seqId)
            && h[8] == r.Attri() && h[9] == cmdSet && h[10] == cmdId
  {
    hide Register8, LowOf, HighOf, LengthHigh, Response.Attri;
  }

  lemma LengthBytes(n: nat)
    ensures LowOf(n) as nat == n % 256
    ensures (LengthHigh(n) & 0x3) as nat == n / 256 % 4 && LengthHigh(n) & 0xfc == 4
  {
    VersionBits(ByteOf(n / 256 % 4));
  }

  lemma SeqIdBytes(n: nat)
    requires n < 0x1_0000
    ensures HighOf(n) as nat * 256 + LowOf(n) as nat == n
  {
    hide LowOf, HighOf;
    WordRoundTrip(n);
  }

  /** A word is written as the byte below 256 and the byte above. */
  lemma LittleEndianIs(word: bv16)
    ensures LittleEndian(word) == [(word & 0xff) as bv8, (word >> 8) as bv8]
  {
  }

  // ----- Round trip

  lemma LengthBitsRoundTrip(length: nat)
    ensures (LengthHigh(length) & 0x3) as nat == length / 256 % 4
  {
    VersionBitMasked(ByteOf(length / 256 % 4));
  }

  lemma VersionBitMasked(b: bv8)
    requires b as nat < 4
    ensures (b | 4) & 0x3 == b
  {
    assert b < 4;
  }

  lemma WordRoundTrip(n: nat)
    requires n < 0x1_0000
    ensures WordOf(LowOf(n), HighOf(n)) == n
  {
    WordSum(n, HighOf(n) as nat, LowOf(n) as nat);
  }

  lemma WordSum(n: nat, high: nat, low: nat)
    requires n < 0x1_0000 && high == n / 256 % 256 && low == n % 256
    ensures high * 256 + low == n
  {
  }

  /** A buffer that starts with a message to send has its first four bytes accepted, and declares
      the message's length modulo 1024. */
  lemma FrameHeaderAccepted(r: Response, payload: seq<bv8>, cmdSet: bv8, cmdId: bv8, tail: seq<bv8>)
    requires r.Valid()
    ensures var buffer := Frame(r, payload, cmdSet, cmdId) + tail;
            HeaderAccepted(buffer) && DeclaredLength(buffer) == (FRAME_OVERHEAD + |payload|) % 1024
  {
    hide Register8, Register16, LittleEndian, LowOf, HighOf, LengthHigh, WordOf, Response.Attri;
    var length := FRAME_OVERHEAD + |payload|;
    var buffer := Frame(r, payload, cmdSet, cmdId) + tail;
    assert buffer[..3] == Preamble(length);
    LengthRoundTrip(length);
  }

  lemma LengthRoundTrip(length: nat)
    ensures WordOf(LowOf(length), LengthHigh(length) & 0x3) == length % 1024
  {
    LengthBitsRoundTrip(length);
    TenBits(length);
  }

  lemma TenBits(length: nat)
    ensures length / 256 % 4 * 256 + length % 256 == length % 1024
  {
  }

  /** Decoding gives back what was sent, whatever follows the message in the buffer, and for every
      payload; a message is read as soon as as many bytes have arrived as it declares. */
  lemma DecodeFrame(r: Response, payload: seq<bv8>, cmdSet: bv8, cmdId: bv8, tail: seq<bv8>, length: nat)
    requires r.Valid()
    requires length <= FRAME_OVERHEAD + |payload| + |tail|
    ensures var buffer := Frame(r, payload, cmdSet, cmdId) + tail;
            var request := Decode(buffer, length);
            && (request.Some? <==> length >= 4 && length >= (FRAME_OVERHEAD + |payload|) % 1024)
            && (request.Some? ==>
                  && request.value == Request(cmdSet, cmdId, r.seqId, r.Attri(), r.sender, r.receiver,
                                              buffer[HEADER_SIZE..])
                  && payload <= request.value.payload)
  {
    hide Register8, Register16, LittleEndian, LowOf, HighOf, WordOf, HeaderAccepted, DeclaredLength,
         Response.Attri;
    FrameHeaderAccepted(r, payload, cmdSet, cmdId, tail);
    WordRoundTrip(r.seqId);
    var header := Header(r, FRAME_OVERHEAD + |payload|, cmdSet, cmdId);
    var rest := LittleEndian(Register16(INITIAL_16, Body(r, payload, cmdSet, cmdId))) + tail;
    var buffer := Frame(r, payload, cmdSet, cmdId) + tail;
    assert buffer == header + (payload + rest);
    assert buffer[HEADER_SIZE..] == payload + rest;
  }

  /** A message whose last bytes are missing is refused, whatever is missing, exactly when its
      payload has at most 1010 bytes: beyond that the ten length bits wrap around. */
  lemma TruncationRefusedIff(r: Response, payload: seq<bv8>, cmdSet: bv8, cmdId: bv8)
    requires r.Valid()
    ensures (forall length: nat :: length < FRAME_OVERHEAD + |payload| ==>
               Decode(Frame(r, payload, cmdSet, cmdId), length).None?)
            <==> |payload| <= 1010
  {
    hide Frame, Decode;
    var frame := Frame(r, payload, cmdSet, cmdId);
    assert frame + [] == frame;
    var size := FRAME_OVERHEAD + |payload|;
    forall length: nat | length < size
      ensures Decode(frame, length).None? <==> length < 4 || length < size % 1024
    {
      DecodeFrame(r, payload, cmdSet, cmdId, [], length);
    }
    if size >= 1024 {
      assert !Decode(frame, size - 1).None?;
    }
  }

  /** A payload of 1011 bytes makes a message that declares length zero: four bytes of it are enough. */
  lemma ShortReadAccepted() returns (r: Response, payload: seq<bv8>)
    ensures r.Valid() && |payload| == 1011 && Decode(Frame(r, payload, 0, 0), 4).Some?
  {
    hide Frame, Decode;
    r := Response(false, 0, 0, 0, false);
    payload := seq(1011, _ => 0);
    assert Frame(r, payload, 0, 0) + [] == Frame(r, payload, 0, 0);
    DecodeFrame(r, payload, 0, 0, [], 4);
  }

  /** Changing any one of the first four bytes makes the receiver refuse the message. */
  lemma HeaderCorruptionRefused(r: Response, payload: seq<bv8>, cmdSet: bv8, cmdId: bv8, tail: seq<bv8>,
                                altered: seq<bv8>, k: nat, length: nat)
    requires r.Valid() && k < 4
    requires |altered| == FRAME_OVERHEAD + |payload| + |tail| && length <= |altered|
    requires var buffer := Frame(r, payload, cmdSet, cmdId) + tail;
             altered[k] != buffer[k] && forall i :: 0 <= i < 4 && i != k ==> altered[i] == buffer[i]
    ensures Decode(altered, length) == None
  {
    hide Register8, Register16, LittleEndian, LowOf, HighOf, LengthHigh, Frame, DeclaredLength;
    var buffer := Frame(r, payload, cmdSet, cmdId) + tail;
    FrameHeaderAccepted(r, payload, cmdSet, cmdId, tail);
    if k == 3 {
      assert altered[..3] == buffer[..3];
    } else {
      SingleByteDetected8(INITIAL_8, buffer[..3], altered[..3], k);
    }
  }

  /** Only the first four bytes and the number of bytes decide whether a message is accepted: the
      receiver never looks at the trailing checksum. */
  lemma AcceptanceIgnoresBody(a: seq<bv8>, b: seq<bv8>, length: nat)
    requires HEADER_SIZE <= |a| && HEADER_SIZE <= |b| && length <= |a| && length <= |b|
    requires a[..4] == b[..4]
    ensures Decode(a, length).Some? <==> Decode(b, length).Some?
  {
    hide Register8;
    assert a[..3] == a[..4][..3] == b[..4][..3] == b[..3];
    assert forall i :: 0 <= i < 4 ==> a[i] == a[..4][i] == b[..4][i] == b[i];
  }

  /** A receiver that does check the trailing checksum finds a zero register on every message... */
  lemma FrameResidue(r: Response, payload: seq<bv8>, cmdSet: bv8, cmdId: bv8)
    requires r.Valid()
    ensures Register16(INITIAL_16, Frame(r, payload, cmdSet, cmdId)) == 0
  {
    hide Register16, LowByte, HighByte, Body;
    var body := Body(r, payload, cmdSet, cmdId);
    var crc := Register16(INITIAL_16, body);
    ResidueIsZero(INITIAL_16, body, LowByte(crc), HighByte(crc));
  }

  /** ... and a nonzero one when one byte, or two neighbouring bytes, have changed. */
  lemma FrameCorruptionDetected(r: Response, payload: seq<bv8>, cmdSet: bv8, cmdId: bv8,
                                altered: seq<bv8>, k: nat)
    requires r.Valid()
    requires var frame := Frame(r, payload, cmdSet, cmdId);
             && |altered| == |frame| && altered != frame && k + 1 < |frame|
             && forall i :: 0 <= i < |frame| && i != k && i != k + 1 ==> altered[i] == frame[i]
    ensures Register16(INITIAL_16, altered) != 0
  {
    hide Register16, Frame;
    FrameResidue(r, payload, cmdSet, cmdId);
    BurstDetected16(INITIAL_16, altered, Frame(r, payload, cmdSet, cmdId), k);
  }

  /** The same holds of changes within sixteen consecutive bits, and of changes of an odd number of bits. */
  lemma FrameAlterationDetected(r: Response, payload: seq<bv8>, cmdSet: bv8, cmdId: bv8, altered: seq<bv8>)
    requires r.Valid() && altered != Frame(r, payload, cmdSet, cmdId)
    requires |altered| == FRAME_OVERHEAD + |payload|
    requires || WithinSixteenBits(altered, Frame(r, payload, cmdSet, cmdId))
             || CountAltered(altered, Frame(r, payload, cmdSet, cmdId)) % 2 == 1
    ensures Register16(INITIAL_16, altered) != 0
  {
    hide Register16, Frame, CountAltered, Burst;
    var frame := Frame(r, payload, cmdSet, cmdId);
    FrameResidue(r, payload, cmdSet, cmdId);
    if CountAltered(altered, frame) % 2 == 1 {
      OddChangeDetected16(INITIAL_16, altered, frame);
    } else {
      var i: nat, j: nat :| Burst(BitsOf(altered), BitsOf(frame), i, j);
      BitBurstDetected16(INITIAL_16, altered, frame, i, j);
    }
  }

  lemma AckBits(attri: bv8)
    ensures (attri & 0x60) >> 5 != 0 <==> attri & 0x60 != 0
  {
  }

  /** The reply to a request travels back: the other side decodes its own address as receiver, the
      request's sequence number, the acknowledge bit exactly when it asked for one, by either of its two bits, and
      the bit that asks for one otherwise. */
  lemma ReplyReachesSender(request: Request, payload: seq<bv8>, tail: seq<bv8>)
    requires request.seqId < 0x1_0000
    ensures var reply := request.Reply();
            var buffer := Frame(reply, payload, request.cmdSet, request.cmdId) + tail;
            var got := Decode(buffer, |buffer|);
            && got.Some?
            && got.value.receiver == request.sender && got.value.sender == request.receiver
            && got.value.seqId == request.seqId
            && (got.value.attri & 0x80 != 0 <==> request.attri & 0x60 != 0)
            && (got.value.attri & 0x20 != 0 <==> request.attri & 0x60 == 0)
            && (got.value.NeedAck() <==> !request.NeedAck())
  {
    AckBits(request.attri);
    hide Frame, Decode;
    DecodeFrame(request.Reply(), payload, request.cmdSet, request.cmdId, tail,
                FRAME_OVERHEAD + |payload| + |tail|);
  }
}
