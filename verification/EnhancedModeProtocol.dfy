/**
  The control frame of the agent pipe: one control byte followed by a 64-bit request identifier in
  little-endian order (src/app/enhanced/EnhancedModeProtocol.h).
 */
module EnhancedModeProtocol {
  import opened Options

  type Byte = x: int | 0 <= x < 256

  /** A frame is a fixed array of nine bytes. */
  type Frame = f: seq<Byte> | |f| == 9 witness [0, 0, 0, 0, 0, 0, 0, 0, 0]

  datatype Control = PreshutdownCommitHandled | PreshutdownCommitRequired

  datatype Message = Message(control: Control, requestId: nat)

  const REQUEST_ID_LIMIT: nat := 0x1_0000_0000_0000_0000

  function ControlByte(control: Control): Byte {
    match control
    case PreshutdownCommitHandled => 1
    case PreshutdownCommitRequired => 2
  }

  /** The value of `bytes`, least significant byte first. */
  function LittleEndian(bytes: seq<Byte>): nat {
    if bytes == [] then 0 else bytes[0] + 256 * LittleEndian(bytes[1..])
  }

  /** The `count` least significant bytes of `value`, least significant first. */
  function LittleEndianBytes(value: nat, count: nat): (bytes: seq<Byte>)
    ensures |bytes| == count
  {
    if count == 0 then [] else [value % 256] + LittleEndianBytes(value / 256, count - 1)
  }

  /** The source throws for an identifier of zero; both of its controls are valid here by typing. */
  function Encode(message: Message): Option<Frame>
    requires message.requestId < REQUEST_ID_LIMIT
  {
    if message.requestId == 0 then None
    else Some([ControlByte(message.control)] + LittleEndianBytes(message.requestId, 8))
  }

  function Decode(frame: Frame): Option<Message> {
    if frame[0] != 1 && frame[0] != 2 then None
    else
      var requestId := LittleEndian(frame[1..]);
      if requestId == 0 then None
      else Some(Message(if frame[0] == 1 then PreshutdownCommitHandled else PreshutdownCommitRequired, requestId))
  }

  function Power256(n: nat): nat {
    if n == 0 then 1 else 256 * Power256(n - 1)
  }

  lemma {:induction false} LittleEndianBound(bytes: seq<Byte>)
    ensures LittleEndian(bytes) < Power256(|bytes|)
  {
    if bytes != [] {
      LittleEndianBound(bytes[1..]);
    }
  }

  lemma SplitByte(low: Byte, rest: nat)
    ensures (low + 256 * rest) % 256 == low && (low + 256 * rest) / 256 == rest
  {
  }

  lemma {:induction false} BytesOfLittleEndian(bytes: seq<Byte>)
    ensures LittleEndianBytes(LittleEndian(bytes), |bytes|) == bytes
  {
    if bytes != [] {
      BytesOfLittleEndian(bytes[1..]);
      SplitByte(bytes[0], LittleEndian(bytes[1..]));
      assert bytes == [bytes[0]] + bytes[1..];
    }
  }

  lemma {:induction false} LittleEndianOfBytes(value: nat, count: nat)
    requires value < Power256(count)
    ensures LittleEndian(LittleEndianBytes(value, count)) == value
  {
    if count > 0 {
      LittleEndianOfBytes(value / 256, count - 1);
      assert LittleEndianBytes(value, count)[1..] == LittleEndianBytes(value / 256, count - 1);
    }
  }

  lemma EightBytes()
    ensures Power256(8) == REQUEST_ID_LIMIT
  {
    assert Power256(4) == 0x1_0000_0000;
    assert Power256(8) == 256 * (256 * (256 * (256 * Power256(4))));
  }

  /**
    Decoding accepts exactly the encodings of valid messages: a frame decodes to a message if and
    only if it is that message's one encoding. So an echoed frame names its request without ambiguity.
   */
  lemma DecodeExactlyEncodings(frame: Frame, message: Message)
    requires message.requestId < REQUEST_ID_LIMIT
    ensures Decode(frame) == Some(message) <==> Encode(message) == Some(frame)
  {
    EightBytes();
    if Decode(frame) == Some(message) {
      BytesOfLittleEndian(frame[1..]);
      assert frame == [frame[0]] + frame[1..];
    }
    if Encode(message) == Some(frame) {
      LittleEndianOfBytes(message.requestId, 8);
      assert frame[1..] == LittleEndianBytes(message.requestId, 8);
    }
  }

  /** Every decoded identifier fits the 64-bit field, so the previous lemma covers every decoded frame. */
  lemma DecodedFits(frame: Frame)
    ensures Decode(frame).Some? ==> 0 < Decode(frame).value.requestId < REQUEST_ID_LIMIT
  {
    EightBytes();
    LittleEndianBound(frame[1..]);
  }

  function Value32(b0: int, b1: int, b2: int, b3: int): int {
    b0 + 0x100 * b1 + 0x1_0000 * b2 + 0x100_0000 * b3
  }

  /** The value of eight bytes, the first of them the least significant. */
  function Value64(b: seq<Byte>): nat
    requires |b| == 8
  {
    Value32(b[0], b[1], b[2], b[3]) + 0x1_0000_0000 * Value32(b[4], b[5], b[6], b[7])
  }

  lemma FourBytes(b: seq<Byte>)
    requires |b| >= 4
    ensures LittleEndian(b) == Value32(b[0], b[1], b[2], b[3]) + 0x1_0000_0000 * LittleEndian(b[4..])
  {
    assert b[1..][1..] == b[2..] && b[2..][1..] == b[3..] && b[3..][1..] == b[4..];
    assert LittleEndian(b) == b[0] + 256 * LittleEndian(b[1..]);
    assert LittleEndian(b[1..]) == b[1] + 256 * LittleEndian(b[2..]);
    assert LittleEndian(b[2..]) == b[2] + 256 * LittleEndian(b[3..]);
    assert LittleEndian(b[3..]) == b[3] + 256 * LittleEndian(b[4..]);
  }

  lemma EightBytesValue(b: seq<Byte>)
    requires |b| == 8
    ensures LittleEndian(b) == Value64(b)
  {
    FourBytes(b);
    FourBytes(b[4..]);
    assert LittleEndian(b[4..][4..]) == 0;
  }

  /**
    The frame byte by byte: 1 says that the commit was handled, 2 that it is required, any other first byte and a zero
    identifier are invalid, and the identifier follows with its least significant byte first.
   */
  lemma DecodeSpelledOut(frame: Frame)
    ensures Decode(frame)
         == if Value64(frame[1..]) == 0 then None
            else if frame[0] == 1 then Some(Message(PreshutdownCommitHandled, Value64(frame[1..])))
            else if frame[0] == 2 then Some(Message(PreshutdownCommitRequired, Value64(frame[1..])))
            else None
  {
    EightBytesValue(frame[1..]);
  }
}
