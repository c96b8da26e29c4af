/** Messages as bytes, and the three kinds of frame a session exchanges. */
module Frames {
  import opened Bytes
  import Codec

  const PING_TYPE := 1
  const PONG_TYPE := 2
  const MAX_PACKET_ID := 17
  const MAX_PACKET_SIZE := 0x8000

  /** Ids, and the sums formed from them, stay inside 64 bits below this bound. */
  const ID_LIMIT := 0x8000_0000_0000_0000

  /** A message as it is copied between queues: the type and size of its header, and its body. */
  datatype Message = Message(kind: nat, size: nat, body: seq<Byte>)

  /** `Data` carries a user's message under its number; the flag that asks for an answer is always set on it. */
  datatype Frame = Ping | Pong(id: nat) | Data(msg: Message, id: nat)

  function WithBody(kind: nat, body: seq<Byte>): Message {
    Message(kind, |body| % U32_LIMIT, body)
  }

  function PushFixed(m: Message, bytes: seq<Byte>): Message {
    WithBody(m.kind, Codec.Push(m.body, Codec.Fixed(bytes)))
  }

  function BoolByte(b: bool): Byte {
    if b then 1 else 0
  }

  function Encode(f: Frame): Message {
    match f
    case Ping => PushFixed(Message(PING_TYPE, 0, []), [BoolByte(false)])
    case Pong(id) => PushFixed(PushFixed(Message(PONG_TYPE, 0, []), LeBytes(id, 8)), [BoolByte(false)])
    case Data(m, id) => PushFixed(PushFixed(m, LeBytes(id, 8)), [BoolByte(true)])
  }

  /** What the reader makes of a message: the flag, then for all but pings the id, come off the end.
      `None` stands for a read below the start of the body, or a user's message without the flag. */
  function Decode(m: Message): Option<Frame> {
    var n := |m.body|;
    if n < 1 then None
    else if m.kind == PING_TYPE then Some(Ping)
    else if n < 9 then None
    else
      var id := LeValue(m.body[n - 9..n - 1]);
      if m.kind == PONG_TYPE then Some(Pong(id))
      else if m.body[n - 1] == 0 then None
      else Some(Data(WithBody(m.kind, m.body[..n - 9]), id))
  }

  /** A message a user of the session may send: sized by the codec, and not of a type the session reserves. */
  predicate Sendable(m: Message) {
    m.size == |m.body| && m.kind != PING_TYPE && m.kind != PONG_TYPE
  }

  /** The reader accepts a header of a known type and of a bounded size, and a body of exactly that size. */
  predicate Acceptable(m: Message) {
    m.kind <= MAX_PACKET_ID && m.size <= MAX_PACKET_SIZE && m.size == |m.body|
  }

  /** The frame of the message passes the reader. */
  predicate Fits(m: Message) {
    m.kind <= MAX_PACKET_ID && |m.body| + 9 <= MAX_PACKET_SIZE
  }

  predicate WellFormed(f: Frame) {
    match f
    case Ping => true
    case Pong(id) => id < U64_LIMIT
    case Data(m, id) => id < U64_LIMIT && Sendable(m) && m.size + 9 < U32_LIMIT
  }

  /** The last nine bytes of a numbered frame. */
  lemma TrailerParts(base: seq<Byte>, id: nat, flag: bool)
    requires id < U64_LIMIT
    ensures var body := base + LeBytes(id, 8) + [BoolByte(flag)];
            && |body| == |base| + 9 && body[..|body| - 9] == base
            && LeValue(body[|body| - 9..|body| - 1]) == id && body[|body| - 1] == BoolByte(flag)
  {
    var body := base + LeBytes(id, 8) + [BoolByte(flag)];
    assert body[|body| - 9..|body| - 1] == LeBytes(id, 8);
    U64RoundTrip(id);
  }

  /** The reader recovers every frame the session writes, type, id and message. */
  lemma FrameRoundTrip(f: Frame)
    requires WellFormed(f)
    ensures Decode(Encode(f)) == Some(f)
  {
    match f
    case Ping =>
    case Pong(id) => PongRoundTrip(id);
    case Data(m, id) => DataRoundTrip(m, id);
  }

  lemma PongRoundTrip(id: nat)
    requires id < U64_LIMIT
    ensures Decode(Encode(Pong(id))) == Some(Pong(id))
  {
    TrailerParts([], id, false);
  }

  lemma EncodesAs(m: Message, id: nat, body: seq<Byte>)
    requires body == m.body + LeBytes(id, 8) + [BoolByte(true)]
    ensures Encode(Data(m, id)) == WithBody(m.kind, body)
  {
  }

  lemma DataRoundTrip(m: Message, id: nat)
    requires WellFormed(Data(m, id))
    ensures Decode(Encode(Data(m, id))) == Some(Data(m, id))
  {
    TrailerParts(m.body, id, true);
    var body := m.body + LeBytes(id, 8) + [BoolByte(true)];
    EncodesAs(m, id, body);
    hide LeBytes, LeValue, Encode;
  }

  function FrameSize(f: Frame): nat {
    match f
    case Ping => 1
    case Pong(_) => 9
    case Data(m, _) => |m.body| + 9
  }

  lemma EncodedSize(f: Frame)
    ensures |Encode(f).body| == FrameSize(f) && Encode(f).size == FrameSize(f) % U32_LIMIT
  {
  }

  /** Which frames pass the reader's header and length checks. */
  lemma AcceptsFrame(f: Frame)
    requires WellFormed(f)
    ensures Acceptable(Encode(f)) <==> (f.Data? ==> Fits(f.msg))
  {
    EncodedSize(f);
    assert Encode(f).kind == if f.Ping? then PING_TYPE else if f.Pong? then PONG_TYPE else f.msg.kind;
  }

  /** The bounds of the reader: a user's message may have up to 32759 bytes, and a type up to 17. */
  lemma FitsUpTo(m: Message)
    ensures Fits(m) <==> m.kind <= 17 && |m.body| <= 32759
  {
  }

  /** A ping is one byte under type 1, an acknowledgement nine under type 2, and a message nine more than it was; the byte
      at the end says whether an answer is asked for. */
  lemma FrameBytes(m: Message, id: nat)
    ensures Encode(Ping) == Message(1, 1, [0])
    ensures Encode(Pong(id)) == Message(2, 9, LeBytes(id, 8) + [0])
    ensures Encode(Data(m, id)).kind == m.kind && Encode(Data(m, id)).body == m.body + LeBytes(id, 8) + [1]
  {
    assert [] + LeBytes(id, 8) == LeBytes(id, 8);
    hide LeBytes;
  }

  /** Reading fails on a message with too few bytes for its type, and on a user's message without the flag. */
  lemma DecodeFails(m: Message)
    ensures Decode(m).None? <==>
              || |m.body| < 1
              || (m.kind != 1 && |m.body| < 9)
              || (m.kind != 1 && m.kind != 2 && m.body[|m.body| - 1] == 0)
  {
    hide LeValue;
  }
}
