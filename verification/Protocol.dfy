/** One end of a reliable session: its state and, handler by handler, the state each handler leaves behind. */
module Protocol {
  import opened Bytes
  import opened Frames

  /** Keys of the reorder buffer are 16 bits wide. */
  const SLOTS := 0x1_0000

  /** A frame travels as two datagrams. */
  datatype Datagram = HeaderOf(frame: Frame) | BodyOf(frame: Frame)

  datatype Phase = Idle | HeaderOut | BodyOut

  /** The sending half: the queue, the write in progress, and the window of unacknowledged messages.
      `accepted` is the history of the messages given to `Send`. */
  datatype Outbox = Outbox(
    queueOut: seq<Frame>,
    tempOut: Frame,
    phase: Phase,
    latest: seq<Frame>,
    lastSentId: nat,
    currentId: nat,
    accepted: seq<Message>)

  /** The receiving half: the last delivered id, the reorder buffer, and what has been delivered. */
  datatype Inbox = Inbox(lastGotId: nat, future: map<nat, Message>, queueIn: seq<Message>)

  /** Histories of the socket: every datagram written, and the frames completely written. */
  datatype Socket = Socket(wire: seq<Datagram>, frames: seq<Frame>)

  /** Acknowledgements that wait for the write in progress. */
  datatype Acks = Acks(shouldPong: bool, maxPong: nat)

  /** `broken` records that a handler left defined behaviour by popping an empty window. */
  datatype Endpoint = Endpoint(
    outbox: Outbox,
    inbox: Inbox,
    acks: Acks,
    socket: Socket,
    shouldPing: bool,
    connected: bool,
    broken: bool)

  const INITIAL :=
    Endpoint(Outbox([], Ping, Idle, [], 0, 0, []), Inbox(0, map[], []), Acks(false, 0), Socket([], []),
             false, false, false)

  function Max(x: nat, y: nat): nat {
    if x < y then y else x
  }

  function WriteFrame(s: Socket, f: Frame): Socket {
    Socket(s.wire + [HeaderOf(f), BodyOf(f)], s.frames + [f])
  }

  function SendPing(e: Endpoint): Endpoint {
    if e.outbox.phase.Idle? then e.(socket := WriteFrame(e.socket, Ping), shouldPing := false)
    else e.(shouldPing := true)
  }

  function SendPong(e: Endpoint, id: nat): Endpoint {
    e.(socket := WriteFrame(e.socket, Pong(id)), acks := e.acks.(shouldPong := false))
  }

  function TryPong(e: Endpoint, id: nat): Endpoint {
    if e.outbox.phase.Idle? then SendPong(e, Max(id, e.acks.maxPong))
    else e.(acks := Acks(true, Max(id, e.acks.maxPong)))
  }

  function TakeFirst(o: Outbox): Outbox
    requires o.queueOut != []
  {
    o.(phase := HeaderOut, tempOut := o.queueOut[0], queueOut := o.queueOut[1..])
  }

  function WriteHeader(e: Endpoint): Endpoint
    requires e.outbox.queueOut != []
  {
    e.(outbox := TakeFirst(e.outbox),
       socket := e.socket.(wire := e.socket.wire + [HeaderOf(e.outbox.queueOut[0])]))
  }

  function Enqueue(o: Outbox, m: Message): Outbox {
    o.(currentId := o.currentId + 1,
       queueOut := o.queueOut + [Data(m, o.currentId + 1)],
       accepted := o.accepted + [m])
  }

  function Send(e: Endpoint, m: Message): Endpoint {
    var queued := e.(outbox := Enqueue(e.outbox, m));
    if e.outbox.phase.Idle? && e.connected then WriteHeader(queued) else queued
  }

  /** The header is out, and the body follows it. */
  function WriteBody(e: Endpoint): Endpoint {
    e.(outbox := e.outbox.(phase := BodyOut),
       socket := e.socket.(wire := e.socket.wire + [BodyOf(e.outbox.tempOut)]))
  }

  /** A message not written before joins the window of unacknowledged messages. */
  function Written(o: Outbox): Outbox
    requires o.tempOut.Data?
  {
    if o.tempOut.id == o.lastSentId + 1 then
      o.(phase := Idle, lastSentId := o.lastSentId + 1, latest := o.latest + [o.tempOut])
    else o.(phase := Idle)
  }

  function EndOfWriting(e: Endpoint): Endpoint
    requires e.outbox.tempOut.Data?
  {
    var done := e.(outbox := Written(e.outbox),
                   socket := e.socket.(frames := e.socket.frames + [e.outbox.tempOut]));
    if e.acks.shouldPong then SendPong(done, e.acks.maxPong) else done
  }

  /** Drops the front of the window until it holds no more than the ids above `pongId`. */
  function Trim(latest: seq<Frame>, pongId: nat, lastSentId: nat): seq<Frame>
    requires pongId <= lastSentId
  {
    if pongId + |latest| > lastSentId then Trim(latest[1..], pongId, lastSentId) else latest
  }

  /** Delivers from the reorder buffer for as long as the next id is there. */
  function Drain(b: Inbox): (drained: Inbox)
    ensures b.lastGotId <= drained.lastGotId
    decreases |b.future|
  {
    var slot := (b.lastGotId + 1) % SLOTS;
    if slot in b.future then
      Drain(Inbox(b.lastGotId + 1, b.future - {slot}, b.queueIn + [b.future[slot]]))
    else b
  }

  function Insert(b: Inbox, id: nat, m: Message): Inbox {
    if id >= b.lastGotId + 1 then b.(future := b.future[id % SLOTS := m]) else b
  }

  /** A numbered message is delivered as far as ids go on; it is answered if it asks for that, and a drain of several
      ids is acknowledged in any case. */
  function ReadMessage(e: Endpoint, id: nat, m: Message, shouldAnswer: bool): Endpoint {
    var answered := if shouldAnswer && id <= e.inbox.lastGotId + 1 then TryPong(e, id) else e;
    var inbox := Drain(Insert(e.inbox, id, m));
    var drained := answered.(inbox := inbox);
    if (inbox.lastGotId - e.inbox.lastGotId) % U16_LIMIT > 1 then TryPong(drained, inbox.lastGotId) else drained
  }

  /** Messages of `Send` always ask for an answer. */
  function ReadData(e: Endpoint, id: nat, m: Message): Endpoint {
    ReadMessage(e, id, m, true)
  }

  function ReadPong(e: Endpoint, id: nat): Endpoint {
    if id > e.outbox.lastSentId then e.(broken := true)
    else e.(outbox := e.outbox.(latest := Trim(e.outbox.latest, id, e.outbox.lastSentId)))
  }

  function Flush(e: Endpoint): Endpoint {
    var flushed := if e.outbox.phase.Idle? && e.acks.shouldPong then SendPong(e, e.acks.maxPong) else e;
    if e.outbox.phase.Idle? && e.outbox.queueOut != [] then WriteHeader(flushed) else flushed
  }

  function EndOfReading(e: Endpoint, f: Frame): Endpoint {
    var up := e.(connected := true);
    match f
    case Ping => Flush(up)
    case Pong(id) => Flush(ReadPong(up, id))
    case Data(m, id) => Flush(ReadData(up, id, m))
  }

  function Receive(e: Endpoint, f: Frame): Endpoint {
    if f.Data? && !Fits(f.msg) then e else EndOfReading(e, f)
  }

  /** The repeat timer requeues the front of the window. */
  function RepeatFront(e: Endpoint): Endpoint {
    if e.connected && e.outbox.latest != [] then
      e.(outbox := e.outbox.(queueOut := [e.outbox.latest[0]] + e.outbox.queueOut))
    else e
  }

  function PingTick(e: Endpoint): Endpoint {
    if e.outbox.queueOut == [] || !e.connected then SendPing(e) else e
  }
}
