/**
 * Two endpoints joined by a network that may lose, duplicate and reorder whole frames: what every step of
 * every run keeps.
 */
module SessionSafety {
  import opened Bytes
  import opened Frames
  import opened Protocol

  /** The network holds every frame ever written: receiving any of them, any number of times, in any order,
      covers loss, duplication and reordering. */
  datatype System = System(a: Endpoint, b: Endpoint)

  datatype Action =
    | DoSend(m: Message)
    | DoHeaderWritten
    | DoBodyWritten
    | DoReceive(f: Frame)
    | DoRepeat
    | DoPing

  predicate Acts(e: Endpoint, peer: Endpoint, act: Action, e': Endpoint) {
    match act
    case DoSend(m) => Sendable(m) && e.outbox.currentId + 1 < ID_LIMIT && e' == Send(e, m)
    case DoHeaderWritten => e.outbox.phase.HeaderOut? && e' == WriteBody(e)
    case DoBodyWritten => e.outbox.phase.BodyOut? && e.outbox.tempOut.Data? && e' == EndOfWriting(e)
    case DoReceive(f) => f in peer.socket.frames && e' == Receive(e, f)
    case DoRepeat => e' == RepeatFront(e)
    case DoPing => e' == PingTick(e)
  }

  predicate StepBy(s: System, s': System, act: Action) {
    || (s'.b == s.b && Acts(s.a, s.b, act, s'.a))
    || (s'.a == s.a && Acts(s.b, s.a, act, s'.b))
  }

  ghost predicate Step(s: System, s': System) {
    exists act :: StepBy(s, s', act)
  }

  ghost predicate StepAt(run: seq<System>, i: nat)
    requires i + 1 < |run|
  {
    Step(run[i], run[i + 1])
  }

  ghost predicate IsRun(run: seq<System>) {
    && run != []
    && run[0] == System(INITIAL, INITIAL)
    && forall i | 0 <= i < |run| - 1 :: StepAt(run, i)
  }

  /** Slots name ids unambiguously: nothing written is more than `SLOTS` ids ahead of what the peer has delivered. */
  predicate Windowed(s: System) {
    && s.a.outbox.lastSentId <= s.b.inbox.lastGotId + SLOTS
    && s.b.outbox.lastSentId <= s.a.inbox.lastGotId + SLOTS
  }

  // ---------------------------------------------------------------- invariant

  function AckedBase(o: Outbox): int {
    o.lastSentId - |o.latest|
  }

  /** The frame carries one of the sent messages under the number of that message. */
  predicate Genuine(f: Frame, sent: seq<Message>) {
    f.Data? && 1 <= f.id <= |sent| && f.msg == sent[f.id - 1]
  }

  /** A frame that may be on its way: pongs acknowledge only delivered ids, and data has been written before. */
  predicate FrameOk(f: Frame, o: Outbox, got: nat) {
    match f
    case Ping => true
    case Pong(id) => id <= got
    case Data(_, id) => Genuine(f, o.accepted) && id <= o.lastSentId
  }

  function Flatten(frames: seq<Frame>): seq<Datagram> {
    if frames == [] then []
    else Flatten(frames[..|frames| - 1]) + [HeaderOf(frames[|frames| - 1]), BodyOf(frames[|frames| - 1])]
  }

  function OpenDatagrams(o: Outbox): seq<Datagram> {
    match o.phase
    case Idle => []
    case HeaderOut => [HeaderOf(o.tempOut)]
    case BodyOut => [HeaderOf(o.tempOut), BodyOf(o.tempOut)]
  }

  /** The datagrams written are complete header-body pairs, and at most one open frame, that of the write in
      progress. */
  predicate Framed(e: Endpoint) {
    e.socket.wire == Flatten(e.socket.frames) + OpenDatagrams(e.outbox)
  }

  predicate AcksOk(e: Endpoint) {
    && (e.acks.shouldPong ==> !e.outbox.phase.Idle?)
    && e.acks.maxPong <= e.inbox.lastGotId
  }

  predicate FramesOk(e: Endpoint) {
    forall f <- e.socket.frames :: FrameOk(f, e.outbox, e.inbox.lastGotId)
  }

  function Pending(o: Outbox): seq<Frame> {
    (if o.phase.Idle? then [] else [o.tempOut]) + o.queueOut
  }

  /** Retransmissions (ids up to `lo`) interleaved with exactly the ids `next`..`last` in order. */
  predicate InOrder(q: seq<Frame>, lo: nat, next: nat, last: nat) {
    if q == [] then next == last + 1
    else
      && q[0].Data?
      && if q[0].id <= lo then InOrder(q[1..], lo, next, last)
         else q[0].id == next && InOrder(q[1..], lo, next + 1, last)
  }

  /** The sending half, given how far the peer has delivered. */
  predicate Outgoing(o: Outbox, peerGot: nat) {
    && 0 <= AckedBase(o) <= peerGot <= o.lastSentId <= o.currentId == |o.accepted| < ID_LIMIT
    && (forall m <- o.accepted :: Sendable(m))
    && WindowOk(o)
    && QueueOk(o)
  }

  /** The window holds exactly the ids after the acknowledged ones, up to the last written one, in order. */
  predicate WindowOk(o: Outbox)
    requires 0 <= AckedBase(o) && o.lastSentId <= |o.accepted|
  {
    forall i | 0 <= i < |o.latest| ::
      o.latest[i] == Data(o.accepted[AckedBase(o) + i], AckedBase(o) + i + 1)
  }

  predicate QueueOk(o: Outbox) {
    && (forall f <- Pending(o) :: Genuine(f, o.accepted))
    && InOrder(Pending(o), o.lastSentId, o.lastSentId + 1, o.currentId)
  }

  /** The id a slot stands for when `got` is the last delivered id. */
  function Unwrap(slot: nat, got: nat): nat
    requires slot < SLOTS
  {
    got + 1 + (slot - got - 1) % SLOTS
  }

  predicate Buffered(future: map<nat, Message>, got: nat, sent: seq<Message>, limit: nat) {
    forall slot <- future ::
      && slot < SLOTS
      && Unwrap(slot, got) <= limit <= |sent|
      && future[slot] == sent[Unwrap(slot, got) - 1]
      && Fits(future[slot])
  }

  /** Delivered: the messages the peer was asked to send, in order, up to the last delivered id. */
  predicate Prefix(b: Inbox, sent: seq<Message>, written: nat) {
    && b.lastGotId <= written <= |sent|
    && b.queueIn == sent[..b.lastGotId]
    && (forall m <- b.queueIn :: Fits(m))
    && Buffered(b.future, b.lastGotId, sent, written)
  }

  /** The receiving half between handlers, given what the peer was asked to send and has written. */
  predicate Incoming(b: Inbox, sent: seq<Message>, written: nat) {
    Prefix(b, sent, written) && (b.lastGotId + 1) % SLOTS !in b.future
  }

  predicate Directed(x: Endpoint, y: Endpoint) {
    Outgoing(x.outbox, y.inbox.lastGotId) && Incoming(y.inbox, x.outbox.accepted, x.outbox.lastSentId)
  }

  /** What holds of one endpoint by itself. */
  predicate Local(e: Endpoint) {
    !e.broken && AcksOk(e) && FramesOk(e) && Framed(e)
  }

  predicate Inv(s: System) {
    Local(s.a) && Local(s.b) && Directed(s.a, s.b) && Directed(s.b, s.a)
  }

  // ---------------------------------------------------------------- frames and the wire

  lemma FlattenAppend(frames: seq<Frame>, f: Frame)
    ensures Flatten(frames + [f]) == Flatten(frames) + [HeaderOf(f), BodyOf(f)]
  {
    assert (frames + [f])[..|frames|] == frames;
  }

  /** Acknowledging a delivered id between two messages. */
  lemma PongKeeps(e: Endpoint, id: nat)
    requires Local(e) && e.outbox.phase.Idle? && id <= e.inbox.lastGotId
    ensures Local(SendPong(e, id))
  {
    FlattenAppend(e.socket.frames, Pong(id));
    assert e.socket.wire == Flatten(e.socket.frames);
  }

  lemma PingKeeps(e: Endpoint)
    requires Local(e)
    ensures Local(SendPing(e))
  {
    FlattenAppend(e.socket.frames, Ping);
    assert e.outbox.phase.Idle? ==> e.socket.wire == Flatten(e.socket.frames);
  }

  lemma TryPongKeeps(e: Endpoint, id: nat)
    requires Local(e) && id <= e.inbox.lastGotId
    ensures Local(TryPong(e, id))
  {
    if e.outbox.phase.Idle? {
      PongKeeps(e, Max(id, e.acks.maxPong));
    }
  }

  // ---------------------------------------------------------------- the reorder buffer

  lemma UnwrapOwn(id: nat, got: nat)
    requires got + 1 <= id <= got + SLOTS
    ensures Unwrap(id % SLOTS, got) == id
  {
    var k := id / SLOTS;
    assert id % SLOTS - got - 1 == (id - got - 1) - k * SLOTS;
    assert (id % SLOTS - got - 1) % SLOTS == (id - got - 1) % SLOTS;
  }

  lemma UnwrapSlot(slot: nat, got: nat)
    requires slot < SLOTS
    ensures got + 1 <= Unwrap(slot, got) <= got + SLOTS && Unwrap(slot, got) % SLOTS == slot
  {
    var d := slot - got - 1;
    var k := d / SLOTS;
    assert d == k * SLOTS + d % SLOTS;
    assert Unwrap(slot, got) == slot - k * SLOTS;
  }

  lemma UnwrapNext(slot: nat, got: nat)
    requires slot < SLOTS && slot != (got + 1) % SLOTS
    ensures Unwrap(slot, got + 1) == Unwrap(slot, got)
  {
    UnwrapSlot(slot, got);
    var id := Unwrap(slot, got);
    assert id != got + 1;
    UnwrapOwn(id, got + 1);
  }

  /** Delivering the next id leaves the other slots standing for the same ids. */
  lemma DeliverOne(b: Inbox, sent: seq<Message>, written: nat)
    requires Prefix(b, sent, written) && (b.lastGotId + 1) % SLOTS in b.future
    ensures var slot := (b.lastGotId + 1) % SLOTS;
            Prefix(Inbox(b.lastGotId + 1, b.future - {slot}, b.queueIn + [b.future[slot]]), sent, written)
  {
    var got, slot := b.lastGotId, (b.lastGotId + 1) % SLOTS;
    UnwrapOwn(got + 1, got);
    assert b.queueIn + [b.future[slot]] == sent[..got + 1];
    forall k <- b.future - {slot} ensures Unwrap(k, got + 1) == Unwrap(k, got) {
      UnwrapNext(k, got);
    }
  }

  lemma {:induction false} DrainDelivers(b: Inbox, sent: seq<Message>, written: nat)
    requires Prefix(b, sent, written)
    ensures Incoming(Drain(b), sent, written) && b.lastGotId <= Drain(b).lastGotId
    ensures (b.lastGotId + 1) % SLOTS in b.future ==> b.lastGotId < Drain(b).lastGotId
    decreases |b.future|
  {
    var slot := (b.lastGotId + 1) % SLOTS;
    if slot in b.future {
      DeliverOne(b, sent, written);
      DrainDelivers(Inbox(b.lastGotId + 1, b.future - {slot}, b.queueIn + [b.future[slot]]), sent, written);
    }
  }

  lemma InsertKeeps(b: Inbox, id: nat, sent: seq<Message>, written: nat)
    requires Prefix(b, sent, written) && 1 <= id <= written && id <= b.lastGotId + SLOTS && Fits(sent[id - 1])
    ensures Prefix(Insert(b, id, sent[id - 1]), sent, written)
  {
    if id >= b.lastGotId + 1 {
      UnwrapOwn(id, b.lastGotId);
    }
  }

  /** Accepting an id in the window: delivery advances exactly when it is the next one. */
  lemma AcceptKeeps(b: Inbox, id: nat, sent: seq<Message>, written: nat)
    requires Incoming(b, sent, written) && 1 <= id <= written && id <= b.lastGotId + SLOTS && Fits(sent[id - 1])
    ensures var b' := Drain(Insert(b, id, sent[id - 1]));
            Incoming(b', sent, written) && b.lastGotId <= b'.lastGotId &&
            (b.lastGotId < b'.lastGotId <==> id == b.lastGotId + 1)
  {
    InsertKeeps(b, id, sent, written);
    DrainDelivers(Insert(b, id, sent[id - 1]), sent, written);
    if id > b.lastGotId + 1 {
      UnwrapOwn(id, b.lastGotId);
      UnwrapOwn(b.lastGotId + 1, b.lastGotId);
    }
  }

  // ---------------------------------------------------------------- reading

  /** Answering commutes with delivering, so reading is delivery first and the answers after it. */
  lemma ReadForm(e: Endpoint, id: nat, m: Message)
    ensures var delivered := e.(inbox := Drain(Insert(e.inbox, id, m)));
            var answered := if id <= e.inbox.lastGotId + 1 then TryPong(delivered, id) else delivered;
            ReadData(e, id, m) ==
            if (delivered.inbox.lastGotId - e.inbox.lastGotId) % U16_LIMIT > 1
            then TryPong(answered, delivered.inbox.lastGotId) else answered
  {
  }

  predicate OnlyReads(e: Endpoint, r: Endpoint) {
    r == e.(inbox := r.inbox, acks := r.acks, socket := r.socket)
  }

  /** Reading a message in the window: the endpoint stays sound, and only its receiving half, its pending
      acknowledgement and the socket change. */
  lemma ReadDataKeeps(e: Endpoint, id: nat, sent: seq<Message>, written: nat)
    requires Local(e) && Incoming(e.inbox, sent, written)
    requires 1 <= id <= written && id <= e.inbox.lastGotId + SLOTS && Fits(sent[id - 1])
    ensures var r := ReadData(e, id, sent[id - 1]);
            && Local(r) && OnlyReads(e, r)
            && r.inbox == Drain(Insert(e.inbox, id, sent[id - 1]))
  {
    AcceptKeeps(e.inbox, id, sent, written);
    var delivered := e.(inbox := Drain(Insert(e.inbox, id, sent[id - 1])));
    ReadForm(e, id, sent[id - 1]);
    assert Local(delivered);
    if id <= e.inbox.lastGotId + 1 {
      TryPongKeeps(delivered, id);
      TryPongKeeps(TryPong(delivered, id), delivered.inbox.lastGotId);
    }
  }

  // ---------------------------------------------------------------- writing

  lemma TakeFirstKeeps(o: Outbox, peerGot: nat)
    requires Outgoing(o, peerGot) && o.phase.Idle? && o.queueOut != []
    ensures Outgoing(TakeFirst(o), peerGot)
  {
    assert Pending(TakeFirst(o)) == o.queueOut == Pending(o);
  }

  lemma WriteHeaderKeeps(e: Endpoint)
    requires Local(e) && e.outbox.phase.Idle? && e.outbox.queueOut != []
    ensures Local(WriteHeader(e))
  {
    assert e.socket.wire == Flatten(e.socket.frames);
  }

  lemma WriteBodyKeeps(e: Endpoint, peerGot: nat)
    requires Local(e) && Outgoing(e.outbox, peerGot) && e.outbox.phase.HeaderOut?
    ensures Local(WriteBody(e)) && Outgoing(WriteBody(e).outbox, peerGot)
  {
    assert Pending(WriteBody(e).outbox) == Pending(e.outbox);
    assert [HeaderOf(e.outbox.tempOut)] + [BodyOf(e.outbox.tempOut)] == OpenDatagrams(WriteBody(e).outbox);
  }

  lemma EnqueueKeeps(o: Outbox, m: Message, peerGot: nat)
    requires Outgoing(o, peerGot) && Sendable(m) && o.currentId + 1 < ID_LIMIT
    ensures Outgoing(Enqueue(o, m), peerGot)
  {
    var f := Data(m, o.currentId + 1);
    var o' := Enqueue(o, m);
    assert WindowOk(o');
    assert QueueOk(o') by {
      assert Pending(o') == Pending(o) + [f];
      InOrderAppend(Pending(o), f, o.lastSentId, o.lastSentId + 1, o.currentId);
    }
  }

  lemma {:induction false} InOrderAppend(q: seq<Frame>, f: Frame, lo: nat, next: nat, last: nat)
    requires InOrder(q, lo, next, last) && f.Data? && f.id == last + 1 && lo <= last
    ensures InOrder(q + [f], lo, next, last + 1)
  {
    if q == [] {
      assert (q + [f])[1..] == [];
    } else {
      assert (q + [f])[1..] == q[1..] + [f];
      InOrderAppend(q[1..], f, lo, if q[0].id <= lo then next else next + 1, last);
    }
  }

  lemma {:induction false} InOrderRaise(q: seq<Frame>, lo: nat, next: nat, last: nat)
    requires InOrder(q, lo, next, last) && lo + 1 < next
    ensures InOrder(q, lo + 1, next, last)
  {
    if q != [] {
      InOrderRaise(q[1..], lo, if q[0].id <= lo then next else next + 1, last);
    }
  }

  lemma WrittenQueue(o: Outbox)
    requires QueueOk(o) && o.phase.BodyOut? && o.lastSentId <= o.currentId == |o.accepted|
    ensures o.tempOut.Data? && Genuine(o.tempOut, o.accepted) && QueueOk(Written(o))
    ensures o.tempOut.id <= Written(o).lastSentId <= o.currentId
  {
    assert Pending(o)[0] == o.tempOut && Pending(o)[1..] == o.queueOut;
    assert Pending(Written(o)) == o.queueOut;
    forall f <- o.queueOut ensures Genuine(f, o.accepted) {
      assert f in Pending(o);
    }
    if o.tempOut.id == o.lastSentId + 1 {
      InOrderRaise(o.queueOut, o.lastSentId, o.lastSentId + 2, o.currentId);
    }
  }

  lemma WrittenKeeps(o: Outbox, peerGot: nat)
    requires Outgoing(o, peerGot) && o.phase.BodyOut?
    ensures o.tempOut.Data? && Outgoing(Written(o), peerGot)
    ensures Genuine(o.tempOut, o.accepted) && o.tempOut.id <= Written(o).lastSentId
  {
    WrittenQueue(o);
    var o' := Written(o);
    assert AckedBase(o') == AckedBase(o);
    assert WindowOk(o');
  }

  lemma WrittenLocal(e: Endpoint, done: Endpoint)
    requires Local(e) && e.outbox.phase.BodyOut? && e.outbox.tempOut.Data?
    requires Genuine(e.outbox.tempOut, e.outbox.accepted) && e.outbox.tempOut.id <= Written(e.outbox).lastSentId
    requires done == e.(outbox := Written(e.outbox), socket := e.socket.(frames := e.socket.frames + [e.outbox.tempOut]),
                        acks := e.acks.(shouldPong := false))
    ensures Local(done) && done.outbox.phase.Idle? && e.acks.maxPong <= done.inbox.lastGotId
  {
    FlattenAppend(e.socket.frames, e.outbox.tempOut);
    hide Flatten;
  }

  lemma EndOfWritingKeeps(e: Endpoint, peerGot: nat)
    requires Local(e) && Outgoing(e.outbox, peerGot) && e.outbox.phase.BodyOut?
    ensures e.outbox.tempOut.Data? && Local(EndOfWriting(e))
    ensures EndOfWriting(e).outbox == Written(e.outbox) && Outgoing(Written(e.outbox), peerGot)
  {
    WrittenKeeps(e.outbox, peerGot);
    var f := e.outbox.tempOut;
    var done := e.(outbox := Written(e.outbox), socket := e.socket.(frames := e.socket.frames + [f]),
                   acks := e.acks.(shouldPong := false));
    WrittenLocal(e, done);
    if e.acks.shouldPong {
      PongKeeps(done, e.acks.maxPong);
    }
    hide Local, Outgoing, Framed;
  }

  // ---------------------------------------------------------------- acknowledging and repeating

  /** Trimming drops exactly the acknowledged ids, and never runs out of them. */
  lemma {:induction false} TrimDrops(latest: seq<Frame>, pongId: nat, lastSentId: nat)
    requires pongId <= lastSentId && |latest| <= lastSentId
    ensures var drop := if pongId > lastSentId - |latest| then pongId - (lastSentId - |latest|) else 0;
            Trim(latest, pongId, lastSentId) == latest[drop..]
    decreases |latest|
  {
    if pongId + |latest| > lastSentId {
      TrimDrops(latest[1..], pongId, lastSentId);
    }
  }

  lemma TrimKeeps(o: Outbox, pongId: nat, peerGot: nat)
    requires Outgoing(o, peerGot) && pongId <= peerGot
    ensures var trimmed := o.(latest := Trim(o.latest, pongId, o.lastSentId));
            Outgoing(trimmed, peerGot) && AckedBase(trimmed) == Max(AckedBase(o), pongId)
  {
    TrimDrops(o.latest, pongId, o.lastSentId);
    var trimmed := o.(latest := Trim(o.latest, pongId, o.lastSentId));
    assert AckedBase(trimmed) == Max(AckedBase(o), pongId);
    assert WindowOk(trimmed);
    assert Pending(o.(latest := Trim(o.latest, pongId, o.lastSentId))) == Pending(o);
  }

  lemma RepeatKeeps(o: Outbox, peerGot: nat)
    requires Outgoing(o, peerGot) && o.latest != []
    ensures Outgoing(o.(queueOut := [o.latest[0]] + o.queueOut), peerGot)
  {
    var f := o.latest[0];
    var o' := o.(queueOut := [f] + o.queueOut);
    assert Genuine(f, o.accepted) && f.id <= o.lastSentId;
    if o.phase.Idle? {
      assert Pending(o')[1..] == Pending(o);
    } else {
      assert Pending(o)[0] == o.tempOut && Pending(o)[1..] == o.queueOut;
      assert Pending(o')[0] == o.tempOut && Pending(o')[1..] == [f] + o.queueOut;
      assert ([f] + o.queueOut)[1..] == o.queueOut;
    }
    forall g <- Pending(o') ensures Genuine(g, o.accepted) {
      assert g in Pending(o) || g == f;
    }
  }

  // ---------------------------------------------------------------- steps

  lemma FlushKeeps(e: Endpoint, peerGot: nat)
    requires Local(e) && Outgoing(e.outbox, peerGot)
    ensures Local(Flush(e)) && Outgoing(Flush(e).outbox, peerGot)
  {
    if e.outbox.phase.Idle? && e.outbox.queueOut != [] {
      TakeFirstKeeps(e.outbox, peerGot);
      WriteHeaderKeeps(e);
    }
  }

  lemma SendKeeps(e: Endpoint, m: Message, peerGot: nat)
    requires Local(e) && Outgoing(e.outbox, peerGot) && Sendable(m) && e.outbox.currentId + 1 < ID_LIMIT
    ensures Local(Send(e, m)) && Outgoing(Send(e, m).outbox, peerGot)
  {
    EnqueueKeeps(e.outbox, m, peerGot);
    var queued := e.(outbox := Enqueue(e.outbox, m));
    assert Local(queued);
    if e.outbox.phase.Idle? && e.connected {
      TakeFirstKeeps(queued.outbox, peerGot);
      WriteHeaderKeeps(queued);
    }
  }

  /** What a step of `x` leaves to be used by a step of `y`. */
  predicate Advances(x: Endpoint, x': Endpoint) {
    && x.outbox.accepted <= x'.outbox.accepted
    && x.outbox.lastSentId <= x'.outbox.lastSentId
    && x.inbox.lastGotId <= x'.inbox.lastGotId
  }

  /** What a step of `x` has to leave for the two ends to go on as before. */
  predicate Follows(x: Endpoint, y: Endpoint, x': Endpoint) {
    && Local(x') && Advances(x, x') && x'.inbox.lastGotId <= y.outbox.lastSentId
    && Outgoing(x'.outbox, y.inbox.lastGotId)
    && Incoming(x'.inbox, y.outbox.accepted, y.outbox.lastSentId)
  }

  lemma PeerKeeps(x: Endpoint, x': Endpoint, y: Endpoint)
    requires Directed(x, y) && Directed(y, x) && Advances(x, x')
    requires Outgoing(x'.outbox, y.inbox.lastGotId) && x'.inbox.lastGotId <= y.outbox.lastSentId
    ensures Incoming(y.inbox, x'.outbox.accepted, x'.outbox.lastSentId)
    ensures Outgoing(y.outbox, x'.inbox.lastGotId)
  {
  }

  lemma ReceivePongKeeps(x: Endpoint, id: nat, peerGot: nat)
    requires Local(x) && Outgoing(x.outbox, peerGot) && id <= peerGot
    ensures var x' := EndOfReading(x, Pong(id));
            Local(x') && x'.inbox == x.inbox && x'.outbox.accepted == x.outbox.accepted &&
            x'.outbox.lastSentId == x.outbox.lastSentId && Outgoing(x'.outbox, peerGot)
  {
    TrimKeeps(x.outbox, id, peerGot);
    var read := ReadPong(x.(connected := true), id);
    assert Local(read);
    FlushKeeps(read, peerGot);
  }

  lemma ReceiveDataKeeps(x: Endpoint, id: nat, sent: seq<Message>, written: nat, peerGot: nat)
    requires Local(x) && Outgoing(x.outbox, peerGot) && Incoming(x.inbox, sent, written)
    requires 1 <= id <= written && id <= x.inbox.lastGotId + SLOTS && Fits(sent[id - 1])
    ensures var x' := EndOfReading(x, Data(sent[id - 1], id));
            Local(x') && x'.inbox == Drain(Insert(x.inbox, id, sent[id - 1])) &&
            x'.outbox.accepted == x.outbox.accepted && x'.outbox.lastSentId == x.outbox.lastSentId &&
            Outgoing(x'.outbox, peerGot)
  {
    var up := x.(connected := true);
    assert Local(up);
    ReadDataKeeps(up, id, sent, written);
    FlushKeeps(ReadData(up, id, sent[id - 1]), peerGot);
  }

  lemma GotWritten(x: Endpoint, y: Endpoint)
    requires Directed(y, x)
    ensures x.inbox.lastGotId <= y.outbox.lastSentId
  {
  }

  lemma PingReadFollows(x: Endpoint, y: Endpoint)
    requires Local(x) && Directed(x, y) && Directed(y, x)
    ensures Follows(x, y, Receive(x, Ping))
  {
    var up := x.(connected := true);
    assert Local(up);
    FlushKeeps(up, y.inbox.lastGotId);
    hide Local, Outgoing, Incoming;
  }

  lemma PongFollows(x: Endpoint, y: Endpoint, id: nat)
    requires Local(x) && Directed(x, y) && Directed(y, x) && id <= y.inbox.lastGotId
    ensures Follows(x, y, Receive(x, Pong(id)))
  {
    GotWritten(x, y);
    hide Local, Outgoing, Incoming, EndOfReading;
    ReceivePongKeeps(x, id, y.inbox.lastGotId);
  }

  lemma DataFollows(x: Endpoint, y: Endpoint, m: Message, id: nat)
    requires Local(x) && Directed(x, y) && Directed(y, x)
    requires Genuine(Data(m, id), y.outbox.accepted) && id <= y.outbox.lastSentId && id <= x.inbox.lastGotId + SLOTS
    ensures Follows(x, y, Receive(x, Data(m, id)))
  {
    if Fits(m) {
      AcceptKeeps(x.inbox, id, y.outbox.accepted, y.outbox.lastSentId);
      assert Drain(Insert(x.inbox, id, m)).lastGotId <= y.outbox.lastSentId;
      hide Local, Outgoing, Incoming, EndOfReading, Drain, Insert;
      ReceiveDataKeeps(x, id, y.outbox.accepted, y.outbox.lastSentId, y.inbox.lastGotId);
    } else {
      GotWritten(x, y);
      hide Local, Outgoing, Incoming;
    }
  }

  lemma ReceiveKeeps(x: Endpoint, y: Endpoint, f: Frame)
    requires Local(x) && Local(y) && Directed(x, y) && Directed(y, x)
    requires f in y.socket.frames && (f.Data? ==> f.id <= x.inbox.lastGotId + SLOTS)
    ensures Follows(x, y, Receive(x, f))
  {
    assert FrameOk(f, y.outbox, y.inbox.lastGotId);
    hide Local, Directed, Incoming, Outgoing, Follows, EndOfReading, Receive;
    match f
    case Ping => PingReadFollows(x, y);
    case Pong(id) => PongFollows(x, y, id);
    case Data(m, id) => DataFollows(x, y, m, id);
  }

  lemma SendFollows(x: Endpoint, y: Endpoint, m: Message)
    requires Local(x) && Directed(x, y) && Directed(y, x) && Sendable(m) && x.outbox.currentId + 1 < ID_LIMIT
    ensures Follows(x, y, Send(x, m))
  {
    SendKeeps(x, m, y.inbox.lastGotId);
    hide Local, Outgoing, Incoming;
  }

  lemma HeaderFollows(x: Endpoint, y: Endpoint)
    requires Local(x) && Directed(x, y) && Directed(y, x) && x.outbox.phase.HeaderOut?
    ensures Follows(x, y, WriteBody(x))
  {
    WriteBodyKeeps(x, y.inbox.lastGotId);
    hide Local, Outgoing, Incoming;
  }

  lemma BodyFollows(x: Endpoint, y: Endpoint)
    requires Local(x) && Directed(x, y) && Directed(y, x) && x.outbox.phase.BodyOut? && x.outbox.tempOut.Data?
    ensures Follows(x, y, EndOfWriting(x))
  {
    EndOfWritingKeeps(x, y.inbox.lastGotId);
    hide Local, Outgoing, Incoming;
  }

  lemma RepeatFollows(x: Endpoint, y: Endpoint)
    requires Local(x) && Directed(x, y) && Directed(y, x)
    ensures Follows(x, y, RepeatFront(x))
  {
    if x.connected && x.outbox.latest != [] {
      RepeatKeeps(x.outbox, y.inbox.lastGotId);
    }
    hide Outgoing, Incoming, Flatten;
  }

  lemma PingFollows(x: Endpoint, y: Endpoint)
    requires Local(x) && Directed(x, y) && Directed(y, x)
    ensures Follows(x, y, PingTick(x))
  {
    PingKeeps(x);
    hide Local, Outgoing, Incoming;
  }

  lemma FollowsKeeps(x: Endpoint, y: Endpoint, x': Endpoint)
    requires Directed(x, y) && Directed(y, x) && Follows(x, y, x')
    ensures Local(x') && Advances(x, x') && Directed(x', y) && Directed(y, x')
  {
    hide Local;
    PeerKeeps(x, x', y);
    hide Outgoing, Incoming;
  }

  /** A message is received only when its id is at most `SLOTS` ahead of the last delivered one. */
  predicate InReach(x: Endpoint, act: Action) {
    act.DoReceive? && act.f.Data? ==> act.f.id <= x.inbox.lastGotId + SLOTS
  }

  lemma ActKeeps(x: Endpoint, y: Endpoint, act: Action, x': Endpoint)
    requires Local(x) && Local(y) && Directed(x, y) && Directed(y, x)
    requires Acts(x, y, act, x') && InReach(x, act)
    ensures Local(x') && Advances(x, x') && Directed(x', y) && Directed(y, x')
  {
    hide Local, Directed, Follows, Advances, Send, WriteBody, EndOfWriting, Receive, RepeatFront, PingTick, Sendable;
    match act {
      case DoSend(m) => SendFollows(x, y, m);
      case DoHeaderWritten => HeaderFollows(x, y);
      case DoBodyWritten => BodyFollows(x, y);
      case DoReceive(f) => ReceiveKeeps(x, y, f);
      case DoRepeat => RepeatFollows(x, y);
      case DoPing => PingFollows(x, y);
    }
    hide *;
    FollowsKeeps(x, y, x');
  }

  lemma WindowedReach(x: Endpoint, y: Endpoint, act: Action, x': Endpoint)
    requires Local(y) && Acts(x, y, act, x') && y.outbox.lastSentId <= x.inbox.lastGotId + SLOTS
    ensures InReach(x, act)
  {
    if act.DoReceive? {
      assert FrameOk(act.f, y.outbox, y.inbox.lastGotId);
    }
  }

  lemma StepKeeps(s: System, s': System)
    requires Inv(s) && Windowed(s) && Step(s, s')
    ensures Inv(s')
  {
    var act :| StepBy(s, s', act);
    hide Acts, Local, Directed;
    if s'.b == s.b && Acts(s.a, s.b, act, s'.a) {
      WindowedReach(s.a, s.b, act, s'.a);
      ActKeeps(s.a, s.b, act, s'.a);
    } else {
      WindowedReach(s.b, s.a, act, s'.b);
      ActKeeps(s.b, s.a, act, s'.b);
    }
  }

  /** Every state of a run whose states are windowed satisfies the invariant. */
  lemma {:induction false} RunKeeps(run: seq<System>, i: nat)
    requires IsRun(run) && i < |run|
    requires forall j | 0 <= j < i :: Windowed(run[j])
    ensures Inv(run[i])
  {
    if i == 0 {
    } else {
      RunKeeps(run, i - 1);
      assert StepAt(run, i - 1);
      StepKeeps(run[i - 1], run[i]);
    }
  }
}