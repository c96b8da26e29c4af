/** The session object as it runs: byte messages in queues updated in place, each handler proved against the
    protocol step it implements. */
module SessionObject {
  import opened Bytes
  import opened Frames
  import Codec
  import P = Protocol

  datatype Packet = HeaderPacket(kind: nat, size: nat) | BodyPacket(bytes: seq<Byte>)

  function PacketOf(d: P.Datagram): Packet {
    match d
    case HeaderOf(f) => HeaderPacket(Encode(f).kind, Encode(f).size)
    case BodyOf(f) => BodyPacket(Encode(f).body)
  }

  predicate Carries(m: Message, f: Frame) {
    f.Data? && WellFormed(f) && m == Encode(f)
  }

  predicate CarriesAll(ms: seq<Message>, fs: seq<Frame>) {
    |ms| == |fs| && forall i | 0 <= i < |ms| :: Carries(ms[i], fs[i])
  }

  predicate Shows(wire: seq<Packet>, log: seq<P.Datagram>) {
    |wire| == |log| && forall i | 0 <= i < |wire| :: wire[i] == PacketOf(log[i])
  }

  lemma ShowsMore(wire: seq<Packet>, log: seq<P.Datagram>, d: P.Datagram)
    requires Shows(wire, log)
    ensures Shows(wire + [PacketOf(d)], log + [d])
  {
  }

  lemma CarriesMore(ms: seq<Message>, fs: seq<Frame>, m: Message, f: Frame)
    requires CarriesAll(ms, fs) && Carries(m, f)
    ensures CarriesAll(ms + [m], fs + [f]) && CarriesAll([m] + ms, [f] + fs)
  {
  }

  lemma CarriesFewer(ms: seq<Message>, fs: seq<Frame>)
    requires CarriesAll(ms, fs) && ms != []
    ensures fs != [] && Carries(ms[0], fs[0]) && CarriesAll(ms[1..], fs[1..])
  {
  }

  class Session {
    var queueOut: seq<Message>
    var tempMsgOut: Message
    var isWriting: bool
    var latestMsg: seq<Message>
    var lastSentId: nat
    var lastGotId: nat
    var currentId: nat
    var shouldPong: bool
    var maxPong: nat
    var shouldPing: bool
    var isConnected: bool
    var futureMsgMap: map<nat, Message>
    var queueIn: seq<Message>
    var wire: seq<Packet>

    /** The frames behind the byte messages, and the histories of the protocol state. */
    ghost var outbox: P.Outbox
    ghost var socket: P.Socket

    ghost predicate Sending()
      reads `queueOut, `tempMsgOut, `isWriting, `latestMsg, `lastSentId, `currentId, `outbox
    {
      && isWriting == !outbox.phase.Idle?
      && CarriesAll(queueOut, outbox.queueOut)
      && (isWriting ==> Carries(tempMsgOut, outbox.tempOut))
      && CarriesAll(latestMsg, outbox.latest)
      && lastSentId == outbox.lastSentId
      && currentId == outbox.currentId
    }

    ghost predicate Valid()
      reads this
    {
      Sending() && Shows(wire, socket.wire)
    }

    /** The protocol state this object is in. */
    ghost function View(): P.Endpoint
      reads this
    {
      P.Endpoint(outbox, P.Inbox(lastGotId, futureMsgMap, queueIn), P.Acks(shouldPong, maxPong), socket,
                 shouldPing, isConnected, false)
    }

    constructor ()
      ensures Valid() && View() == P.INITIAL
    {
      queueOut, tempMsgOut, isWriting, latestMsg := [], Message(0, 0, []), false, [];
      lastSentId, lastGotId, currentId := 0, 0, 0;
      shouldPong, maxPong, shouldPing, isConnected := false, 0, false, false;
      futureMsgMap, queueIn, wire := map[], [], [];
      outbox, socket := P.INITIAL.outbox, P.INITIAL.socket;
    }

    /** Writes both datagrams of a frame at once; the message given is left as it was. */
    method SendNoAnswer(msg: Codec.MessageBuffer, ghost f: Frame)
      requires Valid() && msg.Valid()
      requires Encode(f) == PushFixed(Message(msg.id, msg.size, msg.body), [BoolByte(false)])
      modifies `wire, `socket, msg
      ensures Valid() && socket == P.WriteFrame(old(socket), f)
      ensures msg.body == old(msg.body) && msg.size == old(msg.size)
    {
      msg.PushFixed([BoolByte(false)]);
      WritePacket(HeaderPacket(msg.id, msg.size), P.HeaderOf(f));
      WritePacket(BodyPacket(msg.body), P.BodyOf(f));
      socket := socket.(frames := socket.frames + [f]);
      assert socket.wire == old(socket).wire + [P.HeaderOf(f), P.BodyOf(f)];
      var _ := msg.PopFixed(1);
    }

    method Ping()
      requires Valid()
      modifies `wire, `socket, `shouldPing
      ensures Valid() && View() == P.SendPing(old(View()))
    {
      if !isWriting {
        var msg := new Codec.MessageBuffer(PING_TYPE);
        SendNoAnswer(msg, Frame.Ping);
        shouldPing := false;
        return;
      }
      shouldPing := true;
    }

    method Pong(id: nat)
      requires Valid()
      modifies `wire, `socket, `shouldPong
      ensures Valid() && View() == P.SendPong(old(View()), id)
    {
      var msg := new Codec.MessageBuffer(PONG_TYPE);
      msg.PushFixed(LeBytes(id, 8));
      assert [] + LeBytes(id, 8) == LeBytes(id, 8);
      SendNoAnswer(msg, Frame.Pong(id));
      shouldPong := false;
    }

    method TryPong(id: nat)
      requires Valid()
      modifies `wire, `socket, `shouldPong, `maxPong
      ensures Valid() && View() == P.TryPong(old(View()), id)
    {
      if !isWriting {
        Pong(P.Max(id, maxPong));
        return;
      }
      maxPong := P.Max(id, maxPong);
      shouldPong := true;
    }

    method WriteHeader()
      requires Valid() && queueOut != [] && !isWriting
      modifies `isWriting, `tempMsgOut, `queueOut, `wire, `socket, `outbox
      ensures Valid() && old(outbox).queueOut != [] && View() == P.WriteHeader(old(View()))
    {
      TakeFront();
      WritePacket(HeaderPacket(tempMsgOut.kind, tempMsgOut.size), P.HeaderOf(outbox.tempOut));
    }

    /** The front of the queue becomes the message in flight. */
    method TakeFront()
      requires Sending() && queueOut != [] && !isWriting
      modifies `isWriting, `tempMsgOut, `queueOut, `outbox
      ensures Sending() && old(outbox).queueOut != [] && outbox == P.TakeFirst(old(outbox))
      ensures isWriting
    {
      CarriesFewer(queueOut, outbox.queueOut);
      isWriting := true;
      tempMsgOut := queueOut[0];
      queueOut := queueOut[1..];
      outbox := P.TakeFirst(outbox);
    }

    method WritePacket(p: Packet, ghost d: P.Datagram)
      requires Shows(wire, socket.wire) && p == PacketOf(d)
      modifies `wire, `socket
      ensures Shows(wire, socket.wire) && socket == old(socket).(wire := old(socket).wire + [d])
    {
      ShowsMore(wire, socket.wire, d);
      wire := wire + [p];
      socket := socket.(wire := socket.wire + [d]);
    }

    /** The header of the message in flight has been written. */
    method HeaderWritten()
      requires Valid() && outbox.phase.HeaderOut?
      modifies `wire, `socket, `outbox
      ensures Valid() && View() == P.WriteBody(old(View()))
    {
      EncodedSize(outbox.tempOut);
      if |tempMsgOut.body| > 0 {
        WritePacket(BodyPacket(tempMsgOut.body), P.BodyOf(outbox.tempOut));
        outbox := outbox.(phase := P.BodyOut);
      } else {
        assert false;
      }
    }

    /** Numbers a message and queues it; the message given is left as it was. */
    method Send(msg: Codec.MessageBuffer)
      requires Valid() && msg.Valid()
      requires Sendable(Message(msg.id, msg.size, msg.body)) && msg.size + 9 < U32_LIMIT && currentId + 1 < ID_LIMIT
      modifies this, msg
      ensures Valid()
      ensures View() == P.Send(old(View()), Message(msg.id, old(msg.size), old(msg.body)))
      ensures msg.body == old(msg.body) && msg.size == old(msg.size)
    {
      ghost var m := Message(msg.id, msg.size, msg.body);
      currentId := currentId + 1;
      var id := currentId;
      msg.PushFixed(LeBytes(id, 8));
      msg.PushFixed([BoolByte(true)]);
      QueueMessage(Message(msg.id, msg.size, msg.body), m);
      var _ := msg.PopFixed(1);
      var popped := msg.PopFixed(8);
      assert popped == LeBytes(id, 8);
      U64RoundTrip(id);
      currentId := LeValue(popped);
    }

    /** Appends a numbered message to the queue, and starts writing if nothing is being written. */
    method QueueMessage(stamped: Message, ghost m: Message)
      requires currentId == outbox.currentId + 1 && WellFormed(Data(m, currentId))
      requires stamped == Encode(Data(m, currentId))
      requires isWriting == !outbox.phase.Idle? && CarriesAll(queueOut, outbox.queueOut)
      requires (isWriting ==> Carries(tempMsgOut, outbox.tempOut)) && CarriesAll(latestMsg, outbox.latest)
      requires lastSentId == outbox.lastSentId && Shows(wire, socket.wire)
      modifies `isWriting, `tempMsgOut, `queueOut, `wire, `socket, `outbox
      ensures Valid() && View() == P.Send(old(View()), m)
    {
      CarriesMore(queueOut, outbox.queueOut, stamped, Data(m, currentId));
      queueOut := queueOut + [stamped];
      outbox := P.Enqueue(outbox, m);
      if !isWriting && isConnected {
        WriteHeader();
      }
    }

    /** Files the message just written: a new one joins the window. */
    method FileWritten(msgId: nat)
      requires Sending() && isWriting && msgId == outbox.tempOut.id
      modifies `isWriting, `lastSentId, `latestMsg, `outbox
      ensures Sending() && outbox == P.Written(old(outbox))
    {
      isWriting := false;
      if msgId == lastSentId + 1 {
        CarriesMore(latestMsg, outbox.latest, tempMsgOut, outbox.tempOut);
        lastSentId := lastSentId + 1;
        latestMsg := latestMsg + [tempMsgOut];
      }
      outbox := P.Written(outbox);
    }

    /** Reads the flag and the id of the frame just written, and files it. */
    method EndOfWriting()
      requires Valid() && outbox.phase.BodyOut?
      modifies this
      ensures old(outbox).tempOut.Data?
      ensures Valid() && View() == P.EndOfWriting(old(View()))
    {
      ghost var f := outbox.tempOut;
      DataTrailer(tempMsgOut, f);
      var n := |tempMsgOut.body|;
      var shouldWait := tempMsgOut.body[n - 1] != 0;
      var msgId := LeValue(tempMsgOut.body[n - 9..n - 1]);
      FileWritten(msgId);
      socket := socket.(frames := socket.frames + [f]);
      if shouldPong {
        Pong(maxPong);
      }
      if !shouldWait {
        assert false;
      }
    }

    /** Drops acknowledged messages from the front of the window. */
    method TrimLatest(pongMsgId: nat)
      requires Valid() && pongMsgId <= lastSentId
      modifies `latestMsg, `outbox
      ensures Valid() && View() == P.ReadPong(old(View()), pongMsgId)
    {
      ghost var before := outbox;
      while pongMsgId + |latestMsg| > lastSentId
        invariant Sending() && outbox == before.(latest := outbox.latest)
        invariant P.Trim(outbox.latest, pongMsgId, lastSentId) == P.Trim(before.latest, pongMsgId, lastSentId)
        decreases |latestMsg|
      {
        CarriesFewer(latestMsg, outbox.latest);
        latestMsg := latestMsg[1..];
        outbox := outbox.(latest := outbox.latest[1..]);
      }
    }

    /** Delivers from the reorder buffer while the next id is there, counting deliveries in 16 bits. */
    method DrainFuture() returns (delta: nat)
      modifies `futureMsgMap, `queueIn, `lastGotId
      ensures P.Inbox(lastGotId, futureMsgMap, queueIn) ==
              P.Drain(P.Inbox(old(lastGotId), old(futureMsgMap), old(queueIn)))
      ensures lastGotId >= old(lastGotId) && delta == (lastGotId - old(lastGotId)) % U16_LIMIT
    {
      delta := 0;
      ghost var start := P.Inbox(lastGotId, futureMsgMap, queueIn);
      ghost var b := start;
      while (lastGotId + 1) % P.SLOTS in futureMsgMap
        invariant b == P.Inbox(lastGotId, futureMsgMap, queueIn) && P.Drain(b) == P.Drain(start)
        invariant lastGotId >= start.lastGotId && delta == (lastGotId - start.lastGotId) % U16_LIMIT
        decreases |futureMsgMap|
      {
        var slot := (lastGotId + 1) % P.SLOTS;
        queueIn := queueIn + [futureMsgMap[slot]];
        futureMsgMap := futureMsgMap - {slot};
        lastGotId := lastGotId + 1;
        NextDelta(delta, lastGotId - start.lastGotId - 1);
        delta := (delta + 1) % U16_LIMIT;
        b := P.Inbox(lastGotId, futureMsgMap, queueIn);
      }
    }

    method ReadData(msgId: nat, m: Message, shouldAnswer: bool)
      requires Valid()
      modifies `futureMsgMap, `queueIn, `lastGotId, `wire, `socket, `shouldPong, `maxPong
      ensures Valid()
      ensures View() == P.ReadMessage(old(View()), msgId, m, shouldAnswer)
    {
      hide P.Drain, LeValue;
      if shouldAnswer && msgId <= lastGotId + 1 {
        TryPong(msgId);
      }
      if msgId >= lastGotId + 1 {
        futureMsgMap := futureMsgMap[msgId % P.SLOTS := m];
      }
      var delta := DrainFuture();
      if delta > 1 {
        TryPong(lastGotId);
      }
    }

    /** Sends a waiting acknowledgement, and starts the next write. */
    method Flush()
      requires Valid()
      modifies this
      ensures Valid() && View() == P.Flush(old(View()))
    {
      if !isWriting {
        if shouldPong {
          Pong(maxPong);
        }
      }
      if !isWriting && queueOut != [] {
        WriteHeader();
      }
    }

    method EndOfReading(tempMsgIn: Message, ghost f: Frame)
      requires Valid() && Decode(tempMsgIn) == Some(f)
      requires f.Pong? ==> f.id <= lastSentId
      modifies this
      ensures Valid() && View() == P.EndOfReading(old(View()), f)
    {
      var n := |tempMsgIn.body|;
      var shouldAnswer := tempMsgIn.body[n - 1] != 0;
      isConnected := true;
      if tempMsgIn.kind == PONG_TYPE {
        TrimLatest(LeValue(tempMsgIn.body[n - 9..n - 1]));
      } else if tempMsgIn.kind != PING_TYPE {
        ReadData(LeValue(tempMsgIn.body[n - 9..n - 1]), WithBody(tempMsgIn.kind, tempMsgIn.body[..n - 9]), shouldAnswer);
      }
      Flush();
    }

    /** The reader's checks on a header and the body that follows it. */
    method ReceiveFrame(m: Message, ghost f: Frame)
      requires Valid() && WellFormed(f) && m == Encode(f)
      requires f.Pong? ==> f.id <= lastSentId
      modifies this
      ensures Valid() && View() == P.Receive(old(View()), f)
    {
      FrameRoundTrip(f);
      AcceptsFrame(f);
      if m.kind <= MAX_PACKET_ID && m.size <= MAX_PACKET_SIZE && m.size == |m.body| {
        EndOfReading(m, f);
      }
    }

    method RepeatFired()
      requires Valid()
      modifies `queueOut, `outbox
      ensures Valid() && View() == P.RepeatFront(old(View()))
    {
      if isConnected && latestMsg != [] {
        CarriesFewer(latestMsg, outbox.latest);
        CarriesMore(queueOut, outbox.queueOut, latestMsg[0], outbox.latest[0]);
        queueOut := [latestMsg[0]] + queueOut;
        outbox := outbox.(queueOut := [outbox.latest[0]] + outbox.queueOut);
      }
    }

    method PingFired()
      requires Valid()
      modifies `wire, `socket, `shouldPing
      ensures Valid() && View() == P.PingTick(old(View()))
    {
      if queueOut == [] || !isConnected {
        Ping();
      }
    }
  }

  lemma NextDelta(delta: nat, count: nat)
    requires delta == count % U16_LIMIT
    ensures (delta + 1) % U16_LIMIT == (count + 1) % U16_LIMIT
  {
  }

  lemma DataTrailer(m: Message, f: Frame)
    requires Carries(m, f)
    ensures |m.body| >= 9 && m.body[|m.body| - 1] != 0
    ensures LeValue(m.body[|m.body| - 9..|m.body| - 1]) == f.id
  {
    TrailerParts(f.msg.body, f.id, true);
  }
}
