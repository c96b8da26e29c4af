/** The promises of a reliable session, stated over whole runs. */
module SessionTheorems {
  import opened Bytes
  import opened Frames
  import opened Protocol
  import opened SessionSafety
  import opened ReorderBuffer

  function Last(run: seq<System>): System
    requires run != []
  {
    run[|run| - 1]
  }

  /** A run whose states, the last one possibly excepted, are all windowed. */
  ghost predicate IsWindowedRun(run: seq<System>) {
    IsRun(run) && forall i | 0 <= i < |run| - 1 :: Windowed(run[i])
  }

  /** What each sender can check by itself: at most `SLOTS` ids accepted and not yet acknowledged. */
  predicate FewOutstanding(s: System) {
    && s.a.outbox.currentId - AckedBase(s.a.outbox) <= SLOTS
    && s.b.outbox.currentId - AckedBase(s.b.outbox) <= SLOTS
  }

  lemma FewOutstandingIsWindowed(s: System)
    requires Inv(s) && FewOutstanding(s)
    ensures Windowed(s)
  {
  }

  lemma {:induction false} FewOutstandingRun(run: seq<System>, n: nat)
    requires IsRun(run) && n < |run|
    requires forall i | 0 <= i < n :: FewOutstanding(run[i])
    ensures forall i | 0 <= i < n :: Windowed(run[i])
  {
    if n > 0 {
      FewOutstandingRun(run, n - 1);
      RunKeeps(run, n - 1);
      FewOutstandingIsWindowed(run[n - 1]);
    }
  }

  /** Exactly-once delivery in order: what each end has delivered is a prefix of what the other was asked to
      send, message for message. */
  lemma DeliveredInOrder(run: seq<System>)
    requires IsWindowedRun(run)
    ensures var s := Last(run);
            && s.b.inbox.queueIn <= s.a.outbox.accepted && |s.b.inbox.queueIn| == s.b.inbox.lastGotId
            && s.a.inbox.queueIn <= s.b.outbox.accepted && |s.a.inbox.queueIn| == s.a.inbox.lastGotId
  {
    RunKeeps(run, |run| - 1);
  }

  lemma DeliveredWhenFewOutstanding(run: seq<System>)
    requires IsRun(run) && forall i | 0 <= i < |run| - 1 :: FewOutstanding(run[i])
    ensures Last(run).b.inbox.queueIn <= Last(run).a.outbox.accepted
    ensures Last(run).a.inbox.queueIn <= Last(run).b.outbox.accepted
  {
    FewOutstandingRun(run, |run| - 1);
    DeliveredInOrder(run);
  }

  /** The frames of a queue that carry ids above `lo`. */
  function Fresh(q: seq<Frame>, lo: nat): seq<Frame> {
    if q == [] then []
    else if q[0].Data? && q[0].id > lo then [q[0]] + Fresh(q[1..], lo)
    else Fresh(q[1..], lo)
  }

  /** The messages from number `next` on, as frames. */
  function From(sent: seq<Message>, next: nat): seq<Frame>
    requires 1 <= next <= |sent| + 1
  {
    seq(|sent| + 1 - next, i requires 0 <= i < |sent| + 1 - next => Data(sent[next + i - 1], next + i))
  }

  lemma FromNext(sent: seq<Message>, next: nat)
    requires 1 <= next <= |sent|
    ensures From(sent, next) == [Data(sent[next - 1], next)] + From(sent, next + 1)
  {
  }

  lemma {:induction false} FreshInOrder(q: seq<Frame>, sent: seq<Message>, lo: nat, next: nat)
    requires InOrder(q, lo, next, |sent|) && 1 <= next && lo < next
    requires forall f <- q :: Genuine(f, sent)
    ensures next <= |sent| + 1
    ensures Fresh(q, lo) == From(sent, next)
    decreases |q|
  {
    if q != [] {
      assert q[0] in q && forall f <- q[1..] :: f in q;
      if q[0].id <= lo {
        FreshInOrder(q[1..], sent, lo, next);
      } else {
        FreshInOrder(q[1..], sent, lo, next + 1);
        hide InOrder;
        FromNext(sent, next);
      }
    }
  }

  /** Nothing is forgotten before it is delivered: the window and the queue together hold every id that the
      peer may still miss, each with its own message, in order. */
  ghost predicate Remembers(x: Endpoint, y: Endpoint) {
    var o := x.outbox;
    var base := AckedBase(o);
    && 0 <= base <= y.inbox.lastGotId <= o.lastSentId <= o.currentId == |o.accepted|
    && o.latest == seq(|o.latest|, i requires 0 <= i < |o.latest| => Data(o.accepted[base + i], base + i + 1))
    && Fresh(Pending(o), o.lastSentId) ==
       seq(o.currentId - o.lastSentId, i requires 0 <= i < o.currentId - o.lastSentId =>
         Data(o.accepted[o.lastSentId + i], o.lastSentId + i + 1))
  }

  lemma RemembersOne(x: Endpoint, y: Endpoint)
    requires Outgoing(x.outbox, y.inbox.lastGotId)
    ensures Remembers(x, y)
  {
    var o := x.outbox;
    FreshInOrder(Pending(o), o.accepted, o.lastSentId, o.lastSentId + 1);
    hide Fresh, InOrder, Pending, QueueOk, Sendable;
  }

  lemma NothingForgotten(run: seq<System>)
    requires IsWindowedRun(run)
    ensures Remembers(Last(run).a, Last(run).b) && Remembers(Last(run).b, Last(run).a)
  {
    RunKeeps(run, |run| - 1);
    var s := Last(run);
    hide Local, Incoming;
    RemembersOne(s.a, s.b);
    RemembersOne(s.b, s.a);
  }

  /** No pong on its way makes the trimming loop pop an empty window, and none has. */
  lemma TrimStaysInWindow(run: seq<System>)
    requires IsWindowedRun(run)
    ensures !Last(run).a.broken && !Last(run).b.broken
    ensures forall f <- Last(run).a.socket.frames | f.Pong? :: f.id <= Last(run).b.outbox.lastSentId
    ensures forall f <- Last(run).b.socket.frames | f.Pong? :: f.id <= Last(run).a.outbox.lastSentId
  {
    RunKeeps(run, |run| - 1);
    forall f <- Last(run).a.socket.frames ensures FrameOk(f, Last(run).a.outbox, Last(run).a.inbox.lastGotId) {}
    forall f <- Last(run).b.socket.frames ensures FrameOk(f, Last(run).b.outbox, Last(run).b.inbox.lastGotId) {}
  }

  /** An acknowledgement of an id never written would. */
  lemma TooFarPongBreaks(e: Endpoint, id: nat)
    ensures ReadPong(e, id).broken <==> e.broken || id > e.outbox.lastSentId
  {
  }

  // ---------------------------------------------------------------- the wire, in every run

  predicate Wire(e: Endpoint) {
    Framed(e) && (e.acks.shouldPong ==> !e.outbox.phase.Idle?)
  }

  lemma WirePong(e: Endpoint, id: nat)
    requires Framed(e) && e.outbox.phase.Idle?
    ensures Wire(SendPong(e, id))
  {
    assert e.socket.wire == Flatten(e.socket.frames);
    FlattenAppend(e.socket.frames, Pong(id));
  }

  lemma WireFlush(e: Endpoint)
    requires Wire(e)
    ensures Wire(Flush(e))
  {
    assert e.outbox.phase.Idle? ==> e.socket.wire == Flatten(e.socket.frames);
  }

  lemma WireReadData(e: Endpoint, id: nat, m: Message)
    requires Wire(e)
    ensures Wire(ReadData(e, id, m))
  {
    ReadForm(e, id, m);
    var delivered := e.(inbox := Drain(Insert(e.inbox, id, m)));
    assert Wire(delivered);
    if e.outbox.phase.Idle? {
      WirePong(delivered, Max(id, e.acks.maxPong));
      WirePong(TryPong(delivered, id), Max(delivered.inbox.lastGotId, e.acks.maxPong));
      WirePong(delivered, Max(delivered.inbox.lastGotId, e.acks.maxPong));
    }
  }

  lemma WireEndOfWriting(e: Endpoint)
    requires Wire(e) && e.outbox.phase.BodyOut? && e.outbox.tempOut.Data?
    ensures Wire(EndOfWriting(e))
  {
    var f := e.outbox.tempOut;
    FlattenAppend(e.socket.frames, f);
    var done := e.(outbox := Written(e.outbox), socket := e.socket.(frames := e.socket.frames + [f]));
    assert Framed(done);
    WirePong(done, e.acks.maxPong);
  }

  lemma WireReading(x: Endpoint, f: Frame)
    requires Wire(x)
    ensures Wire(EndOfReading(x, f))
  {
    var up := x.(connected := true);
    assert Wire(up);
    match f {
      case Ping => WireFlush(up);
      case Pong(id) =>
        assert Wire(ReadPong(up, id));
        hide ReadPong;
        WireFlush(ReadPong(up, id));
      case Data(m, id) =>
        hide Wire, ReadData, Flush;
        WireReadData(up, id, m);
        WireFlush(ReadData(up, id, m));
    }
  }

  lemma WireSend(x: Endpoint, m: Message)
    requires Wire(x)
    ensures Wire(Send(x, m))
  {
    assert x.outbox.phase.Idle? ==> x.socket.wire == Flatten(x.socket.frames);
    hide Flatten;
  }

  lemma WireBody(x: Endpoint)
    requires Wire(x) && x.outbox.phase.HeaderOut?
    ensures Wire(WriteBody(x))
  {
    hide Flatten;
    assert [HeaderOf(x.outbox.tempOut)] + [BodyOf(x.outbox.tempOut)] == OpenDatagrams(WriteBody(x).outbox);
  }

  lemma WireRepeat(x: Endpoint)
    requires Wire(x)
    ensures Wire(RepeatFront(x))
  {
    hide Flatten;
  }

  lemma WirePing(x: Endpoint)
    requires Wire(x)
    ensures Wire(PingTick(x))
  {
    assert x.outbox.phase.Idle? ==> x.socket.wire == Flatten(x.socket.frames);
    FlattenAppend(x.socket.frames, Ping);
    hide Flatten;
  }

  lemma WireAct(x: Endpoint, y: Endpoint, act: Action, x': Endpoint)
    requires Wire(x) && Acts(x, y, act, x')
    ensures Wire(x')
  {
    hide Wire, Send, WriteBody, EndOfWriting, EndOfReading, PingTick;
    match act
    case DoSend(m) => WireSend(x, m);
    case DoHeaderWritten => WireBody(x);
    case DoBodyWritten => WireEndOfWriting(x);
    case DoReceive(f) =>
      if !(f.Data? && !Fits(f.msg)) {
        WireReading(x, f);
      }
    case DoRepeat => WireRepeat(x);
    case DoPing => WirePing(x);
  }

  /** In every run, however far the ids run ahead, each end writes complete header-body pairs and at most one
      open frame, open only during a write; and an acknowledgement waits only for a write in progress. */
  lemma {:induction false} WireFraming(run: seq<System>, i: nat)
    requires IsRun(run) && i < |run|
    ensures Wire(run[i].a) && Wire(run[i].b)
  {
    if i > 0 {
      WireFraming(run, i - 1);
      assert StepAt(run, i - 1);
      var act :| StepBy(run[i - 1], run[i], act);
      if run[i].b == run[i - 1].b && Acts(run[i - 1].a, run[i - 1].b, act, run[i].a) {
        WireAct(run[i - 1].a, run[i - 1].b, act, run[i].a);
      } else {
        WireAct(run[i - 1].b, run[i - 1].a, act, run[i].b);
      }
    }
  }

  // ---------------------------------------------------------------- acknowledgements

  /** The handler has written a pong for everything delivered, or will when the write in progress ends. */
  predicate Announced(before: Endpoint, after: Endpoint) {
    || (after.acks.shouldPong && after.acks.maxPong >= after.inbox.lastGotId)
    || (exists i | |before.socket.frames| <= i < |after.socket.frames| ::
          after.socket.frames[i].Pong? && after.socket.frames[i].id >= after.inbox.lastGotId)
  }

  /** The pongs of reading when `inbox` is what the reading leaves of the receiving half. */
  lemma AnnouncesForm(e: Endpoint, id: nat, inbox: Inbox)
    requires AcksOk(e) && e.inbox.lastGotId <= inbox.lastGotId <= e.inbox.lastGotId + SLOTS
    requires inbox.lastGotId > e.inbox.lastGotId ==> id == e.inbox.lastGotId + 1
    ensures var delivered := e.(inbox := inbox);
            var answered := if id <= e.inbox.lastGotId + 1 then TryPong(delivered, id) else delivered;
            var r := if (inbox.lastGotId - e.inbox.lastGotId) % U16_LIMIT > 1 then TryPong(answered, inbox.lastGotId)
                     else answered;
            && (inbox.lastGotId > e.inbox.lastGotId ==>
                  (Announced(e, r) <==> inbox.lastGotId - e.inbox.lastGotId < SLOTS))
            && (inbox.lastGotId == e.inbox.lastGotId ==> e.socket.frames <= r.socket.frames)
  {
    var delivered := e.(inbox := inbox);
    var answered := if id <= e.inbox.lastGotId + 1 then TryPong(delivered, id) else delivered;
    var r := if (inbox.lastGotId - e.inbox.lastGotId) % U16_LIMIT > 1 then TryPong(answered, inbox.lastGotId) else answered;
    if 1 <= inbox.lastGotId - e.inbox.lastGotId < SLOTS && e.outbox.phase.Idle? {
      assert r.socket.frames[|r.socket.frames| - 1] == Pong(inbox.lastGotId);
    }
  }

  /** Reading in the window delivers exactly when the id is the next one, and then announces what it delivers exactly
      when some other slot of the buffer was free: the count of deliveries has 16 bits, and a full window brings it
      back to zero. */
  lemma AnnouncesDelivery(e: Endpoint, id: nat, sent: seq<Message>, written: nat)
    requires Local(e) && Incoming(e.inbox, sent, written)
    requires 1 <= id <= written && id <= e.inbox.lastGotId + SLOTS && Fits(sent[id - 1])
    ensures var r := ReadData(e, id, sent[id - 1]);
            && (r.inbox.lastGotId > e.inbox.lastGotId <==> id == e.inbox.lastGotId + 1)
            && (id == e.inbox.lastGotId + 1 ==> (Announced(e, r) <==> !FullBut(e.inbox)))
            && (id != e.inbox.lastGotId + 1 ==>
                  r.inbox.queueIn == e.inbox.queueIn && e.socket.frames <= r.socket.frames)
  {
    AcceptKeeps(e.inbox, id, sent, written);
    ReadForm(e, id, sent[id - 1]);
    var inbox := Drain(Insert(e.inbox, id, sent[id - 1]));
    assert inbox.queueIn == sent[..inbox.lastGotId] && e.inbox.queueIn == sent[..e.inbox.lastGotId];
    assert SlotsOnly(e.inbox);
    if id == e.inbox.lastGotId + 1 {
      DeliversWindow(e.inbox, sent[id - 1]);
    }
    hide Local, Incoming, Drain, Insert, Fits, ReadData;
    AnnouncesForm(e, id, inbox);
  }

  lemma FlushKeepsNews(before: Endpoint, e: Endpoint)
    requires Wire(e) && Announced(before, e)
    ensures Announced(before, Flush(e))
  {
    var e' := Flush(e);
    assert e.socket.frames <= e'.socket.frames;
    if !(e.acks.shouldPong && e.acks.maxPong >= e.inbox.lastGotId) {
      var i :| |before.socket.frames| <= i < |e.socket.frames| &&
               e.socket.frames[i].Pong? && e.socket.frames[i].id >= e.inbox.lastGotId;
      assert e'.socket.frames[i] == e.socket.frames[i];
    }
  }

  /** Only reading a message in the window delivers anything. */
  lemma DeliveringStep(x: Endpoint, y: Endpoint, act: Action, x': Endpoint)
    requires Local(x) && Local(y) && Acts(x, y, act, x') && x'.inbox.lastGotId > x.inbox.lastGotId
    ensures act.DoReceive? && act.f.Data? && Fits(act.f.msg)
    ensures Genuine(act.f, y.outbox.accepted) && act.f.id <= y.outbox.lastSentId
    ensures x' == Flush(ReadData(x.(connected := true), act.f.id, act.f.msg))
  {
    assert FrameOk(act.f, y.outbox, y.inbox.lastGotId);
  }

  /** Flushing announces nothing that was not announced already. */
  lemma FlushMakesNoNews(before: Endpoint, e: Endpoint)
    requires before.socket.frames <= e.socket.frames && Announced(before, Flush(e))
    ensures Announced(before, e)
  {
    var e' := Flush(e);
    if !(e'.acks.shouldPong && e'.acks.maxPong >= e'.inbox.lastGotId) {
      var i :| |before.socket.frames| <= i < |e'.socket.frames| &&
               e'.socket.frames[i].Pong? && e'.socket.frames[i].id >= e'.inbox.lastGotId;
      if i < |e.socket.frames| {
        assert e.socket.frames[i] == e'.socket.frames[i];
      } else {
        assert e'.socket.frames[i] == Pong(e.acks.maxPong);
      }
    }
  }

  /** A buffer with no free slot but the next holds an id that is a whole window ahead. */
  lemma FullIsFarAhead(b: Inbox, sent: seq<Message>, written: nat)
    requires Incoming(b, sent, written) && FullBut(b)
    ensures written >= b.lastGotId + SLOTS
  {
    UnwrapOwn(b.lastGotId + SLOTS, b.lastGotId);
    assert (b.lastGotId + SLOTS) % SLOTS in b.future;
  }

  lemma FramesGrow(e: Endpoint, id: nat, m: Message)
    ensures e.socket.frames <= ReadData(e, id, m).socket.frames
  {
    hide Drain, Insert;
  }

  lemma AnnouncedReading(x: Endpoint, id: nat, sent: seq<Message>, written: nat)
    requires Local(x) && Incoming(x.inbox, sent, written)
    requires 1 <= id <= written && id <= x.inbox.lastGotId + SLOTS && Fits(sent[id - 1]) && id == x.inbox.lastGotId + 1
    ensures Announced(x, Flush(ReadData(x.(connected := true), id, sent[id - 1]))) <==> !FullBut(x.inbox)
  {
    var up := x.(connected := true);
    var r := ReadData(up, id, sent[id - 1]);
    assert Local(up);
    AnnouncesDelivery(up, id, sent, written);
    ReadDataKeeps(up, id, sent, written);
    FramesGrow(up, id, sent[id - 1]);
    assert Announced(x, r) <==> Announced(up, r);
    assert Wire(r);
    hide Local, Incoming, ReadData, FullBut, Flush, Announced, Wire, Fits;
    if Announced(x, r) {
      FlushKeepsNews(x, r);
    }
    if Announced(x, Flush(r)) {
      FlushMakesNoNews(x, r);
    }
  }

  /** One end of a step, given the other. */
  lemma DeliveryAtOneEnd(x: Endpoint, y: Endpoint, act: Action, x': Endpoint)
    requires Local(x) && Local(y) && Directed(y, x) && Acts(x, y, act, x')
    requires x'.inbox.lastGotId > x.inbox.lastGotId && y.outbox.lastSentId <= x.inbox.lastGotId + SLOTS
    ensures Announced(x, x') <==> !FullBut(x.inbox)
  {
    DeliveringStep(x, y, act, x');
    var up := x.(connected := true);
    AnnouncesDelivery(up, act.f.id, y.outbox.accepted, y.outbox.lastSentId);
    hide Local, ReadData, FullBut, Announced;
    AnnouncedReading(x, act.f.id, y.outbox.accepted, y.outbox.lastSentId);
  }

  /** A step of a run that delivers something at either end announces it exactly when the buffer at that end had
      another slot free. */
  lemma DeliveryAnnouncedUnlessFull(run: seq<System>, s': System, act: Action)
    requires IsWindowedRun(run) && Windowed(Last(run)) && StepBy(Last(run), s', act)
    ensures s'.a.inbox.lastGotId > Last(run).a.inbox.lastGotId ==>
              (Announced(Last(run).a, s'.a) <==> !FullBut(Last(run).a.inbox))
    ensures s'.b.inbox.lastGotId > Last(run).b.inbox.lastGotId ==>
              (Announced(Last(run).b, s'.b) <==> !FullBut(Last(run).b.inbox))
  {
    RunKeeps(run, |run| - 1);
    var s := Last(run);
    hide Local, Directed, Announced, FullBut, Acts;
    if s'.a.inbox.lastGotId > s.a.inbox.lastGotId {
      DeliveryAtOneEnd(s.a, s.b, act, s'.a);
    }
    if s'.b.inbox.lastGotId > s.b.inbox.lastGotId {
      DeliveryAtOneEnd(s.b, s.a, act, s'.b);
    }
  }

  /** Every step that delivers, at either end, also announces what it delivered, while fewer than `SLOTS` ids are
      ahead there. */
  lemma EveryDeliveryIsAnnounced(run: seq<System>, s': System, act: Action)
    requires IsWindowedRun(run) && StepBy(Last(run), s', act)
    ensures (s'.a.inbox.lastGotId > Last(run).a.inbox.lastGotId &&
             Last(run).b.outbox.lastSentId < Last(run).a.inbox.lastGotId + SLOTS) ==> Announced(Last(run).a, s'.a)
    ensures (s'.b.inbox.lastGotId > Last(run).b.inbox.lastGotId &&
             Last(run).a.outbox.lastSentId < Last(run).b.inbox.lastGotId + SLOTS) ==> Announced(Last(run).b, s'.b)
  {
    RunKeeps(run, |run| - 1);
    var s := Last(run);
    hide Local, Announced, FullBut, Acts, Outgoing, Incoming;
    if s'.a.inbox.lastGotId > s.a.inbox.lastGotId && s.b.outbox.lastSentId < s.a.inbox.lastGotId + SLOTS {
      DeliveryAtOneEnd(s.a, s.b, act, s'.a);
      if FullBut(s.a.inbox) {
        FullIsFarAhead(s.a.inbox, s.b.outbox.accepted, s.b.outbox.lastSentId);
      }
    }
    if s'.b.inbox.lastGotId > s.b.inbox.lastGotId && s.a.outbox.lastSentId < s.b.inbox.lastGotId + SLOTS {
      DeliveryAtOneEnd(s.b, s.a, act, s'.b);
      if FullBut(s.b.inbox) {
        FullIsFarAhead(s.b.inbox, s.a.outbox.accepted, s.a.outbox.lastSentId);
      }
    }
  }

  /** Every pong ever written acknowledges only what has been delivered. */
  lemma PongsAreSound(run: seq<System>)
    requires IsWindowedRun(run)
    ensures forall f <- Last(run).a.socket.frames | f.Pong? :: f.id <= Last(run).a.inbox.lastGotId
    ensures forall f <- Last(run).b.socket.frames | f.Pong? :: f.id <= Last(run).b.inbox.lastGotId
  {
    RunKeeps(run, |run| - 1);
    var s := Last(run);
    forall f <- s.a.socket.frames ensures FrameOk(f, s.a.outbox, s.a.inbox.lastGotId) {}
    forall f <- s.b.socket.frames ensures FrameOk(f, s.b.outbox, s.b.inbox.lastGotId) {}
  }

  /** A message that does not pass the reader is never delivered, nor is anything sent after it. */
  lemma TooLargeBlocks(run: seq<System>, i: nat)
    requires IsWindowedRun(run)
    ensures i < |Last(run).a.outbox.accepted| && !Fits(Last(run).a.outbox.accepted[i]) ==>
              Last(run).b.inbox.lastGotId <= i
    ensures i < |Last(run).b.outbox.accepted| && !Fits(Last(run).b.outbox.accepted[i]) ==>
              Last(run).a.inbox.lastGotId <= i
  {
    RunKeeps(run, |run| - 1);
    var s := Last(run);
    hide Local, Outgoing, Buffered;
    assert i < s.b.inbox.lastGotId ==> s.b.inbox.queueIn[i] in s.b.inbox.queueIn;
    assert i < s.a.inbox.lastGotId ==> s.a.inbox.queueIn[i] in s.a.inbox.queueIn;
  }

  /** A message that asks for no answer is delivered like any other, but announced exactly when it sets free the one
      after it, and not a whole window. */
  lemma UnansweredDelivery(e: Endpoint, id: nat, sent: seq<Message>, written: nat)
    requires Local(e) && Incoming(e.inbox, sent, written)
    requires 1 <= id <= written && id == e.inbox.lastGotId + 1 && Fits(sent[id - 1])
    ensures var r := ReadMessage(e, id, sent[id - 1], false);
            && r.inbox == ReadMessage(e, id, sent[id - 1], true).inbox && r.inbox.lastGotId > e.inbox.lastGotId
            && (Announced(e, r) <==> (e.inbox.lastGotId + 2) % SLOTS in e.inbox.future && !FullBut(e.inbox))
  {
    AcceptKeeps(e.inbox, id, sent, written);
    assert SlotsOnly(e.inbox);
    DeliversWindow(e.inbox, sent[id - 1]);
    DeliversMore(e.inbox, sent[id - 1]);
    hide Local, Incoming, Drain, Insert, Fits, FullBut;
    UnansweredForm(e, id, sent[id - 1]);
  }

  lemma UnansweredForm(e: Endpoint, id: nat, m: Message)
    requires AcksOk(e)
    requires var got := Drain(Insert(e.inbox, id, m)).lastGotId; e.inbox.lastGotId < got <= e.inbox.lastGotId + SLOTS
    ensures var r := ReadMessage(e, id, m, false);
            && r.inbox == Drain(Insert(e.inbox, id, m))
            && (Announced(e, r) <==> 1 < r.inbox.lastGotId - e.inbox.lastGotId < SLOTS)
  {
    hide Drain, Insert;
    var r := ReadMessage(e, id, m, false);
    if 1 < r.inbox.lastGotId - e.inbox.lastGotId < SLOTS && e.outbox.phase.Idle? {
      assert r.socket.frames[|r.socket.frames| - 1] == Pong(Max(r.inbox.lastGotId, e.acks.maxPong));
    }
  }

  // ---------------------------------------------------------------- symmetry

  /** The two ends change places. */
  function Mirror(s: System): System {
    System(s.b, s.a)
  }

  function MirrorAll(run: seq<System>): seq<System> {
    seq(|run|, i requires 0 <= i < |run| => Mirror(run[i]))
  }

  lemma MirrorRun(run: seq<System>)
    requires IsWindowedRun(run)
    ensures IsWindowedRun(MirrorAll(run)) && Last(MirrorAll(run)) == Mirror(Last(run))
  {
    hide Acts;
    var mirrored := MirrorAll(run);
    forall i | 0 <= i < |mirrored| - 1
      ensures StepAt(mirrored, i) && Windowed(mirrored[i])
    {
      assert StepAt(run, i) && Windowed(run[i]);
      var act :| StepBy(run[i], run[i + 1], act);
      assert StepBy(mirrored[i], mirrored[i + 1], act);
    }
  }
}
