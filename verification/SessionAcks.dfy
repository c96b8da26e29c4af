/** An acknowledgement that waits for a write is written in the end: over whole runs, at either end. */
module SessionAcks {
  import opened Frames
  import opened Protocol
  import opened SessionSafety
  import opened SessionTheorems
  import opened ReorderBuffer

  /** An acknowledgement of `id` or more has been written as frame `from` or later. */
  predicate PongWritten(e: Endpoint, from: nat, id: nat) {
    exists k | from <= k < |e.socket.frames| :: e.socket.frames[k].Pong? && e.socket.frames[k].id >= id
  }

  /** Or one waits for the end of a write. */
  predicate Owed(e: Endpoint, from: nat, id: nat) {
    PongWritten(e, from, id) || (e.acks.shouldPong && e.acks.maxPong >= id)
  }

  lemma MoreFrames(e: Endpoint, e': Endpoint, from: nat, id: nat)
    requires PongWritten(e, from, id) && e.socket.frames <= e'.socket.frames
    ensures PongWritten(e', from, id)
  {
    var k :| from <= k < |e.socket.frames| && e.socket.frames[k].Pong? && e.socket.frames[k].id >= id;
    assert e'.socket.frames[k] == e.socket.frames[k];
  }

  /** What is owed is written by `e'`, or still waits. */
  predicate Settles(e: Endpoint, e': Endpoint) {
    && e.socket.frames <= e'.socket.frames
    && (e.acks.shouldPong ==>
          || (e'.acks.shouldPong && e'.acks.maxPong >= e.acks.maxPong)
          || PongWritten(e', |e.socket.frames|, e.acks.maxPong))
  }

  lemma OwedKeeps(e: Endpoint, e': Endpoint, from: nat, id: nat)
    requires Owed(e, from, id) && Settles(e, e') && from <= |e.socket.frames|
    ensures Owed(e', from, id)
  {
    if PongWritten(e, from, id) {
      MoreFrames(e, e', from, id);
    }
  }

  lemma SettlesTwice(e: Endpoint, mid: Endpoint, e': Endpoint)
    requires Settles(e, mid) && Settles(mid, e')
    ensures Settles(e, e')
  {
    if e.acks.shouldPong {
      OwedKeeps(mid, e', |e.socket.frames|, e.acks.maxPong);
    }
  }

  lemma PongSettles(e: Endpoint, id: nat)
    requires id >= e.acks.maxPong
    ensures Settles(e, SendPong(e, id))
  {
    assert SendPong(e, id).socket.frames[|e.socket.frames|] == Pong(id);
  }

  lemma TrySettles(e: Endpoint, id: nat)
    ensures Settles(e, TryPong(e, id))
  {
    PongSettles(e, Max(id, e.acks.maxPong));
    hide SendPong;
  }

  lemma EndSettles(e: Endpoint)
    requires e.outbox.tempOut.Data?
    ensures Settles(e, EndOfWriting(e))
  {
    var done := e.(outbox := Written(e.outbox),
                   socket := e.socket.(frames := e.socket.frames + [e.outbox.tempOut]));
    PongSettles(done, e.acks.maxPong);
    SettlesTwice(e, done, SendPong(done, e.acks.maxPong));
    hide SendPong;
  }

  lemma FlushSettles(e: Endpoint)
    ensures Settles(e, Flush(e))
  {
    PongSettles(e, e.acks.maxPong);
    var flushed := if e.outbox.phase.Idle? && e.acks.shouldPong then SendPong(e, e.acks.maxPong) else e;
    assert Settles(e, flushed);
    SettlesTwice(e, flushed, Flush(e));
  }

  lemma ReadSettles(e: Endpoint, id: nat, m: Message)
    ensures Settles(e, ReadData(e, id, m))
  {
    var answered := if id <= e.inbox.lastGotId + 1 then TryPong(e, id) else e;
    var inbox := Drain(Insert(e.inbox, id, m));
    var drained := answered.(inbox := inbox);
    TrySettles(e, id);
    TrySettles(drained, inbox.lastGotId);
    hide TryPong, Drain, Insert;
    assert Settles(e, drained);
    SettlesTwice(e, drained, TryPong(drained, inbox.lastGotId));
  }

  lemma ReceiveSettles(e: Endpoint, f: Frame)
    ensures Settles(e, Receive(e, f))
  {
    var up := e.(connected := true);
    FlushSettles(up);
    match f
    case Ping => hide Flush;
    case Pong(id) =>
      FlushSettles(ReadPong(up, id));
      hide Flush, Trim;
    case Data(m, id) =>
      ReadSettles(up, id, m);
      FlushSettles(ReadData(up, id, m));
      hide Flush, ReadData;
      SettlesTwice(up, ReadData(up, id, m), Flush(ReadData(up, id, m)));
  }

  lemma ActSettles(x: Endpoint, y: Endpoint, act: Action, x': Endpoint)
    requires Acts(x, y, act, x')
    ensures Settles(x, x')
  {
    match act
    case DoSend(_) =>
    case DoHeaderWritten =>
    case DoBodyWritten => EndSettles(x); hide EndOfWriting;
    case DoReceive(f) => ReceiveSettles(x, f); hide Receive;
    case DoRepeat =>
    case DoPing =>
  }

  lemma StepSettles(s: System, s': System)
    requires Step(s, s')
    ensures Settles(s.a, s'.a) && Settles(s.b, s'.b)
  {
    var act :| StepBy(s, s', act);
    hide Acts;
    if s'.b == s.b && Acts(s.a, s.b, act, s'.a) {
      ActSettles(s.a, s.b, act, s'.a);
    } else {
      ActSettles(s.b, s.a, act, s'.b);
    }
  }

  lemma {:induction false} RunSettles(run: seq<System>, i: nat, j: nat)
    requires IsRun(run) && i <= j < |run|
    ensures Settles(run[i].a, run[j].a) && Settles(run[i].b, run[j].b)
    decreases j
  {
    if i < j {
      RunSettles(run, i, j - 1);
      assert StepAt(run, j - 1);
      hide IsRun, Settles;
      StepSettles(run[j - 1], run[j]);
      SettlesTwice(run[i].a, run[j - 1].a, run[j].a);
      SettlesTwice(run[i].b, run[j - 1].b, run[j].b);
    }
  }

  /** In every run, whatever the ids, an acknowledgement that waits goes on waiting, for no smaller id, until one that is
      no smaller is written; and it does not wait once no write is in progress. */
  lemma WaitingIsWritten(run: seq<System>, i: nat, j: nat)
    requires IsRun(run) && i <= j < |run|
    ensures run[i].a.acks.shouldPong ==>
              || (!run[j].a.outbox.phase.Idle? && run[j].a.acks.shouldPong &&
                  run[j].a.acks.maxPong >= run[i].a.acks.maxPong)
              || (exists k | |run[i].a.socket.frames| <= k < |run[j].a.socket.frames| ::
                    run[j].a.socket.frames[k].Pong? && run[j].a.socket.frames[k].id >= run[i].a.acks.maxPong)
    ensures run[i].b.acks.shouldPong ==>
              || (!run[j].b.outbox.phase.Idle? && run[j].b.acks.shouldPong &&
                  run[j].b.acks.maxPong >= run[i].b.acks.maxPong)
              || (exists k | |run[i].b.socket.frames| <= k < |run[j].b.socket.frames| ::
                    run[j].b.socket.frames[k].Pong? && run[j].b.socket.frames[k].id >= run[i].b.acks.maxPong)
  {
    RunSettles(run, i, j);
    WireFraming(run, j);
    hide IsRun, Framed;
  }

  /** A delivery of less than a whole window is announced. */
  lemma PartOfWindow(x: Endpoint, y: Endpoint, act: Action, x': Endpoint)
    requires Local(x) && Local(y) && Directed(y, x) && Acts(x, y, act, x')
    requires x.inbox.lastGotId < x'.inbox.lastGotId && y.outbox.lastSentId <= x.inbox.lastGotId + SLOTS
    requires x'.inbox.lastGotId != x.inbox.lastGotId + 65536
    ensures Owed(x', |x.socket.frames|, x'.inbox.lastGotId)
  {
    DeliveringStep(x, y, act, x');
    var up := x.(connected := true);
    AnnouncesDelivery(up, act.f.id, y.outbox.accepted, y.outbox.lastSentId);
    DeliveryAtOneEnd(x, y, act, x');
    ReadForm(up, act.f.id, act.f.msg);
    assert SlotsOnly(x.inbox);
    DeliversWindow(x.inbox, act.f.msg);
    hide Local, Directed, FullBut, Drain, Insert;
  }

  lemma PartIsWritten(x: Endpoint, y: Endpoint, act: Action, x': Endpoint, later: Endpoint)
    requires Local(x) && Local(y) && Directed(y, x) && Acts(x, y, act, x') && Settles(x', later) && Wire(later)
    requires x.inbox.lastGotId < x'.inbox.lastGotId != x.inbox.lastGotId + 65536
    requires y.outbox.lastSentId <= x.inbox.lastGotId + SLOTS && later.outbox.phase.Idle?
    ensures exists k | |x.socket.frames| <= k < |later.socket.frames| ::
              later.socket.frames[k].Pong? && later.socket.frames[k].id >= x'.inbox.lastGotId
  {
    ActSettles(x, y, act, x');
    hide Local, Directed, Acts, Framed;
    PartOfWindow(x, y, act, x');
    OwedKeeps(x', later, |x.socket.frames|, x'.inbox.lastGotId);
  }

  /** What a step of a run delivers, if it is not a whole window, has been acknowledged by a frame written since in every
      later state in which that end is not writing. */
  lemma DeliveriesAreAcknowledged(run: seq<System>, i: nat, j: nat)
    requires IsRun(run) && i < j < |run| && forall k | 0 <= k <= i :: Windowed(run[k])
    ensures run[i].a.inbox.lastGotId < run[i + 1].a.inbox.lastGotId != run[i].a.inbox.lastGotId + 65536 &&
            run[j].a.outbox.phase.Idle? ==>
              exists k | |run[i].a.socket.frames| <= k < |run[j].a.socket.frames| ::
                run[j].a.socket.frames[k].Pong? && run[j].a.socket.frames[k].id >= run[i + 1].a.inbox.lastGotId
    ensures run[i].b.inbox.lastGotId < run[i + 1].b.inbox.lastGotId != run[i].b.inbox.lastGotId + 65536 &&
            run[j].b.outbox.phase.Idle? ==>
              exists k | |run[i].b.socket.frames| <= k < |run[j].b.socket.frames| ::
                run[j].b.socket.frames[k].Pong? && run[j].b.socket.frames[k].id >= run[i + 1].b.inbox.lastGotId
  {
    RunKeeps(run, i);
    assert StepAt(run, i) && Windowed(run[i]);
    var act :| StepBy(run[i], run[i + 1], act);
    RunSettles(run, i + 1, j);
    WireFraming(run, j);
    var s, s', later := run[i], run[i + 1], run[j];
    hide Local, Directed, Acts, IsRun, Wire, Settles;
    if s.a.inbox.lastGotId < s'.a.inbox.lastGotId != s.a.inbox.lastGotId + 65536 && later.a.outbox.phase.Idle? {
      PartIsWritten(s.a, s.b, act, s'.a, later.a);
    }
    if s.b.inbox.lastGotId < s'.b.inbox.lastGotId != s.b.inbox.lastGotId + 65536 && later.b.outbox.phase.Idle? {
      PartIsWritten(s.b, s.a, act, s'.b, later.b);
    }
  }

  // ---------------------------------------------------------------- before the first frame from the peer

  predicate OnlyPings(e: Endpoint) {
    !e.connected ==> e.outbox.phase.Idle? && !e.acks.shouldPong && forall f <- e.socket.frames :: f == Ping
  }

  lemma ActKeepsOnlyPings(x: Endpoint, y: Endpoint, act: Action, x': Endpoint)
    requires OnlyPings(x) && Acts(x, y, act, x')
    ensures OnlyPings(x')
  {
    match act
    case DoSend(_) =>
    case DoHeaderWritten =>
    case DoBodyWritten => hide SendPong;
    case DoReceive(f) => ReceiveConnects(x, f); hide EndOfReading;
    case DoRepeat =>
    case DoPing =>
  }

  lemma ReceiveConnects(e: Endpoint, f: Frame)
    ensures EndOfReading(e, f).connected
  {
    hide Drain, Insert, Trim;
  }

  /** Until an end has read a frame it writes nothing but pings: no message, however many it was given, and no
      acknowledgement. */
  lemma {:induction false} SilentUntilConnected(run: seq<System>, i: nat)
    requires IsRun(run) && i < |run|
    ensures !run[i].a.connected ==>
              run[i].a.outbox.phase.Idle? && !run[i].a.acks.shouldPong && forall f <- run[i].a.socket.frames :: f == Ping
    ensures !run[i].b.connected ==>
              run[i].b.outbox.phase.Idle? && !run[i].b.acks.shouldPong && forall f <- run[i].b.socket.frames :: f == Ping
  {
    if i > 0 {
      SilentUntilConnected(run, i - 1);
      assert StepAt(run, i - 1);
      var act :| StepBy(run[i - 1], run[i], act);
      hide IsRun, Acts;
      if run[i].b == run[i - 1].b && Acts(run[i - 1].a, run[i - 1].b, act, run[i].a) {
        ActKeepsOnlyPings(run[i - 1].a, run[i - 1].b, act, run[i].a);
      } else {
        ActKeepsOnlyPings(run[i - 1].b, run[i - 1].a, act, run[i].b);
      }
    }
  }
}
