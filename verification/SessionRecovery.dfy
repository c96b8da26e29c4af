/** When a session recovers from a loss by its own timers. */
module SessionRecovery {
  import opened Bytes
  import opened Frames
  import opened Protocol
  import opened SessionSafety
  import opened SessionTheorems

  /** No new messages, and only frames written after the first `n` are received: whatever was on its way before
      may be lost for good. */
  predicate Quiet(act: Action, peer: Endpoint, n: nat) {
    !act.DoSend? && (act.DoReceive? ==> n <= |peer.socket.frames| && act.f in peer.socket.frames[n..])
  }

  ghost predicate QuietStep(s: System, s': System, na: nat, nb: nat) {
    || (s'.b == s.b && exists act :: Quiet(act, s.b, nb) && Acts(s.a, s.b, act, s'.a))
    || (s'.a == s.a && exists act :: Quiet(act, s.a, na) && Acts(s.b, s.a, act, s'.b))
  }

  ghost predicate QuietStepAt(path: seq<System>, i: nat, na: nat, nb: nat)
    requires i + 1 < |path|
  {
    QuietStep(path[i], path[i + 1], na, nb)
  }

  ghost predicate IsPath(path: seq<System>, s: System, s': System, na: nat, nb: nat) {
    && path != [] && path[0] == s && path[|path| - 1] == s'
    && forall i | 0 <= i < |path| - 1 :: QuietStepAt(path, i, na, nb)
  }

  /** `s'` is the end of a finite continuation of `s` in which nothing new is sent. */
  ghost predicate Reaches(s: System, s': System, na: nat, nb: nat) {
    exists path :: IsPath(path, s, s', na, nb)
  }

  lemma ReachSelf(s: System, na: nat, nb: nat)
    ensures Reaches(s, s, na, nb)
  {
    assert IsPath([s], s, s, na, nb);
  }

  lemma ReachNext(s: System, mid: System, s': System, na: nat, nb: nat)
    requires Reaches(s, mid, na, nb) && QuietStep(mid, s', na, nb)
    ensures Reaches(s, s', na, nb)
  {
    var path :| IsPath(path, s, mid, na, nb);
    var longer := path + [s'];
    forall i | 0 <= i < |longer| - 1
      ensures QuietStepAt(longer, i, na, nb)
    {
      if i < |path| - 1 {
        assert QuietStepAt(path, i, na, nb);
      }
    }
    assert IsPath(longer, s, s', na, nb);
  }

  lemma {:induction false} ReachJoin(s: System, mid: System, s': System, na: nat, nb: nat)
    requires Reaches(s, mid, na, nb) && Reaches(mid, s', na, nb)
    ensures Reaches(s, s', na, nb)
  {
    var tail :| IsPath(tail, mid, s', na, nb);
    JoinPath(s, mid, tail, s', na, nb);
  }

  lemma {:induction false} JoinPath(s: System, mid: System, tail: seq<System>, s': System, na: nat, nb: nat)
    requires Reaches(s, mid, na, nb) && IsPath(tail, mid, s', na, nb)
    ensures Reaches(s, s', na, nb)
    decreases |tail|
  {
    if |tail| > 1 {
      var rest := tail[1..];
      assert QuietStepAt(tail, 0, na, nb);
      ReachNext(s, mid, rest[0], na, nb);
      forall i | 0 <= i < |rest| - 1
        ensures QuietStepAt(rest, i, na, nb)
      {
        assert QuietStepAt(tail, i + 1, na, nb);
      }
      JoinPath(s, rest[0], rest, s', na, nb);
    }
  }

  // ---------------------------------------------------------------- what quiet steps keep

  /** Nothing is accepted, and no acknowledgement is taken back. */
  predicate Settles(o: Outbox, o': Outbox) {
    o'.currentId == o.currentId && o'.accepted == o.accepted && AckedBase(o') >= AckedBase(o)
  }

  lemma ReceiveSettles(x: Endpoint, f: Frame, peerGot: nat)
    requires Outgoing(x.outbox, peerGot) && (f.Pong? ==> f.id <= peerGot)
    ensures Settles(x.outbox, Receive(x, f).outbox)
  {
    var up := x.(connected := true);
    match f
    case Ping =>
      FlushSettles(up);
      hide Flush;
    case Pong(id) =>
      TrimKeeps(x.outbox, id, peerGot);
      FlushSettles(ReadPong(up, id));
      hide Flush, Trim, WindowOk, QueueOk;
    case Data(m, id) =>
      OnlyInbox(up, id, m);
      FlushSettles(ReadData(up, id, m));
      hide Flush, ReadData, WindowOk, QueueOk;
  }

  lemma OnlyInbox(e: Endpoint, id: nat, m: Message)
    ensures ReadData(e, id, m).outbox == e.outbox
  {
    hide Drain, Insert;
  }

  lemma ActSettles(x: Endpoint, y: Endpoint, act: Action, x': Endpoint)
    requires Local(x) && Local(y) && Directed(x, y) && Directed(y, x) && !act.DoSend?
    requires Acts(x, y, act, x')
    ensures Settles(x.outbox, x'.outbox)
  {
    hide Receive;
    match act
    case DoReceive(f) =>
      assert FrameOk(f, y.outbox, y.inbox.lastGotId);
      hide Local, Incoming;
      ReceiveSettles(x, f, y.inbox.lastGotId);
    case _ =>
  }

  lemma FlushSettles(e: Endpoint)
    ensures Settles(e.outbox, Flush(e).outbox)
  {
  }

  // ---------------------------------------------------------------- one step of the schedule

  /** A quiet step of `a` that receives nothing out of reach. */
  lemma MoveA(s: System, act: Action, a': Endpoint, na: nat, nb: nat)
    requires Inv(s) && Quiet(act, s.b, nb) && Acts(s.a, s.b, act, a') && InReach(s.a, act)
    ensures QuietStep(s, System(a', s.b), na, nb) && Inv(System(a', s.b))
    ensures Settles(s.a.outbox, a'.outbox) && s.a.inbox.lastGotId <= a'.inbox.lastGotId
    ensures s.a.socket.frames <= a'.socket.frames
  {
    ActSettles(s.a, s.b, act, a');
    FramesOnlyGrow(s.a, s.b, act, a');
    hide Acts, Local, Directed, Settles;
    ActKeeps(s.a, s.b, act, a');
  }

  lemma MoveB(s: System, act: Action, b': Endpoint, na: nat, nb: nat)
    requires Inv(s) && Quiet(act, s.a, na) && Acts(s.b, s.a, act, b') && InReach(s.b, act)
    ensures QuietStep(s, System(s.a, b'), na, nb) && Inv(System(s.a, b'))
    ensures Settles(s.b.outbox, b'.outbox) && s.b.inbox.lastGotId <= b'.inbox.lastGotId
    ensures s.b.socket.frames <= b'.socket.frames
  {
    ActSettles(s.b, s.a, act, b');
    FramesOnlyGrow(s.b, s.a, act, b');
    hide Acts, Local, Directed, Settles;
    ActKeeps(s.b, s.a, act, b');
  }

  lemma FlushGrows(e: Endpoint)
    ensures e.socket.frames <= Flush(e).socket.frames && Flush(e).inbox == e.inbox
    ensures Flush(e).outbox.accepted == e.outbox.accepted
  {
  }

  lemma ReceiveGrows(x: Endpoint, f: Frame)
    ensures x.socket.frames <= Receive(x, f).socket.frames
  {
    var up := x.(connected := true);
    match f
    case Ping => FlushGrows(up);
    case Pong(id) =>
      FlushGrows(ReadPong(up, id));
      hide Flush;
    case Data(m, id) =>
      FramesGrow(up, id, m);
      FlushGrows(ReadData(up, id, m));
      hide Flush, ReadData;
  }

  lemma FramesOnlyGrow(x: Endpoint, y: Endpoint, act: Action, x': Endpoint)
    requires Acts(x, y, act, x')
    ensures x.socket.frames <= x'.socket.frames
  {
    hide Receive;
    match act
    case DoReceive(f) => ReceiveGrows(x, f);
    case _ =>
  }

  // ---------------------------------------------------------------- the schedule

  /** A state from which `a` can recover: its messages pass the peer's reader, and the peer has nothing queued. */
  predicate Recoverable(s: System, na: nat, nb: nat) {
    && Inv(s)
    && (forall m <- s.a.outbox.accepted :: Fits(m))
    && s.b.outbox.queueOut == []
    && na <= |s.a.socket.frames| && nb <= |s.b.socket.frames|
  }

  predicate Resting(s: System, na: nat, nb: nat) {
    Recoverable(s, na, nb) && s.b.outbox.phase.Idle? && s.a.outbox.phase.Idle?
  }

  /** A write in progress at `a` ends, whether or not its header is out. */
  lemma FinishWrite(s: System, na: nat, nb: nat) returns (s': System)
    requires Inv(s) && !s.a.outbox.phase.Idle? && na <= |s.a.socket.frames|
    ensures s.a.outbox.tempOut.Data?
    ensures Reaches(s, s', na, nb) && Inv(s') && Settles(s.a.outbox, s'.a.outbox)
    ensures s'.b == s.b && s'.a.outbox.phase.Idle? && s'.a.connected == s.a.connected && s'.a.inbox == s.a.inbox
    ensures s'.a.outbox == Written(s.a.outbox) && s.a.socket.frames <= s'.a.socket.frames
    ensures s.a.outbox.tempOut in s'.a.socket.frames[na..]
  {
    ReachSelf(s, na, nb);
    s' := s;
    assert Pending(s.a.outbox)[0] == s.a.outbox.tempOut;
    if s.a.outbox.phase.HeaderOut? {
      s' := System(WriteBody(s.a), s.b);
      MoveA(s, DoHeaderWritten, s'.a, na, nb);
      ReachNext(s, s, s', na, nb);
    }
    EndOfWritingKeeps(s'.a, s.b.inbox.lastGotId);
    var done := System(EndOfWriting(s'.a), s.b);
    MoveA(s', DoBodyWritten, done.a, na, nb);
    ReachNext(s, s', done, na, nb);
    assert done.a.socket.frames[|s.a.socket.frames|] == s.a.outbox.tempOut;
    assert done.a.socket.frames[na..][|s.a.socket.frames| - na] == s.a.outbox.tempOut;
    s' := done;
  }

  lemma FinishA(s: System, na: nat, nb: nat) returns (s': System)
    requires Recoverable(s, na, nb) && !s.a.outbox.phase.Idle?
    ensures s.a.outbox.tempOut.Data?
    ensures Reaches(s, s', na, nb) && Recoverable(s', na, nb)
    ensures s'.b == s.b && s'.a.outbox.phase.Idle? && s'.a.connected == s.a.connected
    ensures s'.a.outbox == Written(s.a.outbox)
    ensures s.a.outbox.tempOut in s'.a.socket.frames[na..]
  {
    hide Inv, Fits, Reaches;
    s' := FinishWrite(s, na, nb);
  }

  lemma FinishB(s: System, na: nat, nb: nat) returns (s': System)
    requires Recoverable(s, na, nb)
    ensures Reaches(s, s', na, nb) && Recoverable(s', na, nb)
    ensures s'.a == s.a && s'.b.outbox.phase.Idle?
  {
    ReachSelf(s, na, nb);
    s' := s;
    if !s.b.outbox.phase.Idle? {
      hide Local, Directed, Fits, Reaches;
      var m := FinishWrite(Mirror(s), nb, na);
      MirrorReaches(Mirror(s), m, nb, na);
      s' := Mirror(m);
    }
  }

  /** The peer pings, which starts the next write of `a` if it has one queued. */
  lemma Kick(s: System, na: nat, nb: nat) returns (s': System)
    requires Resting(s, na, nb)
    ensures Reaches(s, s', na, nb) && Recoverable(s', na, nb)
    ensures s'.a.connected && s'.b.outbox == s.b.outbox && s'.b.inbox == s.b.inbox
    ensures s.a.outbox.queueOut == [] ==> s'.a.outbox == s.a.outbox
    ensures s.a.outbox.queueOut != [] ==> s'.a.outbox == TakeFirst(s.a.outbox)
  {
    ReachSelf(s, na, nb);
    var pinged := System(s.a, PingTick(s.b));
    MoveB(s, DoPing, pinged.b, na, nb);
    ReachNext(s, s, pinged, na, nb);
    assert pinged.b.socket.frames[nb..][|s.b.socket.frames| - nb] == Ping;
    assert Ping in pinged.b.socket.frames;
    s' := System(Receive(s.a, Ping), pinged.b);
    MoveA(pinged, DoReceive(Ping), s'.a, na, nb);
    ReachNext(s, pinged, s', na, nb);
    assert s.a.acks.shouldPong ==> false;
  }

  /** Everything queued at `a` gets written. */
  lemma {:induction false} Pump(s: System, na: nat, nb: nat) returns (s': System)
    requires Resting(s, na, nb)
    ensures Reaches(s, s', na, nb) && Resting(s', na, nb)
    ensures s'.a.outbox.queueOut == [] && s'.a.connected
    decreases |s.a.outbox.queueOut|
  {
    s' := Kick(s, na, nb);
    if s.a.outbox.queueOut != [] {
      var written := FinishA(s', na, nb);
      ReachJoin(s, s', written, na, nb);
      var rest := Pump(written, na, nb);
      ReachJoin(s, written, rest, na, nb);
      s' := rest;
    }
  }

  lemma AnswerPong(s: System, f: Frame, nb: nat) returns (pong: Frame)
    requires Inv(s) && f in s.a.socket.frames && nb <= |s.b.socket.frames|
    requires s.b.outbox.phase.Idle? && s.b.outbox.queueOut == []
    requires f.Data? && Genuine(f, s.a.outbox.accepted) && f.id == AckedBase(s.a.outbox) + 1 && Fits(f.msg)
    ensures pong.Pong? && pong.id >= f.id && pong in Receive(s.b, f).socket.frames[nb..]
    ensures Receive(s.b, f).outbox == s.b.outbox && f.id <= s.b.inbox.lastGotId + 1
  {
    assert FrameOk(f, s.a.outbox, s.a.inbox.lastGotId);
    hide EndOfReading, Fits;
    pong := AnswerFrame(s.b, f.id, s.a.outbox.accepted, s.a.outbox.lastSentId);
    assert Receive(s.b, f).socket.frames[nb..][|s.b.socket.frames| - nb] == pong;
  }

  /** The peer answers the front of the window, which it either has delivered already or delivers now. */
  lemma Answer(s: System, f: Frame, na: nat, nb: nat) returns (s': System, pong: Frame)
    requires Resting(s, na, nb) && f in s.a.socket.frames[na..]
    requires f.Data? && Genuine(f, s.a.outbox.accepted) && f.id == AckedBase(s.a.outbox) + 1
    ensures Reaches(s, s', na, nb) && Recoverable(s', na, nb)
    ensures s'.a == s.a && s'.b.outbox == s.b.outbox
    ensures pong.Pong? && pong.id >= f.id && pong in s'.b.socket.frames[nb..]
  {
    ReachSelf(s, na, nb);
    assert f in s.a.socket.frames;
    s' := System(s.a, Receive(s.b, f));
    pong := AnswerPong(s, f, nb);
    hide Inv, Receive, Reaches, QuietStep, Fits, Genuine, Settles;
    MoveB(s, DoReceive(f), s'.b, na, nb);
    ReachNext(s, s, s', na, nb);
  }

  lemma AnswerFrame(e: Endpoint, id: nat, sent: seq<Message>, written: nat) returns (pong: Frame)
    requires Local(e) && Incoming(e.inbox, sent, written) && e.outbox.phase.Idle? && e.outbox.queueOut == []
    requires 1 <= id <= written && id <= e.inbox.lastGotId + 1 && Fits(sent[id - 1])
    ensures pong.Pong? && pong.id >= id
    ensures var e' := EndOfReading(e, Data(sent[id - 1], id));
            && |e'.socket.frames| > |e.socket.frames| && e'.socket.frames[|e.socket.frames|] == pong
            && e'.outbox == e.outbox
  {
    var up := e.(connected := true);
    pong := Pong(Max(id, up.acks.maxPong));
    ReadForm(up, id, sent[id - 1]);
    assert Local(up);
    ReadDataKeeps(up, id, sent, written);
    assert TryPong(up, id).socket.frames[|up.socket.frames|] == pong;
    assert TryPong(up, id).socket.frames <= ReadData(up, id, sent[id - 1]).socket.frames;
  }

  /** The front of the window is written once more. */
  lemma WriteFrontAgain(s: System, na: nat, nb: nat) returns (s': System)
    requires Resting(s, na, nb) && s.a.outbox.queueOut == [] && s.a.connected && s.a.outbox.latest != []
    ensures Reaches(s, s', na, nb) && Resting(s', na, nb)
    ensures s.a.outbox.latest[0] in s'.a.socket.frames[na..] && s'.a.connected
    ensures s'.a.outbox == s.a.outbox.(tempOut := s.a.outbox.latest[0])
  {
    ReachSelf(s, na, nb);
    var queued := System(RepeatFront(s.a), s.b);
    MoveA(s, DoRepeat, queued.a, na, nb);
    ReachNext(s, s, queued, na, nb);
    var started := Kick(queued, na, nb);
    ReachJoin(s, queued, started, na, nb);
    s' := FinishA(started, na, nb);
    ReachJoin(s, started, s', na, nb);
  }

  /** The answer comes back and trims the window. */
  lemma Acknowledge(s: System, pong: Frame, na: nat, nb: nat) returns (s': System)
    requires Recoverable(s, na, nb) && s.a.outbox.phase.Idle? && s.a.outbox.queueOut == []
    requires pong.Pong? && pong.id > AckedBase(s.a.outbox) && pong in s.b.socket.frames[nb..]
    ensures Reaches(s, s', na, nb) && Recoverable(s', na, nb) && s'.b == s.b
    ensures s'.a.outbox == s.a.outbox.(latest := s'.a.outbox.latest) && s'.a.connected
    ensures AckedBase(s'.a.outbox) > AckedBase(s.a.outbox)
  {
    ReachSelf(s, na, nb);
    s' := System(Receive(s.a, pong), s.b);
    assert pong in s.b.socket.frames;
    MoveA(s, DoReceive(pong), s'.a, na, nb);
    ReachNext(s, s, s', na, nb);
    assert FrameOk(pong, s.b.outbox, s.b.inbox.lastGotId);
    TrimKeeps(s.a.outbox, pong.id, s.b.inbox.lastGotId);
  }

  /** One turn of the repeat timer: the front of the window is written again, answered, and acknowledged. */
  lemma Round(s: System, na: nat, nb: nat) returns (s': System)
    requires Resting(s, na, nb) && s.a.outbox.queueOut == [] && s.a.connected && s.a.outbox.latest != []
    ensures Reaches(s, s', na, nb) && Resting(s', na, nb)
    ensures s'.a.outbox.queueOut == [] && s'.a.connected
    ensures AckedBase(s'.a.outbox) > AckedBase(s.a.outbox)
    ensures s'.a.outbox.lastSentId == s.a.outbox.lastSentId
  {
    var written := WriteFrontAgain(s, na, nb);
    var answered, pong := Answer(written, s.a.outbox.latest[0], na, nb);
    ReachJoin(s, written, answered, na, nb);
    s' := Acknowledge(answered, pong, na, nb);
    ReachJoin(s, answered, s', na, nb);
  }

  lemma {:induction false} Rounds(s: System, na: nat, nb: nat) returns (s': System)
    requires Resting(s, na, nb) && s.a.outbox.queueOut == [] && s.a.connected
    ensures Reaches(s, s', na, nb) && Resting(s', na, nb)
    ensures s'.a.outbox.queueOut == [] && s'.a.outbox.latest == []
    decreases s.a.outbox.lastSentId - AckedBase(s.a.outbox)
  {
    if s.a.outbox.latest == [] {
      ReachSelf(s, na, nb);
      s' := s;
    } else {
      var next := Round(s, na, nb);
      s' := Rounds(next, na, nb);
      ReachJoin(s, next, s', na, nb);
    }
  }

  /** Everything `a` was asked to send has been delivered and acknowledged. */
  predicate Recovered(s: System) {
    && s.b.inbox.queueIn == s.a.outbox.accepted
    && s.a.outbox.queueOut == [] && s.a.outbox.latest == []
    && AckedBase(s.a.outbox) == s.a.outbox.currentId
  }

  lemma Recover(s: System, na: nat, nb: nat) returns (s': System)
    requires Recoverable(s, na, nb)
    ensures Reaches(s, s', na, nb) && Recovered(s')
  {
    var rested := FinishB(s, na, nb);
    if !rested.a.outbox.phase.Idle? {
      var done := FinishA(rested, na, nb);
      ReachJoin(s, rested, done, na, nb);
      rested := done;
    }
    var pumped := Pump(rested, na, nb);
    ReachJoin(s, rested, pumped, na, nb);
    s' := Rounds(pumped, na, nb);
    ReachJoin(s, pumped, s', na, nb);
    assert Pending(s'.a.outbox) == [];
    assert s'.a.outbox.accepted[..|s'.a.outbox.accepted|] == s'.a.outbox.accepted;
  }

  // ---------------------------------------------------------------- only messages that fit

  /** Everything delivered or waiting to be passes the reader. */
  predicate TakesFit(b: Inbox) {
    (forall m <- b.queueIn :: Fits(m)) && forall slot <- b.future :: Fits(b.future[slot])
  }

  lemma {:induction false} DrainTakesFit(b: Inbox)
    requires TakesFit(b)
    ensures TakesFit(Drain(b))
    decreases |b.future|
  {
    var slot := (b.lastGotId + 1) % SLOTS;
    if slot in b.future {
      DrainTakesFit(Inbox(b.lastGotId + 1, b.future - {slot}, b.queueIn + [b.future[slot]]));
    }
  }

  lemma ReadInbox(e: Endpoint, id: nat, m: Message)
    ensures ReadData(e, id, m).inbox == Drain(Insert(e.inbox, id, m)) && ReadData(e, id, m).outbox == e.outbox
  {
    hide Drain, Insert;
  }

  lemma ReceiveTakesFit(x: Endpoint, f: Frame)
    requires TakesFit(x.inbox)
    ensures TakesFit(Receive(x, f).inbox) && Receive(x, f).outbox.accepted == x.outbox.accepted
  {
    var up := x.(connected := true);
    match f
    case Ping =>
      FlushGrows(up);
      hide Flush, TakesFit;
    case Pong(id) =>
      FlushGrows(ReadPong(up, id));
      hide Flush, TakesFit;
    case Data(m, id) =>
      if Fits(m) {
        DrainTakesFit(Insert(x.inbox, id, m));
        ReadInbox(up, id, m);
        FlushGrows(ReadData(up, id, m));
        hide Flush, ReadData, Drain, Insert, TakesFit;
      }
  }

  /** Whatever is received, in reach or not. */
  lemma ActTakesFit(x: Endpoint, y: Endpoint, act: Action, x': Endpoint)
    requires Acts(x, y, act, x') && TakesFit(x.inbox) && !act.DoSend?
    ensures TakesFit(x'.inbox) && x'.outbox.accepted == x.outbox.accepted
  {
    hide Receive, TakesFit;
    match act
    case DoReceive(f) => ReceiveTakesFit(x, f);
    case _ =>
  }

  lemma {:induction false} PathTakesFit(path: seq<System>, s: System, s': System, na: nat, nb: nat)
    requires IsPath(path, s, s', na, nb) && TakesFit(s.a.inbox) && TakesFit(s.b.inbox)
    ensures TakesFit(s'.a.inbox) && TakesFit(s'.b.inbox)
    ensures s'.a.outbox.accepted == s.a.outbox.accepted && s'.b.outbox.accepted == s.b.outbox.accepted
    decreases |path|
  {
    if |path| > 1 {
      var init := path[..|path| - 1];
      var mid := init[|init| - 1];
      forall i | 0 <= i < |init| - 1
        ensures QuietStepAt(init, i, na, nb)
      {
        assert QuietStepAt(path, i, na, nb);
      }
      hide Acts, TakesFit;
      PathTakesFit(init, s, mid, na, nb);
      assert QuietStepAt(path, |path| - 2, na, nb);
      if s'.b == mid.b && exists act :: Quiet(act, mid.b, nb) && Acts(mid.a, mid.b, act, s'.a) {
        var act :| Quiet(act, mid.b, nb) && Acts(mid.a, mid.b, act, s'.a);
        ActTakesFit(mid.a, mid.b, act, s'.a);
      } else {
        var act :| Quiet(act, mid.a, na) && Acts(mid.b, mid.a, act, s'.b);
        ActTakesFit(mid.b, mid.a, act, s'.b);
      }
    }
  }

  lemma InvTakesFit(s: System)
    requires Inv(s)
    ensures TakesFit(s.a.inbox) && TakesFit(s.b.inbox)
  {
    hide Local, Outgoing;
  }

  /** A message that does not fit is past recovery. */
  lemma RecoveredFits(s: System, s': System, na: nat, nb: nat)
    requires Inv(s) && Reaches(s, s', na, nb) && Recovered(s')
    ensures forall m <- s.a.outbox.accepted :: Fits(m)
  {
    InvTakesFit(s);
    hide Inv;
    var path :| IsPath(path, s, s', na, nb);
    PathTakesFit(path, s, s', na, nb);
  }

  // ---------------------------------------------------------------- symmetry

  lemma MirrorStep(s: System, s': System, na: nat, nb: nat)
    requires QuietStep(s, s', na, nb)
    ensures QuietStep(Mirror(s), Mirror(s'), nb, na)
  {
    hide Acts, Quiet;
  }

  lemma MirrorReaches(s: System, s': System, na: nat, nb: nat)
    requires Reaches(s, s', na, nb)
    ensures Reaches(Mirror(s), Mirror(s'), nb, na)
  {
    hide QuietStep;
    var path :| IsPath(path, s, s', na, nb);
    var mirrored := MirrorAll(path);
    forall i | 0 <= i < |mirrored| - 1
      ensures QuietStepAt(mirrored, i, nb, na)
    {
      assert QuietStepAt(path, i, na, nb);
      MirrorStep(path[i], path[i + 1], na, nb);
    }
    assert IsPath(mirrored, Mirror(s), Mirror(s'), nb, na);
  }

  /** `s` has a continuation on frames written from now on after which everything `a` was asked to send has been
      delivered and acknowledged. */
  ghost predicate CanRecover(s: System) {
    exists s' :: Reaches(s, s', |s.a.socket.frames|, |s.b.socket.frames|) && Recovered(s')
  }

  /** The same for what `b` was asked to send. */
  ghost predicate CanRecoverOther(s: System) {
    exists s' :: Reaches(s, s', |s.a.socket.frames|, |s.b.socket.frames|) && Recovered(Mirror(s'))
  }

  lemma MirrorRecovers(s: System)
    ensures CanRecoverOther(s) <==> CanRecover(Mirror(s))
  {
    hide Reaches, Recovered;
    var na, nb := |s.a.socket.frames|, |s.b.socket.frames|;
    if s' :| Reaches(s, s', na, nb) && Recovered(Mirror(s')) {
      MirrorReaches(s, s', na, nb);
    }
    if s' :| Reaches(Mirror(s), s', nb, na) && Recovered(s') {
      MirrorReaches(Mirror(s), s', nb, na);
      assert Mirror(Mirror(s')) == s' && Mirror(Mirror(s)) == s;
    }
  }

  lemma RecoversOneWay(s: System)
    requires Inv(s) && s.b.outbox.queueOut == []
    ensures CanRecover(s) <==> forall m <- s.a.outbox.accepted :: Fits(m)
  {
    var na, nb := |s.a.socket.frames|, |s.b.socket.frames|;
    hide Inv, Reaches, Recovered, Fits;
    if forall m <- s.a.outbox.accepted :: Fits(m) {
      var s' := Recover(s, na, nb);
    }
    if s' :| Reaches(s, s', na, nb) && Recovered(s') {
      RecoveredFits(s, s', na, nb);
    }
  }

  lemma MirrorInv(s: System)
    requires Inv(s)
    ensures Inv(Mirror(s))
  {
    hide Local, Directed;
  }

  /** From the last state of every windowed run, an end whose peer has nothing queued can recover using only frames
      written from then on, exactly when every message it accepted passes the reader. */
  lemma RecoversIffAllFit(run: seq<System>)
    requires IsWindowedRun(run)
    ensures Last(run).b.outbox.queueOut == [] ==>
              (CanRecover(Last(run)) <==> forall m <- Last(run).a.outbox.accepted :: Fits(m))
    ensures Last(run).a.outbox.queueOut == [] ==>
              (CanRecoverOther(Last(run)) <==> forall m <- Last(run).b.outbox.accepted :: Fits(m))
  {
    RunKeeps(run, |run| - 1);
    var s := Last(run);
    hide Inv, Reaches, Recovered, Fits, CanRecover, CanRecoverOther;
    if s.b.outbox.queueOut == [] {
      RecoversOneWay(s);
    }
    if s.a.outbox.queueOut == [] {
      MirrorInv(s);
      MirrorRecovers(s);
      RecoversOneWay(Mirror(s));
    }
  }

  // ---------------------------------------------------------------- with messages queued at both ends

  /** Both ends have messages queued, and neither writes: pings are only for an empty queue, and nothing else starts a
      write but a frame from the other end. */
  predicate Stuck(s: System) {
    && s.a.outbox.phase.Idle? && s.a.connected && s.a.outbox.queueOut != []
    && s.b.outbox.phase.Idle? && s.b.connected && s.b.outbox.queueOut != []
  }

  /** Stuck, with no frame written since. */
  predicate StaysStuck(s: System, na: nat, nb: nat) {
    Stuck(s) && |s.a.socket.frames| == na && |s.b.socket.frames| == nb
  }

  lemma StuckStep(s: System, s': System, na: nat, nb: nat)
    requires StaysStuck(s, na, nb) && QuietStep(s, s', na, nb)
    ensures StaysStuck(s', na, nb)
  {
    hide Receive, EndOfWriting, WriteBody;
  }

  lemma {:induction false} StuckPath(path: seq<System>, s: System, s': System, na: nat, nb: nat)
    requires StaysStuck(s, na, nb) && IsPath(path, s, s', na, nb)
    ensures StaysStuck(s', na, nb)
    decreases |path|
  {
    if |path| > 1 {
      var init := path[..|path| - 1];
      forall i | 0 <= i < |init| - 1
        ensures QuietStepAt(init, i, na, nb)
      {
        assert QuietStepAt(path, i, na, nb);
      }
      hide QuietStep, StaysStuck;
      StuckPath(init, s, init[|init| - 1], na, nb);
      assert QuietStepAt(path, |path| - 2, na, nb);
      StuckStep(init[|init| - 1], s', na, nb);
    }
  }

  /** Then neither end recovers. */
  lemma StuckIsLost(s: System)
    requires Stuck(s)
    ensures !CanRecover(s) && !CanRecoverOther(s)
  {
    var na, nb := |s.a.socket.frames|, |s.b.socket.frames|;
    forall s' | Reaches(s, s', na, nb)
      ensures !Recovered(s') && !Recovered(Mirror(s'))
    {
      var path :| IsPath(path, s, s', na, nb);
      hide IsPath;
      StuckPath(path, s, s', na, nb);
    }
  }

  /** At most `SLOTS` ids accepted and not yet delivered, at either end. */
  predicate FewUndelivered(s: System) {
    && s.a.outbox.currentId <= s.b.inbox.lastGotId + SLOTS
    && s.b.outbox.currentId <= s.a.inbox.lastGotId + SLOTS
  }

  /** A state of two ends whose messages all fit, with few of them undelivered. */
  predicate Moving(s: System, na: nat, nb: nat) {
    && Inv(s) && FewUndelivered(s)
    && (forall m <- s.a.outbox.accepted :: Fits(m)) && (forall m <- s.b.outbox.accepted :: Fits(m))
    && na <= |s.a.socket.frames| && nb <= |s.b.socket.frames|
  }

  lemma MirrorMoving(s: System, na: nat, nb: nat)
    requires Moving(s, na, nb)
    ensures Moving(Mirror(s), nb, na)
  {
    MirrorInv(s);
    hide Inv, Fits;
  }

  /** A frame of the peer reaches `a`, at rest: the next write starts if there is one. */
  lemma ReceiveStarts(x: Endpoint, y: Endpoint, f: Frame)
    requires x.outbox.phase.Idle? && !x.acks.shouldPong && FrameOk(f, y.outbox, y.inbox.lastGotId)
    requires forall m <- y.outbox.accepted :: Fits(m)
    ensures var x' := Receive(x, f);
            && x'.connected
            && (x.outbox.queueOut != [] ==>
                  x'.outbox.phase.HeaderOut? && x'.outbox.queueOut == x.outbox.queueOut[1..])
            && (x.outbox.queueOut == [] ==> x'.outbox.phase.Idle? && x'.outbox.queueOut == [])
  {
    hide Drain, Insert, Trim, Fits;
    if f.Data? {
      assert f.msg in y.outbox.accepted;
    }
  }

  lemma Hears(s: System, na: nat, nb: nat) returns (s': System)
    requires Moving(s, na, nb) && s.a.outbox.phase.Idle? && |s.b.socket.frames| > nb
    ensures Reaches(s, s', na, nb) && Moving(s', na, nb) && s'.b == s.b
    ensures s.a.socket.frames <= s'.a.socket.frames && s'.a.connected
    ensures s.a.outbox.queueOut != [] ==>
              s'.a.outbox.phase.HeaderOut? && s'.a.outbox.queueOut == s.a.outbox.queueOut[1..]
    ensures s.a.outbox.queueOut == [] ==> s'.a.outbox.phase.Idle? && s'.a.outbox.queueOut == []
  {
    ReachSelf(s, na, nb);
    var f := s.b.socket.frames[nb];
    assert f in s.b.socket.frames[nb..] by { assert s.b.socket.frames[nb..][0] == f; }
    assert f in s.b.socket.frames;
    assert FrameOk(f, s.b.outbox, s.b.inbox.lastGotId);
    assert InReach(s.a, DoReceive(f)) && !s.a.acks.shouldPong;
    ReceiveStarts(s.a, s.b, f);
    s' := System(Receive(s.a, f), s.b);
    hide Inv, Receive, Fits, Genuine, Reaches, QuietStep;
    MoveA(s, DoReceive(f), s'.a, na, nb);
    ReachNext(s, s, s', na, nb);
  }

  lemma Finishes(s: System, na: nat, nb: nat) returns (s': System)
    requires Moving(s, na, nb) && !s.a.outbox.phase.Idle?
    ensures Reaches(s, s', na, nb) && Moving(s', na, nb) && s'.b == s.b && s'.a.outbox.phase.Idle?
    ensures |s'.a.socket.frames| > na && s.a.socket.frames <= s'.a.socket.frames
    ensures s'.a.outbox.queueOut == s.a.outbox.queueOut && s'.a.connected == s.a.connected
  {
    hide Inv, Fits, Reaches;
    s' := FinishWrite(s, na, nb);
  }

  lemma Pings(s: System, na: nat, nb: nat) returns (s': System)
    requires Moving(s, na, nb) && s.a.outbox.phase.Idle? && (s.a.outbox.queueOut == [] || !s.a.connected)
    ensures Reaches(s, s', na, nb) && Moving(s', na, nb) && s'.b == s.b && s'.a.outbox == s.a.outbox
    ensures |s'.a.socket.frames| > na
  {
    ReachSelf(s, na, nb);
    s' := System(PingTick(s.a), s.b);
    hide Inv, Fits, Reaches, QuietStep;
    MoveA(s, DoPing, s'.a, na, nb);
    ReachNext(s, s, s', na, nb);
  }

  predicate BothIdle(s: System) {
    s.a.outbox.phase.Idle? && s.b.outbox.phase.Idle?
  }

  /** `a` puts a frame on the network, given one from `b`. */
  lemma Speaks(s: System, na: nat, nb: nat) returns (s': System)
    requires Moving(s, na, nb) && BothIdle(s) && |s.b.socket.frames| > nb
    ensures Reaches(s, s', na, nb) && Moving(s', na, nb) && BothIdle(s') && s'.b == s.b && |s'.a.socket.frames| > na
  {
    hide Moving, Reaches;
    if s.a.outbox.queueOut == [] {
      s' := Pings(s, na, nb);
    } else {
      var started := Hears(s, na, nb);
      s' := Finishes(started, na, nb);
      ReachJoin(s, started, s', na, nb);
    }
  }

  /** `b` hears it, and writes one message out. */
  lemma OtherWrites(s: System, na: nat, nb: nat) returns (s': System)
    requires Moving(s, na, nb) && BothIdle(s) && |s.a.socket.frames| > na && s.b.outbox.queueOut != []
    ensures Reaches(s, s', na, nb) && Moving(s', na, nb) && BothIdle(s') && s'.a == s.a && |s'.b.socket.frames| > nb
    ensures s'.b.outbox.queueOut == s.b.outbox.queueOut[1..]
  {
    hide Moving, Reaches;
    MirrorMoving(s, na, nb);
    var started := Hears(Mirror(s), nb, na);
    var done := Finishes(started, nb, na);
    ReachJoin(Mirror(s), started, done, nb, na);
    MirrorReaches(Mirror(s), done, nb, na);
    MirrorMoving(done, nb, na);
    s' := Mirror(done);
  }

  /** With a frame from `b` on the network, everything queued at `b` gets written. */
  lemma {:induction false} Drains(s: System, na: nat, nb: nat) returns (s': System)
    requires Moving(s, na, nb) && BothIdle(s) && |s.b.socket.frames| > nb
    ensures Reaches(s, s', na, nb) && Moving(s', na, nb) && s'.b.outbox.queueOut == []
    decreases |s.b.outbox.queueOut|
  {
    hide Moving, Reaches;
    ReachSelf(s, na, nb);
    s' := s;
    if s.b.outbox.queueOut != [] {
      var spoken := Speaks(s, na, nb);
      var written := OtherWrites(spoken, na, nb);
      ReachJoin(s, spoken, written, na, nb);
      s' := Drains(written, na, nb);
      ReachJoin(s, written, s', na, nb);
    }
  }

  /** Writes in progress end at both ends. */
  lemma Settle(s: System, na: nat, nb: nat) returns (s': System)
    requires Moving(s, na, nb)
    ensures Reaches(s, s', na, nb) && Moving(s', na, nb) && BothIdle(s')
    ensures s'.a.outbox.queueOut == s.a.outbox.queueOut && s'.b.outbox.queueOut == s.b.outbox.queueOut
    ensures |s'.a.socket.frames| > na || |s'.b.socket.frames| > nb || s' == s
  {
    hide Moving, Reaches;
    ReachSelf(s, na, nb);
    s' := s;
    if !s.a.outbox.phase.Idle? {
      s' := Finishes(s, na, nb);
    }
    if !s'.b.outbox.phase.Idle? {
      MirrorMoving(s', na, nb);
      var done := Finishes(Mirror(s'), nb, na);
      MirrorReaches(Mirror(s'), done, nb, na);
      MirrorMoving(done, nb, na);
      assert Mirror(Mirror(s')) == s';
      ReachJoin(s, s', Mirror(done), na, nb);
      s' := Mirror(done);
    }
  }

  /** Unless both are stuck, a frame from `b` gets on the network, or `b` has nothing queued. */
  lemma Wakes(s: System, na: nat, nb: nat) returns (s': System)
    requires Moving(s, na, nb) && !Stuck(s)
    ensures Reaches(s, s', na, nb) && Moving(s', na, nb) && BothIdle(s')
    ensures |s'.b.socket.frames| > nb || s'.b.outbox.queueOut == []
  {
    hide Moving, Reaches;
    s' := Settle(s, na, nb);
    if |s'.b.socket.frames| <= nb && s'.b.outbox.queueOut != [] {
      var settled := s';
      if |settled.a.socket.frames| <= na {
        if !settled.b.connected {
          MirrorMoving(settled, na, nb);
          var pinged := Pings(Mirror(settled), nb, na);
          MirrorReaches(Mirror(settled), pinged, nb, na);
          MirrorMoving(pinged, nb, na);
          assert Mirror(Mirror(settled)) == settled;
          s' := Mirror(pinged);
          ReachJoin(s, settled, s', na, nb);
          return;
        }
        settled := Pings(s', na, nb);
        ReachJoin(s, s', settled, na, nb);
      }
      s' := OtherWrites(settled, na, nb);
      ReachJoin(s, settled, s', na, nb);
    }
  }

  lemma MovingRecovers(s: System, na: nat, nb: nat) returns (s': System)
    requires Moving(s, na, nb) && !Stuck(s)
    ensures Reaches(s, s', na, nb) && Recovered(s')
  {
    var awake := Wakes(s, na, nb);
    var drained := awake;
    hide Reaches, Recovered;
    if awake.b.outbox.queueOut != [] {
      drained := Drains(awake, na, nb);
      ReachJoin(s, awake, drained, na, nb);
    }
    assert Recoverable(drained, na, nb) by { hide Inv, Fits; }
    hide Moving, Recoverable;
    s' := Recover(drained, na, nb);
    ReachJoin(s, drained, s', na, nb);
  }

  /** When all messages fit and few are undelivered, an end can recover exactly when the two are not stuck, whatever is
      queued at either. */
  lemma RecoversUnlessStuck(run: seq<System>)
    requires IsWindowedRun(run) && FewUndelivered(Last(run))
    requires forall m <- Last(run).a.outbox.accepted :: Fits(m)
    requires forall m <- Last(run).b.outbox.accepted :: Fits(m)
    ensures CanRecover(Last(run)) <==> !Stuck(Last(run))
    ensures CanRecoverOther(Last(run)) <==> !Stuck(Last(run))
  {
    RunKeeps(run, |run| - 1);
    var s := Last(run);
    var na, nb := |s.a.socket.frames|, |s.b.socket.frames|;
    assert Moving(s, na, nb);
    hide Moving, Reaches, Recovered, Inv;
    if Stuck(s) {
      StuckIsLost(s);
    } else {
      var s' := MovingRecovers(s, na, nb);
      MirrorMoving(s, na, nb);
      var m := MovingRecovers(Mirror(s), nb, na);
      MirrorRecovers(s);
    }
  }
}
